/**
 * Player records and the team shapes the matcher reasons about
 * (src/utils/queueMatcher.js, the `CATEGORIES`/`GENDERS` constants and the
 * two team-signature helpers).
 */
module Players {
  import opened Wrappers
  import Seqs

  datatype Gender = Male | Female
  datatype Category = Beginners | Intermediate

  type PlayerId = nat

  /**
   * A player record. `category` and `gender` are `None` when the field is absent
   * or holds a string other than the two known constants: the source compares
   * them with `===` against those constants only. `gamesPlayed` is `None` when absent.
   */
  datatype Player = Player(
    id: PlayerId,
    name: string,
    category: Option<Category>,
    gender: Option<Gender>,
    gamesPlayed: Option<nat>,
    addedAt: int)

  /** Games played, with a missing count read as 0 (`p.gamesPlayed ?? 0`, `p.gamesPlayed || 0`). */
  function Games(p: Player): nat {
    p.gamesPlayed.GetOr(0)
  }

  /** A doubles pairing `{ team1, team2 }`. */
  datatype Match = Match(team1: seq<Player>, team2: seq<Player>)

  /** `[...m.team1, ...m.team2]` */
  function Members(m: Match): seq<Player> {
    m.team1 + m.team2
  }

  function IdsOf(s: seq<Player>): set<PlayerId> {
    set p | p in s :: p.id
  }

  /** No record occurs twice and no two different records share an id. */
  ghost predicate UniqueIds(s: seq<Player>) {
    && (forall p | p in s :: multiset(s)[p] == 1)
    && (forall p, q | p in s && q in s && p.id == q.id :: p == q)
  }

  /** Any sub-multiset of a sequence with unique ids has unique ids. */
  lemma UniqueIdsSub(a: seq<Player>, b: seq<Player>)
    requires UniqueIds(a)
    requires multiset(b) <= multiset(a)
    ensures UniqueIds(b)
  {
    forall p | p in b
      ensures multiset(b)[p] == 1
    {
      assert p in multiset(b);
      assert p in multiset(a);
    }
    forall p, q | p in b && q in b && p.id == q.id
      ensures p == q
    {
      assert p in multiset(b) && q in multiset(b);
      assert p in multiset(a) && q in multiset(a);
    }
  }

  /** Two positions of a sequence with unique ids hold different ids. */
  lemma UniqueIdsPositions(s: seq<Player>, i: nat, j: nat)
    requires UniqueIds(s)
    requires i < j < |s|
    ensures s[i].id != s[j].id
  {
    if s[i].id == s[j].id {
      assert s[i] == s[j];
      Seqs.TwoPositions(s, i, j);
      assert false;
    }
  }

  /** The list is sorted by games played, fewest first. */
  ghost predicate GamesAscending(s: seq<Player>) {
    forall i, j | 0 <= i < j < |s| :: Games(s[i]) <= Games(s[j])
  }

  /** Sum of games played over a list (`reduce((s, p) => s + (p.gamesPlayed || 0), 0)`). */
  function SumGames(s: seq<Player>): nat {
    if |s| == 0 then 0 else Games(s[0]) + SumGames(s[1..])
  }

  /** Largest games-played count in a list (0 for the empty list, which the matcher never scores). */
  function MaxGames(s: seq<Player>): (r: nat)
    ensures forall p | p in s :: Games(p) <= r
    ensures |s| > 0 ==> exists p | p in s :: Games(p) == r
  {
    if |s| == 0 then 0
    else
      var rest := MaxGames(s[1..]);
      assert |s| > 1 ==> s[1..][0] in s;
      if Games(s[0]) >= rest then Games(s[0]) else rest
  }

  lemma {:induction false} SumGamesConcat(a: seq<Player>, b: seq<Player>)
    ensures SumGames(a + b) == SumGames(a) + SumGames(b)
  {
    if |a| > 0 {
      assert (a + b)[1..] == a[1..] + b;
      SumGamesConcat(a[1..], b);
    } else {
      assert a + b == b;
    }
  }

  /** Removing position `k` removes exactly one copy of `b[k]`. */
  lemma MultisetRemoveAt(b: seq<Player>, k: nat)
    requires k < |b|
    ensures multiset(b) == multiset(b[..k] + b[k + 1..]) + multiset{b[k]}
  {
    assert b == b[..k] + [b[k]] + b[k + 1..];
  }

  /** The sum of games played depends only on which records are listed, not their order. */
  lemma {:induction false} SumGamesPermutation(a: seq<Player>, b: seq<Player>)
    requires multiset(a) == multiset(b)
    ensures SumGames(a) == SumGames(b)
  {
    if |a| == 0 {
      assert |b| == |multiset(b)| == 0;
    } else {
      var x := a[0];
      assert x in multiset(b);
      var k :| 0 <= k < |b| && b[k] == x;
      var b' := b[..k] + b[k + 1..];
      MultisetRemoveAt(b, k);
      assert a == [x] + a[1..];
      forall y
        ensures multiset(a[1..])[y] == multiset(b')[y]
      {
        assert multiset(a)[y] == multiset(a[1..])[y] + multiset{x}[y];
        assert multiset(b)[y] == multiset(b')[y] + multiset{x}[y];
      }
      assert multiset(a[1..]) == multiset(b');
      SumGamesPermutation(a[1..], b');
      assert b == b[..k] + ([x] + b[k + 1..]);
      SumGamesConcat(b[..k], [x] + b[k + 1..]);
      SumGamesConcat(b[..k], b[k + 1..]);
      assert ([x] + b[k + 1..])[1..] == b[k + 1..];
    }
  }

  /** The maximum of games played depends only on which records are listed. */
  lemma MaxGamesSameElements(a: seq<Player>, b: seq<Player>)
    requires forall p :: p in a <==> p in b
    ensures MaxGames(a) == MaxGames(b)
  {
    if |a| > 0 {
      MaxIsBound(b, MaxGames(a));
    } else {
      assert |b| > 0 ==> b[0] in b;
    }
  }

  /** A bound that every element respects and some element attains is the maximum. */
  lemma MaxIsBound(s: seq<Player>, m: nat)
    requires forall p | p in s :: Games(p) <= m
    requires exists p | p in s :: Games(p) == m
    ensures MaxGames(s) == m
  {
  }

  datatype GenderSignature = MM | FF | MF
  datatype CategorySignature = BB | II | BI

  /** `teamGenderSignature`: all male, all female, or anything else. */
  function TeamGenderSignature(team: seq<Player>): GenderSignature {
    if forall p | p in team :: p.gender == Some(Male) then MM
    else if forall p | p in team :: p.gender == Some(Female) then FF
    else MF
  }

  /** `teamCategorySignature`: all beginners, all intermediate, or anything else. */
  function TeamCategorySignature(team: seq<Player>): CategorySignature {
    if forall p | p in team :: p.category == Some(Beginners) then BB
    else if forall p | p in team :: p.category == Some(Intermediate) then II
    else BI
  }

  /** Both teams have two players and every player has a known gender and category. */
  predicate WellFormed(m: Match) {
    && |m.team1| == 2 && |m.team2| == 2
    && (forall p | p in Members(m) :: p.gender.Some? && p.category.Some?)
  }

  /** The legal doubles shape: both teams carry the same gender and category signatures. */
  predicate Balanced(m: Match) {
    && WellFormed(m)
    && TeamGenderSignature(m.team1) == TeamGenderSignature(m.team2)
    && TeamCategorySignature(m.team1) == TeamCategorySignature(m.team2)
  }

  /** The only unbalanced shape ever allowed: one gender, team1 mixed, team2 three-of-a-kind completed. */
  predicate FallbackShape(m: Match) {
    && WellFormed(m)
    && TeamGenderSignature(m.team1) == TeamGenderSignature(m.team2)
    && TeamGenderSignature(m.team1) != MF
    && TeamCategorySignature(m.team1) == BI
    && TeamCategorySignature(m.team2) != BI
  }
}
