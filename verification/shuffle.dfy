/**
 * The two shuffles of src/utils/queueMatcher.js: the Fisher-Yates `shuffle` and
 * `shuffleWithinTies`. `Math.random()` is replaced by an explicit stream of draws.
 */
module Shuffling {
  import opened Seqs
  import opened Players

  /**
   * A source of random draws: `stream(pos)` is the next draw. Reducing a draw modulo
   * `n` yields every index in `[0, n)`, exactly the values
   * `Math.floor(Math.random() * n)` can take.
   */
  datatype Rng = Rng(stream: nat -> nat, pos: nat)

  /** One `Math.floor(Math.random() * bound)`, and the source advanced past it. */
  function Draw(rng: Rng, bound: nat): (r: (nat, Rng))
    requires bound > 0
    ensures r.0 < bound
    ensures r.1.pos == rng.pos + 1
  {
    (rng.stream(rng.pos) % bound, Rng(rng.stream, rng.pos + 1))
  }

  /** `[a[i], a[j]] = [a[j], a[i]]` */
  function Swap<T>(a: seq<T>, i: nat, j: nat): (r: seq<T>)
    requires i < |a| && j < |a|
    ensures |r| == |a|
    ensures multiset(r) == multiset(a)
  {
    a[i := a[j]][j := a[i]]
  }

  /** The Fisher-Yates loop body for `i` down to 1. */
  function SwapDown<T>(a: seq<T>, i: nat, rng: Rng): (r: (seq<T>, Rng))
    requires 0 < i < |a|
    ensures |r.0| == |a|
    ensures multiset(r.0) == multiset(a)
    decreases i
  {
    var (j, rng1) := Draw(rng, i + 1);
    var a1 := Swap(a, i, j);
    if i == 1 then (a1, rng1) else SwapDown(a1, i - 1, rng1)
  }

  /** `shuffle(arr)`: a copy of `a` in an order chosen by the draws. */
  function Shuffle<T>(a: seq<T>, rng: Rng): (r: (seq<T>, Rng))
    ensures |r.0| == |a|
    ensures multiset(r.0) == multiset(a)
  {
    if |a| <= 1 then (a, rng) else SwapDown(a, |a| - 1, rng)
  }

  /** The fewest games played by anyone in a non-empty list. */
  function MinGames(s: seq<Player>): (r: nat)
    requires |s| > 0
    ensures forall p | p in s :: r <= Games(p)
    ensures exists p | p in s :: Games(p) == r
  {
    if |s| == 1 then Games(s[0])
    else
      var rest := MinGames(s[1..]);
      if Games(s[0]) <= rest then Games(s[0]) else rest
  }

  /**
   * `shuffleWithinTies`: players grouped by games played, the groups laid out
   * fewest-games first, each group shuffled on its own. The lowest tier is split
   * off, shuffled, and the rest handled the same way, which is the ascending
   * iteration over the distinct `gamesPlayed` keys the source performs.
   */
  function ShuffleWithinTies(players: seq<Player>, rng: Rng): (r: (seq<Player>, Rng))
    ensures multiset(r.0) == multiset(players)
    ensures |r.0| == |players|
    ensures GamesAscending(r.0)
    decreases |players|
  {
    if |players| == 0 then ([], rng)
    else
      var g := MinGames(players);
      var tier := Filter(p => Games(p) == g, players);
      var rest := Filter(p => Games(p) != g, players);
      TiersPartition(players, g);
      var (shuffledTier, rng1) := Shuffle(tier, rng);
      var (shuffledRest, rng2) := ShuffleWithinTies(rest, rng1);
      TiersConcatAscending(shuffledTier, shuffledRest, g, players);
      (shuffledTier + shuffledRest, rng2)
  }

  /** The lowest tier and the rest split the list, and the lowest tier is not empty. */
  lemma TiersPartition(players: seq<Player>, g: nat)
    requires |players| > 0
    requires exists p | p in players :: Games(p) == g
    ensures multiset(players)
         == multiset(Filter(p => Games(p) == g, players)) + multiset(Filter(p => Games(p) != g, players))
    ensures |Filter(p => Games(p) != g, players)| < |players|
  {
    var tier := Filter(p => Games(p) == g, players);
    var rest := Filter(p => Games(p) != g, players);
    FilterPartition(p => Games(p) == g, p => Games(p) != g, players);
    assert multiset(players) == multiset(tier) + multiset(rest);
    var w :| w in players && Games(w) == g;
    assert w in tier;
    assert |multiset(players)| == |multiset(tier)| + |multiset(rest)|;
  }

  /** One tier of equal games followed by an ascending list of strictly larger games is ascending. */
  lemma TiersConcatAscending(tier: seq<Player>, rest: seq<Player>, g: nat, players: seq<Player>)
    requires forall p | p in players :: g <= Games(p)
    requires multiset(tier) == multiset(Filter(p => Games(p) == g, players))
    requires multiset(rest) == multiset(Filter(p => Games(p) != g, players))
    requires GamesAscending(rest)
    ensures GamesAscending(tier + rest)
  {
    forall p | p in tier
      ensures Games(p) == g
    {
      assert p in multiset(tier);
      assert p in Filter(p => Games(p) == g, players);
    }
    forall p | p in rest
      ensures Games(p) > g
    {
      assert p in multiset(rest);
      assert p in Filter(p => Games(p) != g, players);
    }
    var s := tier + rest;
    forall i, j | 0 <= i < j < |s|
      ensures Games(s[i]) <= Games(s[j])
    {
      if j < |tier| {
        assert s[i] in tier && s[j] in tier;
      } else if i < |tier| {
        assert s[i] in tier && s[j] == rest[j - |tier|];
      } else {
        assert s[i] == rest[i - |tier|] && s[j] == rest[j - |tier|];
      }
    }
  }
}
