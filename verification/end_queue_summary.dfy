/**
 * The pure parts of src/components/EndQueueSummary.jsx: merging current and
 * removed players by id, the player and game totals, the games-descending
 * order, and the quarter-shuttle formatter (on a whole number of quarters).
 */
module EndQueueSummary {
  import opened Wrappers
  import opened Players

  // ---------------------------------------------------------------------------
  // Merging players by id
  // ---------------------------------------------------------------------------

  /** `[...(players || []), ...(removedPlayers || [])]`: a missing list counts as empty. */
  function Combined(players: Option<seq<Player>>, removedPlayers: Option<seq<Player>>): seq<Player> {
    players.GetOr([]) + removedPlayers.GetOr([])
  }

  /** The position of the entry for `id`, if the map has one. */
  function IndexOfId(acc: seq<Player>, id: PlayerId): (r: Option<nat>)
    ensures r.Some? ==> r.value < |acc| && acc[r.value].id == id
    ensures r.None? <==> forall p | p in acc :: p.id != id
  {
    if |acc| == 0 then None
    else if acc[0].id == id then Some(0)
    else
      var rest := IndexOfId(acc[1..], id);
      if rest.Some? then Some(rest.value + 1) else None
  }

  /**
   * One `forEach` step on `playerMap`, kept as its values in insertion order:
   * a new id is appended; a known id has its record replaced, in place, only by
   * one with strictly more games.
   */
  function Visit(acc: seq<Player>, p: Player): seq<Player> {
    var i := IndexOfId(acc, p.id);
    if i.None? then acc + [p]
    else if Games(p) > Games(acc[i.value]) then acc[i.value := p]
    else acc
  }

  /** `Array.from(playerMap.values())` after visiting `s` from the left. */
  function Merge(s: seq<Player>): seq<Player>
    decreases |s|
  {
    if |s| == 0 then [] else Visit(Merge(s[..|s| - 1]), s[|s| - 1])
  }

  predicate IdsDistinct(r: seq<Player>) {
    forall i, j | 0 <= i < j < |r| :: r[i].id != r[j].id
  }

  /**
   * `r` is a merge of `s`: one record per id of `s`, each taken from `s`, with
   * the most games of its id, and no earlier record of its id has as many.
   */
  ghost predicate MergedOf(r: seq<Player>, s: seq<Player>) {
    && IdsDistinct(r)
    && IdsOf(r) == IdsOf(s)
    && (forall p | p in r :: p in s)
    && (forall p, q | p in r && q in s && q.id == p.id :: Games(q) <= Games(p))
    && (forall p | p in r :: FirstWithMost(s, p))
  }

  /** `p` occurs in `s` at a position before which every record with its id has fewer games. */
  ghost predicate FirstWithMost(s: seq<Player>, p: Player) {
    exists k | 0 <= k < |s| && s[k] == p :: forall j | 0 <= j < k && s[j].id == p.id :: Games(s[j]) < Games(p)
  }

  lemma FirstWithMostExtend(s: seq<Player>, x: Player, p: Player)
    requires FirstWithMost(s, p)
    ensures FirstWithMost(s + [x], p)
  {
    var k :| 0 <= k < |s| && s[k] == p && forall j | 0 <= j < k && s[j].id == p.id :: Games(s[j]) < Games(p);
    assert (s + [x])[k] == p;
    forall j | 0 <= j < k && (s + [x])[j].id == p.id
      ensures Games((s + [x])[j]) < Games(p)
    {
      assert (s + [x])[j] == s[j];
    }
  }

  /** A record that beats every earlier record of its id is the one kept for it. */
  lemma FirstWithMostLast(s: seq<Player>, x: Player)
    requires forall q | q in s && q.id == x.id :: Games(q) < Games(x)
    ensures FirstWithMost(s + [x], x)
  {
    var t := s + [x];
    assert t[|s|] == x;
    forall j | 0 <= j < |s| && t[j].id == x.id
      ensures Games(t[j]) < Games(x)
    {
      assert t[j] == s[j] && s[j] in s;
    }
  }

  lemma {:induction false} MergeIsMerged(s: seq<Player>)
    ensures MergedOf(Merge(s), s)
    decreases |s|
  {
    if |s| > 0 {
      var init := s[..|s| - 1];
      var x := s[|s| - 1];
      assert s == init + [x];
      MergeIsMerged(init);
      VisitStep(Merge(init), init, x);
    }
  }

  lemma VisitStep(acc: seq<Player>, s: seq<Player>, x: Player)
    requires MergedOf(acc, s)
    ensures MergedOf(Visit(acc, x), s + [x])
  {
    forall p | p in acc
      ensures FirstWithMost(s + [x], p)
    {
      FirstWithMostExtend(s, x, p);
    }
    var i := IndexOfId(acc, x.id);
    if i.None? {
      VisitNew(acc, s, x);
    } else if Games(x) > Games(acc[i.value]) {
      VisitReplace(acc, s, x, i.value);
    } else {
      VisitKeep(acc, s, x, i.value);
    }
  }

  /** A record with a new id is appended. */
  lemma VisitNew(acc: seq<Player>, s: seq<Player>, x: Player)
    requires MergedOf(acc, s)
    requires forall p | p in acc :: FirstWithMost(s + [x], p)
    requires forall p | p in acc :: p.id != x.id
    ensures MergedOf(acc + [x], s + [x])
  {
    var t := s + [x];
    var r := acc + [x];
    assert x.id !in IdsOf(s);
    assert forall q | q in s :: q.id != x.id;
    FirstWithMostLast(s, x);
    IdsOfAppend(acc, x);
    IdsOfAppend(s, x);
  }

  lemma IdsOfAppend(a: seq<Player>, x: Player)
    ensures IdsOf(a + [x]) == IdsOf(a) + {x.id}
  {
    assert forall p | p in a + [x] :: p in a || p == x;
  }

  /** A record with more games than the kept one takes its place. */
  lemma VisitReplace(acc: seq<Player>, s: seq<Player>, x: Player, k: nat)
    requires MergedOf(acc, s)
    requires forall p | p in acc :: FirstWithMost(s + [x], p)
    requires k < |acc| && acc[k].id == x.id && Games(x) > Games(acc[k])
    ensures MergedOf(acc[k := x], s + [x])
  {
    var t := s + [x];
    var r := acc[k := x];
    forall q | q in s && q.id == x.id
      ensures Games(q) < Games(x)
    {
      assert acc[k] in acc;
    }
    FirstWithMostLast(s, x);
    ReplaceIds(acc, s, x, k);
    forall p | p in r && p != x
      ensures p in acc && p.id != x.id
    {
      var m :| 0 <= m < |r| && r[m] == p;
      assert m != k;
      assert r[m] == acc[m];
    }
  }

  lemma ReplaceIds(acc: seq<Player>, s: seq<Player>, x: Player, k: nat)
    requires MergedOf(acc, s)
    requires k < |acc| && acc[k].id == x.id
    ensures IdsDistinct(acc[k := x])
    ensures IdsOf(acc[k := x]) == IdsOf(s + [x])
  {
    var r := acc[k := x];
    var t := s + [x];
    forall id | id in IdsOf(t)
      ensures id in IdsOf(r)
    {
      if id == x.id {
        assert r[k] == x;
      } else {
        assert id in IdsOf(acc);
        var p :| p in acc && p.id == id;
        var m :| 0 <= m < |acc| && acc[m] == p;
        assert m != k && r[m] == p;
      }
    }
    forall id | id in IdsOf(r)
      ensures id in IdsOf(t)
    {
      var p :| p in r && p.id == id;
      var m :| 0 <= m < |r| && r[m] == p;
      if m != k {
        assert p == acc[m] && p.id in IdsOf(acc);
      }
    }
  }

  /** A record with no more games than the kept one is dropped. */
  lemma VisitKeep(acc: seq<Player>, s: seq<Player>, x: Player, k: nat)
    requires MergedOf(acc, s)
    requires forall p | p in acc :: FirstWithMost(s + [x], p)
    requires k < |acc| && acc[k].id == x.id && Games(x) <= Games(acc[k])
    ensures MergedOf(acc, s + [x])
  {
    var t := s + [x];
    assert acc[k] in acc;
    forall p, q | p in acc && q in t && q.id == p.id
      ensures Games(q) <= Games(p)
    {
      if q == x {
        var m :| 0 <= m < |acc| && acc[m] == p;
        assert acc[m].id == acc[k].id;
      }
    }
    assert IdsOf(acc) == IdsOf(t);
  }

  /** Distinct ids mean as many ids as records. */
  lemma {:induction false} DistinctIdsCount(r: seq<Player>)
    requires IdsDistinct(r)
    ensures |IdsOf(r)| == |r|
  {
    if |r| > 0 {
      IdsDistinctTail(r);
      DistinctIdsCount(r[1..]);
      IdsOfCons(r);
    }
  }

  lemma IdsDistinctTail(r: seq<Player>)
    requires IdsDistinct(r) && |r| > 0
    ensures IdsDistinct(r[1..])
    ensures r[0].id !in IdsOf(r[1..])
  {
    var rest := r[1..];
    forall i, j | 0 <= i < j < |rest|
      ensures rest[i].id != rest[j].id
    {
      assert rest[i] == r[i + 1] && rest[j] == r[j + 1];
    }
    forall p | p in rest
      ensures p.id != r[0].id
    {
      var m :| 0 <= m < |rest| && rest[m] == p;
      assert p == r[m + 1];
    }
  }

  lemma IdsOfCons(r: seq<Player>)
    requires |r| > 0
    ensures IdsOf(r) == {r[0].id} + IdsOf(r[1..])
  {
    assert r == [r[0]] + r[1..];
  }

  /** `playerCount`: the number of distinct ids among all the records. */
  function PlayerCount(s: seq<Player>): nat {
    |Merge(s)|
  }

  /** `totalGames`: games played summed over the merged records. */
  function TotalGames(s: seq<Player>): nat {
    SumGames(Merge(s))
  }

  lemma PlayerCountIsDistinctIds(s: seq<Player>)
    ensures PlayerCount(s) == |IdsOf(s)|
  {
    MergeIsMerged(s);
    DistinctIdsCount(Merge(s));
  }

  /** Without repeated ids the merge changes nothing: every record counts once, as it is. */
  lemma {:induction false} MergeDistinct(s: seq<Player>)
    requires IdsDistinct(s)
    ensures Merge(s) == s
    ensures PlayerCount(s) == |s|
    ensures TotalGames(s) == SumGames(s)
    decreases |s|
  {
    if |s| > 0 {
      var init := s[..|s| - 1];
      var x := s[|s| - 1];
      IdsDistinctInit(s);
      MergeDistinct(init);
      VisitFresh(init, x);
      assert init + [x] == s;
    }
  }

  /** Dropping the last record keeps ids distinct, and the last id is not among the others. */
  lemma IdsDistinctInit(s: seq<Player>)
    requires IdsDistinct(s) && |s| > 0
    ensures IdsDistinct(s[..|s| - 1])
    ensures forall p | p in s[..|s| - 1] :: p.id != s[|s| - 1].id
  {
    var init := s[..|s| - 1];
    forall i, j | 0 <= i < j < |init|
      ensures init[i].id != init[j].id
    {
      assert init[i] == s[i] && init[j] == s[j];
    }
    forall p | p in init
      ensures p.id != s[|s| - 1].id
    {
      var m :| 0 <= m < |init| && init[m] == p;
      assert s[m] == p;
    }
  }

  /** A record with a new id is appended. */
  lemma VisitFresh(acc: seq<Player>, x: Player)
    requires forall p | p in acc :: p.id != x.id
    ensures Visit(acc, x) == acc + [x]
  {
  }

  // ---------------------------------------------------------------------------
  // Ordering by games played
  // ---------------------------------------------------------------------------

  predicate GamesDescending(s: seq<Player>) {
    forall i, j | 0 <= i < j < |s| :: Games(s[i]) >= Games(s[j])
  }

  /** Put `p` in front of the first record with fewer games. */
  function InsertByGames(p: Player, s: seq<Player>): (r: seq<Player>)
    ensures multiset(r) == multiset(s) + multiset{p}
    ensures |r| > 0 && (r[0] == p || (|s| > 0 && r[0] == s[0]))
    ensures GamesDescending(s) ==> GamesDescending(r)
  {
    if |s| == 0 then [p]
    else if Games(s[0]) < Games(p) then
      DescendingCons(p, s);
      [p] + s
    else
      var rest := InsertByGames(p, s[1..]);
      assert s == [s[0]] + s[1..];
      InsertStep(p, s, rest);
      [s[0]] + rest
  }

  /** Keeping the head in front of a descending insertion result keeps the order. */
  lemma InsertStep(p: Player, s: seq<Player>, rest: seq<Player>)
    requires |s| > 0 && Games(s[0]) >= Games(p)
    requires |rest| > 0 && (rest[0] == p || (|s| > 1 && rest[0] == s[1]))
    requires GamesDescending(s[1..]) ==> GamesDescending(rest)
    ensures GamesDescending(s) ==> GamesDescending([s[0]] + rest)
  {
    if GamesDescending(s) {
      forall i, j | 0 <= i < j < |s[1..]|
        ensures Games(s[1..][i]) >= Games(s[1..][j])
      {
        assert s[1..][i] == s[i + 1] && s[1..][j] == s[j + 1];
      }
      DescendingCons(s[0], rest);
    }
  }

  /** A record with at least the games of a descending list's head can go in front of it. */
  lemma DescendingCons(x: Player, r: seq<Player>)
    requires |r| > 0 ==> Games(x) >= Games(r[0])
    ensures GamesDescending(r) ==> GamesDescending([x] + r)
  {
    if GamesDescending(r) {
      var t := [x] + r;
      forall i, j | 0 <= i < j < |t|
        ensures Games(t[i]) >= Games(t[j])
      {
        assert t[j] == r[j - 1];
        if i > 0 {
          assert t[i] == r[i - 1];
        } else {
          assert Games(r[0]) >= Games(r[j - 1]);
        }
      }
    }
  }

  /**
   * `sorted`: the merged records by games played, most first. Records with equal
   * games are ordered by name in the app; this order leaves them in some order.
   */
  function SortByGames(s: seq<Player>): (r: seq<Player>)
    ensures multiset(r) == multiset(s)
    ensures GamesDescending(r)
  {
    if |s| == 0 then []
    else
      assert s == [s[0]] + s[1..];
      InsertByGames(s[0], SortByGames(s[1..]))
  }

  /** The sorted list shows every merged record once: same count, same total games. */
  lemma SortedKeepsTotals(s: seq<Player>)
    ensures |SortByGames(Merge(s))| == PlayerCount(s)
    ensures SumGames(SortByGames(Merge(s))) == TotalGames(s)
  {
    var sorted := SortByGames(Merge(s));
    assert |multiset(sorted)| == |multiset(Merge(s))|;
    SumGamesPermutation(sorted, Merge(s));
  }

  // ---------------------------------------------------------------------------
  // The quarter-shuttle formatter
  // ---------------------------------------------------------------------------

  predicate IsDigit(c: char) {
    '0' <= c <= '9'
  }

  function Digit(d: nat): (c: char)
    requires d < 10
    ensures IsDigit(c)
  {
    ('0' as int + d) as char
  }

  function DigitValue(c: char): nat {
    if IsDigit(c) then (c as int - '0' as int) as nat else 0
  }

  /** `${n}` for a whole number. */
  function NatToString(n: nat): (r: string)
    ensures |r| > 0
    ensures forall i | 0 <= i < |r| :: IsDigit(r[i])
  {
    if n < 10 then [Digit(n)] else NatToString(n / 10) + [Digit(n % 10)]
  }

  function ParseNat(s: string): nat
    decreases |s|
  {
    if |s| == 0 then 0 else ParseNat(s[..|s| - 1]) * 10 + DigitValue(s[|s| - 1])
  }

  lemma {:induction false} ParseNatToString(n: nat)
    ensures ParseNat(NatToString(n)) == n
  {
    if n >= 10 {
      var s := NatToString(n);
      assert s[..|s| - 1] == NatToString(n / 10);
      ParseNatToString(n / 10);
    }
  }

  /** `Math.floor(quarters / 4)` and `quarters % 4` for a count of quarters that is not negative. */
  function QuarterParts(quarters: nat): (r: (nat, nat))
    ensures 4 * r.0 + r.1 == quarters && r.1 < 4
  {
    (quarters / 4, quarters % 4)
  }

  /** `formatShuttleFraction`, given `Math.round(value * 4)`: whole shuttles and quarters. */
  function FormatShuttleFraction(quarters: nat): string {
    if quarters == 0 then "0"
    else
      var (whole, remainder) := QuarterParts(quarters);
      if remainder == 0 then NatToString(whole)
      else if whole == 0 then [Digit(remainder)] + "/4"
      else NatToString(whole) + " " + [Digit(remainder)] + "/4"
  }

  /** Read a formatted count back: `w`, `r/4` or `w r/4`. */
  function ParseShuttleFraction(s: string): nat {
    if |s| >= 3 && s[|s| - 2..] == "/4" then
      var remainder := DigitValue(s[|s| - 3]);
      if |s| == 3 then remainder else 4 * ParseNat(s[..|s| - 4]) + remainder
    else 4 * ParseNat(s)
  }

  /** The four shapes the formatter produces, by the quarters' whole part and remainder. */
  lemma FormatShapes(quarters: nat)
    ensures quarters == 0 ==> FormatShuttleFraction(quarters) == "0"
    ensures quarters > 0 && quarters % 4 == 0 ==> FormatShuttleFraction(quarters) == NatToString(quarters / 4)
    ensures 0 < quarters < 4 ==> FormatShuttleFraction(quarters) == [Digit(quarters)] + "/4"
    ensures quarters > 4 && quarters % 4 != 0 ==>
      FormatShuttleFraction(quarters) == NatToString(quarters / 4) + " " + [Digit(quarters % 4)] + "/4"
  {
  }

  /** The formatted text determines the count: parsing it back gives the quarters. */
  lemma FormatRoundTrip(quarters: nat)
    ensures ParseShuttleFraction(FormatShuttleFraction(quarters)) == quarters
  {
    var s := FormatShuttleFraction(quarters);
    var whole, remainder := quarters / 4, quarters % 4;
    if quarters == 0 {
      assert "0"[..0] == "";
    } else if remainder == 0 {
      ParseNatToString(whole);
      assert !IsDigit('/');
      if |s| >= 3 {
        assert s[|s| - 2] != '/';
        assert s[|s| - 2..][0] == s[|s| - 2];
      }
    } else if whole == 0 {
    } else {
      var w := NatToString(whole);
      assert s == w + [' ', Digit(remainder), '/', '4'];
      assert s[..|s| - 4] == w;
      ParseNatToString(whole);
    }
  }

  lemma FormatInjective(q1: nat, q2: nat)
    requires FormatShuttleFraction(q1) == FormatShuttleFraction(q2)
    ensures q1 == q2
  {
    FormatRoundTrip(q1);
    FormatRoundTrip(q2);
  }
}
