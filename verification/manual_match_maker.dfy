/**
 * The pure rules inside src/components/ManualMatchMaker.jsx: the two-team
 * selection toggle, the waiting list, the free courts and the create guard.
 * React state becomes an explicit `Selection` value that `Toggle` maps to the
 * next one.
 */
module ManualMatchMaker {
  import opened Wrappers
  import opened Seqs
  import opened Players
  import opened QueueRounds

  datatype Side = Team1 | Team2

  /** `selectedTeam1` and `selectedTeam2`: the player ids picked for each side. */
  datatype Selection = Selection(team1: seq<PlayerId>, team2: seq<PlayerId>)

  const NoSelection: Selection := Selection([], [])

  function Team(sel: Selection, side: Side): seq<PlayerId> {
    if side == Team1 then sel.team1 else sel.team2
  }

  function Other(side: Side): Side {
    if side == Team1 then Team2 else Team1
  }

  function WithTeam(sel: Selection, side: Side, team: seq<PlayerId>): Selection {
    if side == Team1 then sel.(team1 := team) else sel.(team2 := team)
  }

  /** What the dialog keeps true: at most two ids a side, no id twice, no id on both sides. */
  ghost predicate ValidSelection(sel: Selection) {
    && |sel.team1| <= 2 && |sel.team2| <= 2
    && Distinct(sel.team1) && Distinct(sel.team2)
    && (forall id | id in sel.team1 :: id !in sel.team2)
  }

  /**
   * `togglePlayer(playerId, team)`: drop the id from the side that has it;
   * otherwise add it at the end, unless the other side has it or this side is full.
   */
  function Toggle(sel: Selection, id: PlayerId, side: Side): Selection {
    var team := Team(sel, side);
    if id in team then WithTeam(sel, side, Filter((x: PlayerId) => x != id, team))
    else if id in Team(sel, Other(side)) then sel
    else if |team| >= 2 then sel
    else WithTeam(sel, side, team + [id])
  }

  /** The side's button is disabled: the id is on the other side, or this side is full and lacks it. */
  predicate ToggleDisabled(sel: Selection, id: PlayerId, side: Side) {
    id in Team(sel, Other(side)) || (id !in Team(sel, side) && |Team(sel, side)| >= 2)
  }

  lemma ToggleKeepsValid(sel: Selection, id: PlayerId, side: Side)
    requires ValidSelection(sel)
    ensures ValidSelection(Toggle(sel, id, side))
  {
    var team := Team(sel, side);
    if id in team {
      FilterDistinct((x: PlayerId) => x != id, team);
    } else if id !in Team(sel, Other(side)) && |team| < 2 {
      assert Distinct(team + [id]) by {
        forall i, j | 0 <= i < j < |team + [id]|
          ensures (team + [id])[i] != (team + [id])[j]
        {
          if j == |team| {
            assert team[i] in team;
          }
        }
      }
    }
  }

  /** Toggling an id a side holds removes it from that side and leaves the other side alone. */
  lemma ToggleRemoves(sel: Selection, id: PlayerId, side: Side)
    requires id in Team(sel, side)
    ensures var r := Toggle(sel, id, side);
      && id !in Team(r, side)
      && (forall x | x != id :: x in Team(r, side) <==> x in Team(sel, side))
      && IsSubsequence(Team(r, side), Team(sel, side))
      && Team(r, Other(side)) == Team(sel, Other(side))
  {
  }

  /** Toggling an id the other side holds, or into a full side, changes nothing. */
  lemma ToggleBlocked(sel: Selection, id: PlayerId, side: Side)
    requires id !in Team(sel, side)
    requires id in Team(sel, Other(side)) || |Team(sel, side)| >= 2
    ensures Toggle(sel, id, side) == sel
  {
  }

  /** Otherwise the id joins the end of the side, and the other side is unchanged. */
  lemma ToggleAdds(sel: Selection, id: PlayerId, side: Side)
    requires id !in Team(sel, side) && id !in Team(sel, Other(side)) && |Team(sel, side)| < 2
    ensures Team(Toggle(sel, id, side), side) == Team(sel, side) + [id]
    ensures Team(Toggle(sel, id, side), Other(side)) == Team(sel, Other(side))
  {
  }

  /** Adding an id and toggling it again on the same side restores the selection. */
  lemma ToggleTwice(sel: Selection, id: PlayerId, side: Side)
    requires id !in Team(sel, side) && id !in Team(sel, Other(side)) && |Team(sel, side)| < 2
    ensures Toggle(Toggle(sel, id, side), id, side) == sel
  {
    var team := Team(sel, side);
    var f := (x: PlayerId) => x != id;
    FilterConcat(f, team, [id]);
    FilterKeepsAll(f, team);
    assert Filter(f, [id]) == [];
    assert Filter(f, team + [id]) == team;
  }

  /** On a valid selection, a toggle changes something exactly when its button is enabled. */
  lemma ToggleMatchesButton(sel: Selection, id: PlayerId, side: Side)
    requires ValidSelection(sel)
    ensures Toggle(sel, id, side) == sel <==> ToggleDisabled(sel, id, side)
  {
    var team := Team(sel, side);
    if id in team {
      assert id !in Team(sel, Other(side));
      ToggleRemoves(sel, id, side);
      assert Team(Toggle(sel, id, side), side) != team;
    } else if !ToggleDisabled(sel, id, side) {
      assert |Team(Toggle(sel, id, side), side)| == |team| + 1;
    }
  }

  /** `players.filter((p) => !playingIds.has(p.id))` */
  function WaitingPlayers(players: seq<Player>, playingIds: set<PlayerId>): seq<Player> {
    Filter((p: Player) => p.id !in playingIds, players)
  }

  /** The waiting players and the playing ones together are the whole list; the waiting keep their order. */
  lemma WaitingPlayersSplit(players: seq<Player>, playingIds: set<PlayerId>)
    ensures var w := WaitingPlayers(players, playingIds);
      && (forall p | p in players :: p in w <==> p.id !in playingIds)
      && (forall p | p in w :: p in players)
      && IsSubsequence(w, players)
      && multiset(players) == multiset(w) + multiset(Filter((p: Player) => p.id in playingIds, players))
  {
    FilterPartition((p: Player) => p.id !in playingIds, (p: Player) => p.id in playingIds, players);
  }

  /**
   * `Array.from({ length: courts }, (_, i) => i + 1)`. The length is the count
   * truncated toward zero, and 0 for a count below 1; the court counter can
   * hand over a fractional count.
   */
  function CourtNumbers(courts: real): (r: seq<int>)
    ensures forall id :: id in r <==> 1 <= id && id as real <= courts
    ensures forall i | 0 <= i < |r| :: r[i] == i + 1
  {
    var n := if courts < 1.0 then 0 else courts.Floor;
    var r := Numbering(n);
    assert forall id :: id in r <==> 1 <= id && id as real <= courts by {
      forall id
        ensures id in r <==> 1 <= id && id as real <= courts
      {
        if courts >= 1.0 {
          assert courts.Floor as real <= courts < courts.Floor as real + 1.0;
        }
      }
    }
    r
  }

  /** 1, 2, ..., n. */
  function Numbering(n: nat): (r: seq<int>)
    ensures |r| == n
    ensures forall i | 0 <= i < |r| :: r[i] == i + 1
    ensures forall id :: id in r <==> 1 <= id <= n
  {
    if n == 0 then [] else Numbering(n - 1) + [n]
  }

  /** `availableCourts`: the court numbers 1..courts that no match is on. */
  function AvailableCourts(courts: real, matches: seq<CourtMatch>): seq<int> {
    Filter((id: int) => id !in UsedCourts(matches), CourtNumbers(courts))
  }

  /** The free courts are exactly the numbers 1..courts no match uses, strictly ascending. */
  lemma AvailableCourtsExact(courts: real, matches: seq<CourtMatch>)
    ensures var r := AvailableCourts(courts, matches);
      && (forall id :: id in r <==> 1 <= id && id as real <= courts && id !in UsedCourts(matches))
      && Increasing(r)
  {
    var all := CourtNumbers(courts);
    FilterIncreasing((id: int) => id !in UsedCourts(matches), all);
  }

  predicate Increasing(s: seq<int>) {
    forall i, j | 0 <= i < j < |s| :: s[i] < s[j]
  }

  lemma {:induction false} FilterIncreasing(f: int -> bool, s: seq<int>)
    requires Increasing(s)
    ensures Increasing(Filter(f, s))
  {
    if |s| > 0 {
      assert Increasing(s[1..]) by {
        forall i, j | 0 <= i < j < |s[1..]|
          ensures s[1..][i] < s[1..][j]
        {
          assert s[1..][i] == s[i + 1] && s[1..][j] == s[j + 1];
        }
      }
      FilterIncreasing(f, s[1..]);
      var rest := Filter(f, s[1..]);
      forall x | x in rest
        ensures s[0] < x
      {
        var k :| 0 <= k < |s[1..]| && s[1..][k] == x;
        assert s[k + 1] == x;
      }
      if f(s[0]) {
        var r := [s[0]] + rest;
        forall i, j | 0 <= i < j < |r|
          ensures r[i] < r[j]
        {
          assert r[j] == rest[j - 1] && rest[j - 1] in rest;
          if i > 0 {
            assert r[i] == rest[i - 1];
          }
        }
      }
    }
  }

  /** `canCreate`: two full sides and a selected court that is free. A court of 0 is falsy. */
  predicate CanCreate(sel: Selection, selectedCourt: int, available: seq<int>) {
    |sel.team1| == 2 && |sel.team2| == 2 && selectedCourt != 0 && selectedCourt in available
  }

  /** The arguments `onCreate` receives. */
  datatype CreateRequest = CreateRequest(team1: seq<PlayerId>, team2: seq<PlayerId>, courtId: int)

  /** `handleCreate`: ask for the match only with two full sides and a court. */
  function HandleCreate(sel: Selection, selectedCourt: int): (r: Option<CreateRequest>)
    ensures r.Some? ==> |r.value.team1| == 2 && |r.value.team2| == 2 && r.value.courtId != 0
    ensures r.Some? ==> r.value == CreateRequest(sel.team1, sel.team2, selectedCourt)
  {
    if |sel.team1| == 2 && |sel.team2| == 2 && selectedCourt != 0 then
      Some(CreateRequest(sel.team1, sel.team2, selectedCourt))
    else None
  }

  /** An enabled Create button sends the selection and the court, and that court is free. */
  lemma CanCreateSends(sel: Selection, selectedCourt: int, courts: real, matches: seq<CourtMatch>)
    requires CanCreate(sel, selectedCourt, AvailableCourts(courts, matches))
    ensures HandleCreate(sel, selectedCourt) == Some(CreateRequest(sel.team1, sel.team2, selectedCourt))
    ensures 1 <= selectedCourt && selectedCourt as real <= courts && selectedCourt !in UsedCourts(matches)
  {
    AvailableCourtsExact(courts, matches);
  }
}
