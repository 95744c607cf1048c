/**
 * The reducer of src/App.jsx: a state machine over `{ queue, matches }` whose
 * add and complete actions re-run `createMatchesFromQueue`. The module-level
 * counters `nextId` and `nextMatchId` are part of the state; `Date.now()` and the
 * shuffle's random draws come in through `Env`.
 */
module App {
  import opened Wrappers
  import opened Seqs
  import opened Players
  import opened Shuffling
  import opened QueueMatcher
  import opened QueueRounds
  import opened Patterns

  type MatchId = nat

  /** An active match `{ id, team1, team2, createdAt }`; `id` stands for the string `m-<id>`. */
  datatype ActiveMatch = ActiveMatch(id: MatchId, team1: seq<Player>, team2: seq<Player>, createdAt: int)

  function Pairing(a: ActiveMatch): Match {
    Match(a.team1, a.team2)
  }

  /** `{ queue, matches }` together with the two counters. */
  datatype State = State(queue: seq<Player>, matches: seq<ActiveMatch>, nextId: nat, nextMatchId: nat)

  /** `initialState`, with both counters at 1. */
  const Init: State := State([], [], 1, 1)

  /**
   * The dispatched actions. `AddPlayer` carries the gender a caller may supply;
   * the reducer as written ignores it (see `ReduceAsWritten`). Any other `type`
   * is `Unrecognised`.
   */
  datatype Action =
    | AddPlayer(name: string, category: Option<Category>, gender: Option<Gender>)
    | RemovePlayer(id: PlayerId)
    | CompleteMatch(matchId: MatchId)
    | Unrecognised

  /** `Date.now()` for this dispatch, and the random source of the shuffles. */
  datatype Env = Env(now: int, rng: Rng)

  /** Every player in any of `matches`, match by match. */
  function MatchPlayers(matches: seq<ActiveMatch>): seq<Player> {
    if |matches| == 0 then [] else Members(Pairing(matches[0])) + MatchPlayers(matches[1..])
  }

  /** The queue followed by the players on court. */
  function AllPlayers(s: State): seq<Player> {
    s.queue + MatchPlayers(s.matches)
  }

  function MatchIds(matches: seq<ActiveMatch>): (r: seq<MatchId>)
    ensures |r| == |matches|
    ensures forall i | 0 <= i < |matches| :: r[i] == matches[i].id
  {
    if |matches| == 0 then [] else [matches[0].id] + MatchIds(matches[1..])
  }

  /** Give the `i`-th new match the id `firstId + i` and the time `now`. */
  function Stamp(matches: seq<Match>, firstId: MatchId, now: int): (r: seq<ActiveMatch>)
    ensures |r| == |matches|
    ensures forall i | 0 <= i < |matches| ::
      r[i].id == firstId + i && Pairing(r[i]) == matches[i] && r[i].createdAt == now
  {
    if |matches| == 0 then []
    else [ActiveMatch(firstId, matches[0].team1, matches[0].team2, now)] + Stamp(matches[1..], firstId + 1, now)
  }

  /** The result of `runMatchingOn`, with the match counter after it. */
  datatype Matching = Matching(matches: seq<ActiveMatch>, remainingQueue: seq<Player>, nextMatchId: MatchId)

  /** `runMatchingOn(queue)`: make every match possible and number them from the counter. */
  function RunMatchingOn(queue: seq<Player>, nextMatchId: MatchId, env: Env): (r: Matching)
    ensures r.nextMatchId == nextMatchId + |r.matches|
    ensures forall i | 0 <= i < |r.matches| :: r.matches[i].id == nextMatchId + i
    ensures forall m | m in r.matches :: Balanced(Pairing(m))
    ensures !CanMatchBalanced(r.remainingQueue)
    ensures |r.matches| > 0 <==> CanMatchBalanced(queue)
    ensures forall p | p in r.remainingQueue :: p in queue
    ensures |r.matches| == 0 ==> r.remainingQueue == queue
  {
    var round := CreateMatchesFromQueue(queue, env.rng);
    var stamped := Stamp(round.matches, nextMatchId, env.now);
    StampBalanced(round.matches, nextMatchId, env.now);
    Matching(stamped, round.remainingQueue, nextMatchId + |round.matches|)
  }

  lemma StampBalanced(matches: seq<Match>, firstId: MatchId, now: int)
    requires forall m | m in matches :: Balanced(m)
    ensures forall a | a in Stamp(matches, firstId, now) :: Balanced(Pairing(a))
  {
    var stamped := Stamp(matches, firstId, now);
    forall a | a in stamped ensures Balanced(Pairing(a)) {
      var i :| 0 <= i < |stamped| && stamped[i] == a;
      assert Pairing(a) == matches[i];
    }
  }

  /** `state.matches.find((m) => m.id === matchId)`. */
  function FindMatch(matches: seq<ActiveMatch>, matchId: MatchId): (r: Option<ActiveMatch>)
    ensures r.Some? ==> r.value in matches && r.value.id == matchId
    ensures r.None? <==> forall m | m in matches :: m.id != matchId
    ensures r.Some? ==> exists i | 0 <= i < |matches| ::
      matches[i] == r.value && forall j | 0 <= j < i :: matches[j].id != matchId
  {
    if |matches| == 0 then None
    else if matches[0].id == matchId then Some(matches[0])
    else
      var r := FindMatch(matches[1..], matchId);
      if r.Some? then
        var i :| 0 <= i < |matches[1..]| && matches[1..][i] == r.value
          && forall j | 0 <= j < i :: matches[1..][j].id != matchId;
        assert matches[i + 1] == r.value;
        assert forall j | 0 <= j < i + 1 :: matches[j].id != matchId by {
          forall j | 0 <= j < i + 1
            ensures matches[j].id != matchId
          {
            if j > 0 {
              assert matches[j] == matches[1..][j - 1];
            }
          }
        }
        r
      else r
  }

  /** `matches.filter((m) => m.id !== matchId)` */
  function OtherMatches(matches: seq<ActiveMatch>, matchId: MatchId): seq<ActiveMatch> {
    Filter((m: ActiveMatch) => m.id != matchId, matches)
  }

  /** `queue.filter((p) => p.id !== id)` */
  function OtherPlayers(queue: seq<Player>, id: PlayerId): seq<Player> {
    Filter((p: Player) => p.id != id, queue)
  }

  /** The record ADD_PLAYER creates, with the gender it is given. */
  function NewPlayer(s: State, name: string, category: Option<Category>, gender: Option<Gender>, env: Env): Player {
    Player(s.nextId, name, category, gender, None, env.now)
  }

  /**
   * The shared tail of ADD_PLAYER and COMPLETE_MATCH: run the matcher on `queue`,
   * keep `kept` and append the new matches.
   */
  function Rematch(queue: seq<Player>, kept: seq<ActiveMatch>, nextId: nat, nextMatchId: MatchId, env: Env): State {
    var run := RunMatchingOn(queue, nextMatchId, env);
    State(run.remainingQueue, kept + run.matches, nextId, run.nextMatchId)
  }

  /** `reducer(state, action)`, with the new player's gender taken from the action. */
  function Reduce(s: State, a: Action, env: Env): State {
    match a
    case AddPlayer(name, category, gender) =>
      Rematch(s.queue + [NewPlayer(s, name, category, gender, env)], s.matches, s.nextId + 1, s.nextMatchId, env)
    case RemovePlayer(id) =>
      s.(queue := OtherPlayers(s.queue, id))
    case CompleteMatch(matchId) =>
      var found := FindMatch(s.matches, matchId);
      if found.None? then s
      else Rematch(s.queue + Members(Pairing(found.value)), OtherMatches(s.matches, matchId), s.nextId, s.nextMatchId, env)
    case Unrecognised => s
  }

  /**
   * The reducer as written: ADD_PLAYER builds `{ id, name, category, addedAt }`,
   * so the new player never has a gender.
   */
  function ReduceAsWritten(s: State, a: Action, env: Env): State {
    match a
    case AddPlayer(name, category, _) => Reduce(s, AddPlayer(name, category, None), env)
    case _ => Reduce(s, a, env)
  }

  // ---------------------------------------------------------------------------
  // Bookkeeping facts about the helpers
  // ---------------------------------------------------------------------------

  lemma {:induction false} MatchPlayersConcat(a: seq<ActiveMatch>, b: seq<ActiveMatch>)
    ensures MatchPlayers(a + b) == MatchPlayers(a) + MatchPlayers(b)
  {
    if |a| == 0 {
      assert a + b == b;
    } else {
      assert (a + b)[1..] == a[1..] + b;
      MatchPlayersConcat(a[1..], b);
    }
  }

  /** Numbering matches does not change who plays in them. */
  lemma {:induction false} StampMembers(matches: seq<Match>, firstId: MatchId, now: int)
    ensures MatchPlayers(Stamp(matches, firstId, now)) == AllMembers(matches)
  {
    if |matches| > 0 {
      var st := Stamp(matches, firstId, now);
      assert st[1..] == Stamp(matches[1..], firstId + 1, now);
      assert Pairing(st[0]) == matches[0];
      StampMembers(matches[1..], firstId + 1, now);
    }
  }

  /**
   * With unique ids, `runMatchingOn` splits its queue into the players of the
   * new matches and the queue it hands back, four players per match.
   */
  lemma RunMatchingConserves(queue: seq<Player>, nextMatchId: MatchId, env: Env)
    requires UniqueIds(queue)
    ensures var r := RunMatchingOn(queue, nextMatchId, env);
      && multiset(queue) == multiset(MatchPlayers(r.matches)) + multiset(r.remainingQueue)
      && |queue| == 4 * |r.matches| + |r.remainingQueue|
  {
    var round := CreateMatchesFromQueue(queue, env.rng);
    CreateMatchesConserves(queue, env.rng);
    StampMembers(round.matches, nextMatchId, env.now);
  }

  /** Each match id names exactly one match, listed once. */
  ghost predicate UniqueMatchIds(ms: seq<ActiveMatch>) {
    && (forall a | a in ms :: multiset(ms)[a] == 1)
    && (forall a, b | a in ms && b in ms && a.id == b.id :: a == b)
  }

  lemma UniqueMatchIdsSub(a: seq<ActiveMatch>, b: seq<ActiveMatch>)
    requires UniqueMatchIds(a)
    requires multiset(b) <= multiset(a)
    ensures UniqueMatchIds(b)
  {
    forall x | x in b
      ensures multiset(b)[x] == 1
    {
      assert x in multiset(b);
      assert x in multiset(a);
    }
    forall x, y | x in b && y in b && x.id == y.id
      ensures x == y
    {
      assert x in multiset(b) && y in multiset(b);
      assert x in multiset(a) && y in multiset(a);
    }
  }

  /** Appending matches numbered upwards from a bound above every old id keeps ids unique. */
  lemma UniqueMatchIdsAppend(a: seq<ActiveMatch>, b: seq<ActiveMatch>, bound: MatchId)
    requires UniqueMatchIds(a)
    requires forall m | m in a :: m.id < bound
    requires forall i | 0 <= i < |b| :: b[i].id == bound + i
    ensures UniqueMatchIds(a + b)
  {
    assert Distinct(b) by {
      forall i, j | 0 <= i < j < |b|
        ensures b[i] != b[j]
      {
        assert b[i].id != b[j].id;
      }
    }
    DistinctCountOne(b);
    assert forall i | 0 <= i < |b| :: b[i].id >= bound;
    forall x | x in a + b
      ensures multiset(a + b)[x] == 1
    {
      if x in a {
        assert x !in b;
      } else {
        assert x !in a;
      }
    }
    forall x, y | x in a + b && y in a + b && x.id == y.id
      ensures x == y
    {
      if x in b && y in b {
        var i :| 0 <= i < |b| && b[i] == x;
        var j :| 0 <= j < |b| && b[j] == y;
      }
    }
  }

  /** Every entry of a list of matches has all its players in `MatchPlayers`. */
  lemma {:induction false} MatchPlayersContains(ms: seq<ActiveMatch>, m: ActiveMatch)
    requires m in ms
    ensures multiset(Members(Pairing(m))) <= multiset(MatchPlayers(ms))
  {
    if ms[0] != m {
      MatchPlayersContains(ms[1..], m);
    }
  }

  /**
   * Taking the match with id `m.id` out of a list with unique match ids takes
   * exactly its four players out of `MatchPlayers`.
   */
  lemma {:induction false} MatchPlayersRemove(ms: seq<ActiveMatch>, m: ActiveMatch)
    requires UniqueMatchIds(ms)
    requires m in ms
    ensures multiset(MatchPlayers(ms)) ==
      multiset(MatchPlayers(OtherMatches(ms, m.id))) + multiset(Members(Pairing(m)))
  {
    var f := (x: ActiveMatch) => x.id != m.id;
    assert ms == [ms[0]] + ms[1..];
    UniqueMatchIdsSub(ms, ms[1..]);
    if ms[0] == m {
      assert m !in ms[1..] by {
        assert multiset(ms) == multiset{m} + multiset(ms[1..]);
      }
      FilterKeepsAll(f, ms[1..]);
      assert OtherMatches(ms, m.id) == ms[1..];
    } else {
      MatchPlayersRemove(ms[1..], m);
      assert OtherMatches(ms, m.id) == [ms[0]] + OtherMatches(ms[1..], m.id);
      assert OtherMatches(ms, m.id)[1..] == OtherMatches(ms[1..], m.id);
    }
  }

  /** Appending a player whose id nobody has keeps ids unique. */
  lemma UniqueIdsAppendFresh(s: seq<Player>, p: Player)
    requires UniqueIds(s)
    requires forall q | q in s :: q.id != p.id
    ensures UniqueIds(s + [p])
  {
    assert p !in s;
    assert multiset(s + [p]) == multiset(s) + multiset{p};
  }

  // ---------------------------------------------------------------------------
  // The reducer's invariant
  // ---------------------------------------------------------------------------

  /**
   * What every reachable state satisfies: each player record is held once
   * (in the queue or in one match), ids are unique and below the counter,
   * match ids are unique and below their counter, and every match is balanced.
   */
  ghost predicate Inv(s: State) {
    && UniqueIds(AllPlayers(s))
    && (forall p | p in AllPlayers(s) :: p.id < s.nextId)
    && UniqueMatchIds(s.matches)
    && (forall m | m in s.matches :: m.id < s.nextMatchId)
    && (forall m | m in s.matches :: Balanced(Pairing(m)))
  }

  lemma InitInv()
    ensures Inv(Init)
  {
    assert AllPlayers(Init) == [];
  }

  // ---------------------------------------------------------------------------
  // The actions one by one
  // ---------------------------------------------------------------------------

  /** An unknown action, or COMPLETE_MATCH for an id no match has, returns the state as it was. */
  lemma UnknownOrMissingUnchanged(s: State, a: Action, env: Env)
    requires a.Unrecognised? || (a.CompleteMatch? && forall m | m in s.matches :: m.id != a.matchId)
    ensures Reduce(s, a, env) == s
    ensures ReduceAsWritten(s, a, env) == s
  {
  }

  /** What ADD_PLAYER computes: re-match the queue with the new player appended. */
  lemma AddShape(s: State, name: string, category: Option<Category>, gender: Option<Gender>, env: Env)
    ensures Reduce(s, AddPlayer(name, category, gender), env) ==
      Rematch(s.queue + [NewPlayer(s, name, category, gender, env)], s.matches, s.nextId + 1, s.nextMatchId, env)
  {
  }

  /**
   * ADD_PLAYER: the old queue plus the new player is exactly the new queue plus
   * the players of the newly made matches; old matches stay first, in order, and
   * the new ones are numbered upwards from the counter.
   */
  lemma AddPlayerConserves(s: State, name: string, category: Option<Category>, gender: Option<Gender>, env: Env)
    requires Inv(s)
    ensures var np := NewPlayer(s, name, category, gender, env);
      var t := Reduce(s, AddPlayer(name, category, gender), env);
      && |t.matches| >= |s.matches|
      && t.matches[..|s.matches|] == s.matches
      && multiset(s.queue + [np]) == multiset(t.queue) + multiset(MatchPlayers(t.matches[|s.matches|..]))
      && t.nextId == s.nextId + 1
      && t.nextMatchId == s.nextMatchId + (|t.matches| - |s.matches|)
      && (forall i | |s.matches| <= i < |t.matches| :: t.matches[i].id == s.nextMatchId + (i - |s.matches|))
  {
    var np := NewPlayer(s, name, category, gender, env);
    var q := s.queue + [np];
    var run := RunMatchingOn(q, s.nextMatchId, env);
    AddShape(s, name, category, gender, env);
    FreshQueue(s, np);
    RunMatchingConserves(q, s.nextMatchId, env);
    RematchShape(s.matches, q, run, Reduce(s, AddPlayer(name, category, gender), env), s.nextMatchId);
  }

  /**
   * After ADD_PLAYER the queue admits no balanced match, and a match was made
   * exactly when the queue with the new player admitted one.
   */
  lemma AddPlayerRematches(s: State, name: string, category: Option<Category>, gender: Option<Gender>, env: Env)
    ensures var np := NewPlayer(s, name, category, gender, env);
      var t := Reduce(s, AddPlayer(name, category, gender), env);
      && !CanMatchBalanced(t.queue)
      && (|t.matches| > |s.matches| <==> CanMatchBalanced(s.queue + [np]))
  {
    AddShape(s, name, category, gender, env);
  }

  /**
   * The state built from a re-match keeps the matches it was given in front and
   * appends the new ones, numbered from `first`, whose players together with the
   * new queue are the queue that was re-matched.
   */
  lemma RematchShape(base: seq<ActiveMatch>, q: seq<Player>, run: Matching, t: State, first: MatchId)
    requires t.queue == run.remainingQueue && t.matches == base + run.matches && t.nextMatchId == run.nextMatchId
    requires multiset(q) == multiset(MatchPlayers(run.matches)) + multiset(run.remainingQueue)
    requires run.nextMatchId == first + |run.matches|
    requires forall i | 0 <= i < |run.matches| :: run.matches[i].id == first + i
    ensures |t.matches| >= |base| && t.matches[..|base|] == base
    ensures multiset(q) == multiset(t.queue) + multiset(MatchPlayers(t.matches[|base|..]))
    ensures t.nextMatchId == first + (|t.matches| - |base|)
    ensures forall i | |base| <= i < |t.matches| :: t.matches[i].id == first + (i - |base|)
  {
    AppendedSlices(base, run.matches);
  }

  lemma AppendedSlices(a: seq<ActiveMatch>, b: seq<ActiveMatch>)
    ensures (a + b)[..|a|] == a && (a + b)[|a|..] == b
  {
  }

  /** The queue with a fresh player appended still has unique ids. */
  lemma FreshQueue(s: State, np: Player)
    requires Inv(s)
    requires np.id == s.nextId
    ensures UniqueIds(AllPlayers(s) + [np])
    ensures UniqueIds(s.queue + [np])
    ensures multiset(AllPlayers(s) + [np]) == multiset(s.queue + [np]) + multiset(MatchPlayers(s.matches))
    ensures forall p | p in AllPlayers(s) + [np] :: p.id < s.nextId + 1
  {
    UniqueIdsAppendFresh(AllPlayers(s), np);
    assert multiset(s.queue + [np]) <= multiset(AllPlayers(s) + [np]);
    UniqueIdsSub(AllPlayers(s) + [np], s.queue + [np]);
  }

  lemma AddPlayerInv(s: State, name: string, category: Option<Category>, gender: Option<Gender>, env: Env)
    requires Inv(s)
    ensures var t := Reduce(s, AddPlayer(name, category, gender), env);
      && multiset(AllPlayers(t)) == multiset(AllPlayers(s)) + multiset{NewPlayer(s, name, category, gender, env)}
      && Inv(t)
  {
    var np := NewPlayer(s, name, category, gender, env);
    var q := s.queue + [np];
    var run := RunMatchingOn(q, s.nextMatchId, env);
    var t := Reduce(s, AddPlayer(name, category, gender), env);
    AddShape(s, name, category, gender, env);
    FreshQueue(s, np);
    RunMatchingConserves(q, s.nextMatchId, env);
    RematchInv(s, AllPlayers(s) + [np], q, s.matches, run, t);
  }

  /**
   * The shared step of ADD_PLAYER and COMPLETE_MATCH: from a pool of uniquely
   * numbered players split into a queue to re-match and the matches `kept`, the
   * state built from `runMatchingOn`'s result holds the same players and keeps
   * the invariant.
   */
  lemma RematchInv(s: State, pool: seq<Player>, q: seq<Player>, kept: seq<ActiveMatch>, run: Matching, t: State)
    requires Inv(s)
    requires UniqueIds(pool)
    requires t == State(run.remainingQueue, kept + run.matches, t.nextId, run.nextMatchId)
    requires forall p | p in pool :: p.id < t.nextId
    requires multiset(pool) == multiset(q) + multiset(MatchPlayers(kept))
    requires multiset(q) == multiset(MatchPlayers(run.matches)) + multiset(run.remainingQueue)
    requires multiset(kept) <= multiset(s.matches)
    requires run.nextMatchId == s.nextMatchId + |run.matches|
    requires forall i | 0 <= i < |run.matches| :: run.matches[i].id == s.nextMatchId + i
    requires forall m | m in run.matches :: Balanced(Pairing(m))
    ensures multiset(AllPlayers(t)) == multiset(pool)
    ensures Inv(t)
  {
    RematchPlayers(pool, q, kept, run, t);
    RematchMatches(s, kept, run);
  }

  lemma RematchPlayers(pool: seq<Player>, q: seq<Player>, kept: seq<ActiveMatch>, run: Matching, t: State)
    requires UniqueIds(pool)
    requires t.queue == run.remainingQueue && t.matches == kept + run.matches
    requires forall p | p in pool :: p.id < t.nextId
    requires multiset(pool) == multiset(q) + multiset(MatchPlayers(kept))
    requires multiset(q) == multiset(MatchPlayers(run.matches)) + multiset(run.remainingQueue)
    ensures multiset(AllPlayers(t)) == multiset(pool)
    ensures UniqueIds(AllPlayers(t))
    ensures forall p | p in AllPlayers(t) :: p.id < t.nextId
  {
    MatchPlayersConcat(kept, run.matches);
    assert multiset(AllPlayers(t)) == multiset(pool);
    UniqueIdsSub(pool, AllPlayers(t));
    forall p | p in AllPlayers(t)
      ensures p.id < t.nextId
    {
      assert p in multiset(AllPlayers(t));
      assert p in multiset(pool);
    }
  }

  lemma RematchMatches(s: State, kept: seq<ActiveMatch>, run: Matching)
    requires Inv(s)
    requires multiset(kept) <= multiset(s.matches)
    requires run.nextMatchId == s.nextMatchId + |run.matches|
    requires forall i | 0 <= i < |run.matches| :: run.matches[i].id == s.nextMatchId + i
    requires forall m | m in run.matches :: Balanced(Pairing(m))
    ensures UniqueMatchIds(kept + run.matches)
    ensures forall m | m in kept + run.matches :: m.id < run.nextMatchId && Balanced(Pairing(m))
  {
    UniqueMatchIdsSub(s.matches, kept);
    forall m | m in kept
      ensures m.id < s.nextMatchId && Balanced(Pairing(m))
    {
      assert m in multiset(kept);
      assert m in multiset(s.matches);
    }
    UniqueMatchIdsAppend(kept, run.matches, s.nextMatchId);
  }

  /**
   * REMOVE_PLAYER: the queue loses exactly its entries with that id and keeps the
   * others in order; matches and counters are untouched, so nothing is re-matched.
   */
  lemma RemovePlayerEffect(s: State, id: PlayerId, env: Env)
    ensures var t := Reduce(s, RemovePlayer(id), env);
      && t.matches == s.matches && t.nextId == s.nextId && t.nextMatchId == s.nextMatchId
      && multiset(s.queue) == multiset(t.queue) + multiset(Filter((p: Player) => p.id == id, s.queue))
      && (forall p | p in s.queue :: p in t.queue <==> p.id != id)
      && IsSubsequence(t.queue, s.queue)
  {
    FilterPartition((p: Player) => p.id != id, (p: Player) => p.id == id, s.queue);
  }

  lemma RemovePlayerInv(s: State, id: PlayerId, env: Env)
    requires Inv(s)
    ensures var t := Reduce(s, RemovePlayer(id), env);
      && multiset(AllPlayers(t)) <= multiset(AllPlayers(s))
      && Inv(t)
  {
    var t := Reduce(s, RemovePlayer(id), env);
    FilterSubMultiset((p: Player) => p.id != id, s.queue);
    assert multiset(AllPlayers(t)) <= multiset(AllPlayers(s));
    UniqueIdsSub(AllPlayers(s), AllPlayers(t));
    forall p | p in AllPlayers(t)
      ensures p.id < t.nextId
    {
      assert p in multiset(AllPlayers(t));
    }
  }

  /** What COMPLETE_MATCH computes for a match that exists. */
  lemma CompleteShape(s: State, matchId: MatchId, env: Env)
    requires FindMatch(s.matches, matchId).Some?
    ensures Reduce(s, CompleteMatch(matchId), env) ==
      Rematch(s.queue + Members(Pairing(FindMatch(s.matches, matchId).value)),
        OtherMatches(s.matches, matchId), s.nextId, s.nextMatchId, env)
  {
  }

  /**
   * COMPLETE_MATCH for a match that exists: every other match stays, in order, in
   * front; the finished match's four players join the queue before re-matching,
   * and they and the old queue are exactly the new queue plus the new matches'
   * players.
   */
  lemma CompleteMatchConserves(s: State, matchId: MatchId, env: Env)
    requires Inv(s)
    requires FindMatch(s.matches, matchId).Some?
    ensures var m := FindMatch(s.matches, matchId).value;
      var t := Reduce(s, CompleteMatch(matchId), env);
      var k := |OtherMatches(s.matches, matchId)|;
      && k + 1 == |s.matches|
      && |t.matches| >= k
      && t.matches[..k] == OtherMatches(s.matches, matchId)
      && multiset(s.queue + Members(Pairing(m))) == multiset(t.queue) + multiset(MatchPlayers(t.matches[k..]))
      && t.nextId == s.nextId
      && (forall i | k <= i < |t.matches| :: t.matches[i].id == s.nextMatchId + (i - k))
  {
    var m := FindMatch(s.matches, matchId).value;
    var other := OtherMatches(s.matches, matchId);
    var q := s.queue + Members(Pairing(m));
    var run := RunMatchingOn(q, s.nextMatchId, env);
    CompleteShape(s, matchId, env);
    OtherMatchesCount(s.matches, m);
    CompleteQueueUnique(s, m);
    RunMatchingConserves(q, s.nextMatchId, env);
    RematchShape(other, q, run, Reduce(s, CompleteMatch(matchId), env), s.nextMatchId);
  }

  /**
   * The matches COMPLETE_MATCH keeps are exactly the old ones with another id,
   * and the queue it leaves admits no balanced match.
   */
  lemma CompleteMatchKeepsOthers(s: State, matchId: MatchId, env: Env)
    requires FindMatch(s.matches, matchId).Some?
    ensures var t := Reduce(s, CompleteMatch(matchId), env);
      var k := |OtherMatches(s.matches, matchId)|;
      && |t.matches| >= k
      && (forall o | o in t.matches[..k] :: o in s.matches && o.id != matchId)
      && (forall o | o in s.matches && o.id != matchId :: o in t.matches[..k])
      && !CanMatchBalanced(t.queue)
  {
    var m := FindMatch(s.matches, matchId).value;
    var run := RunMatchingOn(s.queue + Members(Pairing(m)), s.nextMatchId, env);
    CompleteShape(s, matchId, env);
    AppendedSlices(OtherMatches(s.matches, matchId), run.matches);
  }

  /** Only the match with that id is dropped: the filter is one shorter. */
  lemma OtherMatchesCount(ms: seq<ActiveMatch>, m: ActiveMatch)
    requires UniqueMatchIds(ms)
    requires m in ms
    ensures |OtherMatches(ms, m.id)| + 1 == |ms|
  {
    var f := (x: ActiveMatch) => x.id != m.id;
    var h := (x: ActiveMatch) => x.id == m.id;
    FilterPartition(f, h, ms);
    FilterKeepsOne(h, ms, m);
  }

  /** With unique ids, the entries that share `m`'s id are `m` alone. */
  lemma {:induction false} FilterKeepsOne(h: ActiveMatch -> bool, ms: seq<ActiveMatch>, m: ActiveMatch)
    requires UniqueMatchIds(ms)
    requires m in ms
    requires forall x :: h(x) <==> x.id == m.id
    ensures multiset(Filter(h, ms)) == multiset{m}
  {
    forall x
      ensures multiset(Filter(h, ms))[x] == multiset{m}[x]
    {
      MultisetFilterAt(h, ms, x);
      if x == m {
        assert multiset(ms)[x] == 1;
      } else if h(x) && x in ms {
        assert false;
      }
    }
  }

  /** The queue a completed match's players rejoin still has unique ids. */
  lemma CompleteQueueUnique(s: State, m: ActiveMatch)
    requires Inv(s)
    requires m in s.matches
    ensures UniqueIds(s.queue + Members(Pairing(m)))
    ensures multiset(AllPlayers(s)) ==
      multiset(s.queue + Members(Pairing(m))) + multiset(MatchPlayers(OtherMatches(s.matches, m.id)))
  {
    MatchPlayersRemove(s.matches, m);
    UniqueIdsSub(AllPlayers(s), s.queue + Members(Pairing(m)));
  }

  lemma CompleteMatchInv(s: State, matchId: MatchId, env: Env)
    requires Inv(s)
    ensures var t := Reduce(s, CompleteMatch(matchId), env);
      && multiset(AllPlayers(t)) == multiset(AllPlayers(s))
      && Inv(t)
  {
    var found := FindMatch(s.matches, matchId);
    if found.Some? {
      var m := found.value;
      var other := OtherMatches(s.matches, matchId);
      var q := s.queue + Members(Pairing(m));
      var run := RunMatchingOn(q, s.nextMatchId, env);
      var t := Reduce(s, CompleteMatch(matchId), env);
      CompleteShape(s, matchId, env);
      CompleteQueueUnique(s, m);
      RunMatchingConserves(q, s.nextMatchId, env);
      FilterSubMultiset((x: ActiveMatch) => x.id != matchId, s.matches);
      RematchInv(s, AllPlayers(s), q, other, run, t);
    }
  }

  // ---------------------------------------------------------------------------
  // Every action
  // ---------------------------------------------------------------------------

  /** Every action, through either reducer, keeps the invariant. */
  lemma ReducePreservesInv(s: State, a: Action, env: Env)
    requires Inv(s)
    ensures Inv(Reduce(s, a, env))
    ensures Inv(ReduceAsWritten(s, a, env))
  {
    match a
    case AddPlayer(name, category, gender) =>
      AddPlayerInv(s, name, category, gender, env);
      AddPlayerInv(s, name, category, None, env);
    case RemovePlayer(id) =>
      RemovePlayerInv(s, id, env);
    case CompleteMatch(matchId) =>
      CompleteMatchInv(s, matchId, env);
    case Unrecognised =>
  }

  /**
   * The reducer never edits a player record: everyone in the new state was in
   * the old one, or is the player ADD_PLAYER just created.
   */
  lemma PlayersNeverModified(s: State, a: Action, env: Env)
    requires Inv(s)
    ensures forall p | p in AllPlayers(Reduce(s, a, env)) ::
      p in AllPlayers(s) || (a.AddPlayer? && p == NewPlayer(s, a.name, a.category, a.gender, env))
  {
    var t := Reduce(s, a, env);
    match a {
      case AddPlayer(name, category, gender) =>
        AddPlayerInv(s, name, category, gender, env);
      case RemovePlayer(id) =>
        RemovePlayerInv(s, id, env);
      case CompleteMatch(matchId) =>
        CompleteMatchInv(s, matchId, env);
      case Unrecognised =>
    }
    forall p | p in AllPlayers(t)
      ensures p in AllPlayers(s) || (a.AddPlayer? && p == NewPlayer(s, a.name, a.category, a.gender, env))
    {
      assert p in multiset(AllPlayers(t));
    }
  }

  /**
   * The membership invariant in the app's terms: no player id is both queued
   * and on court, and two different matches never share a player id.
   */
  lemma InvDisjoint(s: State)
    requires Inv(s)
    ensures forall p, q | p in s.queue && q in MatchPlayers(s.matches) :: p.id != q.id
    ensures forall i, j, p, q | 0 <= i < j < |s.matches| &&
      p in Members(Pairing(s.matches[i])) && q in Members(Pairing(s.matches[j])) :: p.id != q.id
  {
    var all := AllPlayers(s);
    assert multiset(all) == multiset(s.queue) + multiset(MatchPlayers(s.matches));
    forall p, q | p in s.queue && q in MatchPlayers(s.matches)
      ensures p.id != q.id
    {
      assert p in all && multiset(all)[p] == 1;
      assert multiset(s.queue)[p] >= 1;
      assert p !in MatchPlayers(s.matches);
    }
    forall i, j, p, q | 0 <= i < j < |s.matches| &&
      p in Members(Pairing(s.matches[i])) && q in Members(Pairing(s.matches[j]))
      ensures p.id != q.id
    {
      TwoMatchesCount(s.matches, i, j, p, q);
      assert p in all && q in all;
      assert multiset(all)[p] == 1;
      assert multiset(MatchPlayers(s.matches))[p] <= 1;
      assert p != q;
    }
  }

  /** A player of the `i`-th match and one of the `j`-th are two entries of `MatchPlayers`. */
  lemma TwoMatchesCount(ms: seq<ActiveMatch>, i: nat, j: nat, p: Player, q: Player)
    requires i < j < |ms|
    requires p in Members(Pairing(ms[i])) && q in Members(Pairing(ms[j]))
    ensures p in MatchPlayers(ms) && q in MatchPlayers(ms)
    ensures p == q ==> multiset(MatchPlayers(ms))[p] >= 2
  {
    assert ms == ms[..j] + ms[j..];
    MatchPlayersConcat(ms[..j], ms[j..]);
    assert ms[i] in ms[..j];
    assert ms[j] in ms[j..];
    MatchPlayersContains(ms[..j], ms[i]);
    MatchPlayersContains(ms[j..], ms[j]);
    assert p in multiset(Members(Pairing(ms[i])));
    assert q in multiset(Members(Pairing(ms[j])));
  }

  /** One dispatch of a `(action, env)` pair. */
  datatype Step = Step(action: Action, env: Env)

  /** The state after dispatching `steps` in order. */
  function Run(s: State, steps: seq<Step>): State
    decreases |steps|
  {
    if |steps| == 0 then s else Run(Reduce(s, steps[0].action, steps[0].env), steps[1..])
  }

  function RunAsWritten(s: State, steps: seq<Step>): State
    decreases |steps|
  {
    if |steps| == 0 then s else RunAsWritten(ReduceAsWritten(s, steps[0].action, steps[0].env), steps[1..])
  }

  /** Every state reachable from the initial one satisfies the invariant. */
  lemma {:induction false} RunPreservesInv(s: State, steps: seq<Step>)
    requires Inv(s)
    ensures Inv(Run(s, steps))
    ensures Inv(RunAsWritten(s, steps))
    decreases |steps|
  {
    if |steps| > 0 {
      ReducePreservesInv(s, steps[0].action, steps[0].env);
      RunPreservesInv(Reduce(s, steps[0].action, steps[0].env), steps[1..]);
      RunPreservesInv(ReduceAsWritten(s, steps[0].action, steps[0].env), steps[1..]);
    }
  }

  lemma ReachableInv(steps: seq<Step>)
    ensures Inv(Run(Init, steps))
    ensures Inv(RunAsWritten(Init, steps))
  {
    InitInv();
    RunPreservesInv(Init, steps);
  }

  // ---------------------------------------------------------------------------
  // The gender ADD_PLAYER drops
  // ---------------------------------------------------------------------------

  predicate Genderless(q: seq<Player>) {
    forall p | p in q :: p.gender.None?
  }

  /** A player without a gender is in no bucket, so a genderless queue fits no pattern at all. */
  lemma GenderlessNoMatch(q: seq<Player>)
    requires Genderless(q)
    ensures !CanMatchBalanced(q) && !CanMatchFallback(q)
  {
    forall b: Bucket
      ensures BucketOf(q, b) == []
    {
      FilterNone(p => InBucket(p, b), q);
    }
  }

  /**
   * As written, a state with no matches and a genderless queue stays so under
   * every action: ADD_PLAYER appends another genderless player and the matcher
   * finds nothing.
   */
  lemma AsWrittenStep(s: State, a: Action, env: Env)
    requires s.matches == [] && Genderless(s.queue)
    ensures ReduceAsWritten(s, a, env).matches == []
    ensures Genderless(ReduceAsWritten(s, a, env).queue)
  {
    match a {
      case AddPlayer(name, category, _) =>
        var q := s.queue + [NewPlayer(s, name, category, None, env)];
        GenderlessNoMatch(q);
        AddShape(s, name, category, None, env);
      case RemovePlayer(id) =>
      case CompleteMatch(matchId) =>
      case Unrecognised =>
    }
  }

  lemma {:induction false} AsWrittenStaysEmpty(s: State, steps: seq<Step>)
    requires s.matches == [] && Genderless(s.queue)
    ensures RunAsWritten(s, steps).matches == []
    decreases |steps|
  {
    if |steps| > 0 {
      AsWrittenStep(s, steps[0].action, steps[0].env);
      AsWrittenStaysEmpty(ReduceAsWritten(s, steps[0].action, steps[0].env), steps[1..]);
    }
  }

  /** As written, no sequence of actions from the initial state ever puts a match on court. */
  lemma AsWrittenNeverMatches(steps: seq<Step>)
    ensures RunAsWritten(Init, steps).matches == []
  {
    AsWrittenStaysEmpty(Init, steps);
  }

  predicate OnlyMaleBeginners(q: seq<Player>) {
    forall p | p in q :: InBucket(p, MaleBeginners)
  }

  /** A queue of male beginners admits a balanced match exactly when it has four players. */
  lemma MaleBeginnersMatch(q: seq<Player>)
    requires OnlyMaleBeginners(q)
    ensures CanMatchBalanced(q) <==> |q| >= 4
  {
    MaleBeginnersBuckets(q);
    if |q| >= 4 {
      assert Applicable(MaleBeginnersFour, q);
      assert MaleBeginnersFour in BalancedKinds;
    } else {
      forall k | k in BalancedKinds
        ensures !Applicable(k, q)
      {
        var p := PatternOf(k);
        if k == MaleBeginnersFour {
          assert !Fits(q, p.d);
        } else {
          assert p.a.bucket != MaleBeginners || p.b.bucket != MaleBeginners
            || p.c.bucket != MaleBeginners || p.d.bucket != MaleBeginners;
        }
      }
    }
  }

  /** Every male beginner is in the male-beginner bucket and in no other. */
  lemma MaleBeginnersBuckets(q: seq<Player>)
    requires OnlyMaleBeginners(q)
    ensures forall sl: Slot :: Fits(q, sl) <==> sl.bucket == MaleBeginners && sl.index < |q|
  {
    FilterKeepsAll(p => InBucket(p, MaleBeginners), q);
    FilterNone(p => InBucket(p, MaleIntermediates), q);
    FilterNone(p => InBucket(p, FemaleBeginners), q);
    FilterNone(p => InBucket(p, FemaleIntermediates), q);
  }

  /** With the gender kept, adding a male beginner to fewer than three queues them all. */
  lemma CorrectedStep(s: State, name: string, env: Env)
    requires s.matches == [] && OnlyMaleBeginners(s.queue)
    ensures var t := Reduce(s, AddPlayer(name, Some(Beginners), Some(Male)), env);
      && OnlyMaleBeginners(s.queue + [NewPlayer(s, name, Some(Beginners), Some(Male), env)])
      && (|s.queue| < 3 ==> t.matches == [] && t.queue == s.queue + [NewPlayer(s, name, Some(Beginners), Some(Male), env)])
      && (|s.queue| == 3 ==> |t.matches| > 0)
  {
    var np := NewPlayer(s, name, Some(Beginners), Some(Male), env);
    var q := s.queue + [np];
    MaleBeginnersAppend(s.queue, np);
    var r := Rematch(q, [], s.nextId + 1, s.nextMatchId, env);
    MaleBeginnersRematch(q, s.nextId + 1, s.nextMatchId, env);
    assert |s.queue| < 3 ==> r.matches == [] && r.queue == q;
    assert |s.queue| == 3 ==> |r.matches| > 0;
    AddShape(s, name, Some(Beginners), Some(Male), env);
    assert Reduce(s, AddPlayer(name, Some(Beginners), Some(Male)), env) == r;
  }

  /** Re-matching a queue of male beginners from no matches makes a match exactly from four players on. */
  lemma MaleBeginnersRematch(q: seq<Player>, nextId: nat, nextMatchId: MatchId, env: Env)
    requires OnlyMaleBeginners(q)
    ensures var t := Rematch(q, [], nextId, nextMatchId, env);
      && (|q| < 4 ==> t.matches == [] && t.queue == q)
      && (|q| >= 4 ==> |t.matches| > 0)
  {
    MaleBeginnersMatch(q);
    RematchCount(q, [], nextId, nextMatchId, env);
  }

  lemma MaleBeginnersAppend(q: seq<Player>, p: Player)
    requires OnlyMaleBeginners(q) && InBucket(p, MaleBeginners)
    ensures OnlyMaleBeginners(q + [p]) && |q + [p]| == |q| + 1
  {
  }

  /** A re-match adds matches exactly when the queue admits one, and otherwise keeps the queue. */
  lemma RematchCount(q: seq<Player>, kept: seq<ActiveMatch>, nextId: nat, nextMatchId: MatchId, env: Env)
    ensures var t := Rematch(q, kept, nextId, nextMatchId, env);
      && (!CanMatchBalanced(q) ==> t.matches == kept && t.queue == q)
      && (CanMatchBalanced(q) ==> |t.matches| > |kept|)
  {
    var run := RunMatchingOn(q, nextMatchId, env);
    if !CanMatchBalanced(q) {
      assert run.matches == [];
      assert kept + run.matches == kept;
    }
  }

  /** Every step adds a male beginner. */
  predicate AddsMaleBeginners(steps: seq<Step>) {
    forall i | 0 <= i < |steps| ::
      steps[i].action.AddPlayer? && steps[i].action.category == Some(Beginners) && steps[i].action.gender == Some(Male)
  }

  /** ADD_PLAYER keeps every match already on court. */
  lemma AddKeepsMatches(s: State, name: string, category: Option<Category>, gender: Option<Gender>, env: Env)
    ensures |Reduce(s, AddPlayer(name, category, gender), env).matches| >= |s.matches|
  {
    AddShape(s, name, category, gender, env);
  }

  lemma {:induction false} CorrectedRun(s: State, steps: seq<Step>)
    requires AddsMaleBeginners(steps)
    requires |s.matches| > 0 || (s.matches == [] && OnlyMaleBeginners(s.queue) && |s.queue| < 4 <= |s.queue| + |steps|)
    ensures |Run(s, steps).matches| > 0
    decreases |steps|
  {
    if |steps| > 0 {
      var a := steps[0].action;
      var t := Reduce(s, a, steps[0].env);
      if |s.matches| > 0 {
        AddKeepsMatches(s, a.name, a.category, a.gender, steps[0].env);
      } else {
        CorrectedStep(s, a.name, steps[0].env);
      }
      assert AddsMaleBeginners(steps[1..]) by {
        forall i | 0 <= i < |steps[1..]|
          ensures steps[1..][i] == steps[i + 1]
        {
        }
      }
      CorrectedRun(t, steps[1..]);
    }
  }

  /**
   * With the gender kept, four or more male beginners added one after another
   * from the initial state make a match, while the reducer as written makes none.
   */
  lemma FourMaleBeginners(steps: seq<Step>)
    requires AddsMaleBeginners(steps) && |steps| >= 4
    ensures |Run(Init, steps).matches| > 0
    ensures RunAsWritten(Init, steps).matches == []
  {
    AsWrittenNeverMatches(steps);
    CorrectedRun(Init, steps);
  }
}
