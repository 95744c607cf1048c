/**
 * The loops and checks around `tryCreateMatch` in src/utils/queueMatcher.js:
 * `createMatchesFromQueue`, `getAvailableCourts` and `canCreateMatch`.
 */
module QueueRounds {
  import opened Wrappers
  import opened Seqs
  import opened Players
  import opened Shuffling
  import opened QueueMatcher

  /** Court ids are compared with `===` only; they are modelled as integers. */
  type CourtId = int

  /** A court `{ id, name }`. */
  datatype Court = Court(id: CourtId, name: string)

  /** The part of an on-court match these checks read: its id and its `courtId`. */
  datatype CourtMatch = CourtMatch(id: nat, courtId: CourtId)

  /** The result `{ matches, remainingQueue }`, with the random source after the last draw. */
  datatype Round = Round(matches: seq<Match>, remainingQueue: seq<Player>, rng: Rng)

  /** Every player of every match, in order. */
  function AllMembers(matches: seq<Match>): seq<Player> {
    if |matches| == 0 then [] else Members(matches[0]) + AllMembers(matches[1..])
  }

  /**
   * `createMatchesFromQueue`: call `tryCreateMatch` (default options) until it
   * returns `null`; the queue left is the one from the last successful call.
   */
  function CreateMatchesFromQueue(queue: seq<Player>, rng: Rng): (r: Round)
    ensures !CanMatchBalanced(r.remainingQueue)
    ensures forall m | m in r.matches :: Balanced(m)
    ensures |r.matches| > 0 <==> CanMatchBalanced(queue)
    ensures forall p | p in r.remainingQueue :: p in queue
    ensures |r.matches| == 0 ==> r.remainingQueue == queue
    decreases |queue|
  {
    var a := TryCreateMatch(queue, DefaultOptions, rng);
    if a.found.None? then Round([], queue, a.rng)
    else
      DefaultBalanced(queue, rng);
      var rest := CreateMatchesFromQueue(a.remainingQueue, a.rng);
      ConsBalanced(a.found.value, rest.matches);
      Round([a.found.value] + rest.matches, rest.remainingQueue, rest.rng)
  }

  /** Without the fallback option every match found is balanced. */
  lemma DefaultBalanced(queue: seq<Player>, rng: Rng)
    ensures TryCreateMatch(queue, DefaultOptions, rng).found.Some? ==>
      Balanced(TryCreateMatch(queue, DefaultOptions, rng).found.value)
  {
    TryCreateMatchLegal(queue, DefaultOptions, rng);
  }

  lemma ConsBalanced(m: Match, ms: seq<Match>)
    requires Balanced(m) && forall x | x in ms :: Balanced(x)
    ensures forall x | x in [m] + ms :: Balanced(x)
  {
  }

  lemma {:induction false} AllMembersConcat(a: seq<Match>, b: seq<Match>)
    ensures AllMembers(a + b) == AllMembers(a) + AllMembers(b)
  {
    if |a| == 0 {
      assert a + b == b;
    } else {
      assert (a + b)[1..] == a[1..] + b;
      AllMembersConcat(a[1..], b);
    }
  }

  /**
   * With unique ids, the players of the input are exactly the players of the
   * matches made plus the queue left over: four per match, none lost, none doubled.
   */
  ghost predicate Conserves(queue: seq<Player>, r: Round) {
    && multiset(queue) == multiset(AllMembers(r.matches)) + multiset(r.remainingQueue)
    && |queue| == 4 * |r.matches| + |r.remainingQueue|
    && UniqueIds(r.remainingQueue)
  }

  lemma {:induction false} CreateMatchesConserves(queue: seq<Player>, rng: Rng)
    requires UniqueIds(queue)
    ensures Conserves(queue, CreateMatchesFromQueue(queue, rng))
    decreases |queue|
  {
    var a := TryCreateMatch(queue, DefaultOptions, rng);
    if a.found.None? {
      assert AllMembers([]) == [];
    } else {
      TryCreateMatchConserves(queue, DefaultOptions, rng);
      CreateMatchesConserves(a.remainingQueue, a.rng);
      ConservesStep(queue, a.found.value, a.remainingQueue, CreateMatchesFromQueue(a.remainingQueue, a.rng));
    }
  }

  /** One round followed by the rest conserves players if each does. */
  lemma ConservesStep(queue: seq<Player>, m: Match, remaining: seq<Player>, rest: Round)
    requires multiset(queue) == multiset(Members(m)) + multiset(remaining)
    requires |remaining| + 4 == |queue|
    requires Conserves(remaining, rest)
    ensures Conserves(queue, Round([m] + rest.matches, rest.remainingQueue, rest.rng))
  {
    var ms := [m] + rest.matches;
    assert ms[1..] == rest.matches;
    assert AllMembers(ms) == Members(m) + AllMembers(rest.matches);
  }

  /** The court ids `matches` occupy. */
  function UsedCourts(matches: seq<CourtMatch>): set<CourtId> {
    set m | m in matches :: m.courtId
  }

  /** The ids of `courts`, in order. */
  function CourtIds(courts: seq<Court>): (r: seq<CourtId>)
    ensures |r| == |courts|
    ensures forall i | 0 <= i < |courts| :: r[i] == courts[i].id
  {
    if |courts| == 0 then [] else [courts[0].id] + CourtIds(courts[1..])
  }

  /** `getAvailableCourts(matches, courts)`: the ids of the courts no match is on, in court order. */
  function GetAvailableCourts(matches: seq<CourtMatch>, courts: seq<Court>): (r: seq<CourtId>)
    ensures forall id :: id in r <==> id in CourtIds(courts) && id !in UsedCourts(matches)
    ensures IsSubsequence(r, CourtIds(courts))
  {
    if |courts| == 0 then []
    else
      var rest := GetAvailableCourts(matches, courts[1..]);
      assert CourtIds(courts) == [courts[0].id] + CourtIds(courts[1..]);
      SubsequenceTail(rest, courts[0].id, CourtIds(courts[1..]));
      if courts[0].id in UsedCourts(matches) then rest else [courts[0].id] + rest
  }

  /** A subsequence of a tail is a subsequence of the whole list. */
  lemma SubsequenceTail<T>(a: seq<T>, x: T, b: seq<T>)
    requires IsSubsequence(a, b)
    ensures IsSubsequence(a, [x] + b)
    ensures IsSubsequence([x] + a, [x] + b)
  {
    assert ([x] + a)[1..] == a;
    SubsequenceWeaken(a, b, x);
  }

  /** If `a` is a subsequence of `b`, so is `a` without its head. */
  lemma {:induction false} SubsequenceCons<T>(a: seq<T>, b: seq<T>)
    requires |a| > 0 && IsSubsequence(a, b)
    ensures IsSubsequence(a[1..], b)
    decreases |b|, 1
  {
    if a[0] == b[0] {
      SubsequenceWeaken(a[1..], b[1..], b[0]);
    } else {
      SubsequenceCons(a, b[1..]);
      SubsequenceWeaken(a[1..], b[1..], b[0]);
    }
    assert b == [b[0]] + b[1..];
  }

  /** Prepending to the longer list keeps a subsequence a subsequence. */
  lemma {:induction false} SubsequenceWeaken<T>(a: seq<T>, b: seq<T>, x: T)
    requires IsSubsequence(a, b)
    ensures IsSubsequence(a, [x] + b)
    decreases |b| + 1, 0
  {
    assert ([x] + b)[1..] == b;
    if |a| > 0 && a[0] == x {
      SubsequenceCons(a, b);
    }
  }

  /**
   * `canCreateMatch`: a free court exists and `tryCreateMatch` with the fallback
   * allowed finds a match. Whatever the shuffle draws, that is the same as some
   * balanced or three-of-a-kind pattern fitting the queue.
   */
  function CanCreateMatch(queue: seq<Player>, matches: seq<CourtMatch>, courts: seq<Court>, rng: Rng): (r: bool)
    ensures r <==>
      && (exists c | c in courts :: c.id !in UsedCourts(matches))
      && (CanMatchBalanced(queue) || CanMatchFallback(queue))
  {
    var available := GetAvailableCourts(matches, courts);
    assert (exists c | c in courts :: c.id !in UsedCourts(matches)) <==> |available| > 0 by {
      if exists c | c in courts :: c.id !in UsedCourts(matches) {
        var c :| c in courts && c.id !in UsedCourts(matches);
        var i :| 0 <= i < |courts| && courts[i] == c;
        assert CourtIds(courts)[i] == c.id;
        assert c.id in available;
      }
      if |available| > 0 {
        assert available[0] in available;
        var i :| 0 <= i < |courts| && CourtIds(courts)[i] == available[0];
        assert courts[i] in courts;
      }
    }
    if |available| == 0 then false
    else TryCreateMatch(queue, Options(true, false), rng).found.Some?
  }
}
