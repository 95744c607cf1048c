/**
 * `tryCreateMatch` (src/utils/queueMatcher.js:108-251): shuffle the queue within
 * games-played tiers, list every balanced pattern that fits, keep the one with
 * the lowest (total, max) games score, and fall back to a three-of-a-kind pattern
 * only when no balanced one fits and the caller allows it.
 */
module QueueMatcher {
  import opened Wrappers
  import opened Seqs
  import opened Players
  import opened Shuffling
  import opened Patterns
  import opened Partners

  /** `matchScore`: the total games of the four players, then the most games any one of them has. */
  datatype Score = Score(sum: nat, max: nat)

  function MatchScore(m: Match): Score {
    Score(SumGames(Members(m)), MaxGames(Members(m)))
  }

  /** The sort comparator `sumA - sumB`, then `maxA - maxB`: `a` sorts no later than `b`. */
  predicate ScoreLe(a: Score, b: Score) {
    a.sum < b.sum || (a.sum == b.sum && a.max <= b.max)
  }

  /**
   * The element a stable ascending sort puts first: a best score, and the
   * earliest of the best ones.
   */
  function BestIndex(scores: seq<Score>): (i: nat)
    requires |scores| > 0
    ensures i < |scores|
    ensures forall j | 0 <= j < |scores| :: ScoreLe(scores[i], scores[j])
    ensures forall j | 0 <= j < i :: !ScoreLe(scores[j], scores[i])
  {
    if |scores| == 1 then 0
    else
      var k := BestIndex(scores[1..]) + 1;
      assert forall j | 1 <= j < |scores| :: scores[j] == scores[1..][j - 1];
      if ScoreLe(scores[0], scores[k]) then 0 else k
  }

  /** Only one index is both a best score and the earliest of the best. */
  lemma BestIndexUnique(scores: seq<Score>, i: nat)
    requires i < |scores|
    requires forall j | 0 <= j < |scores| :: ScoreLe(scores[i], scores[j])
    requires forall j | 0 <= j < i :: !ScoreLe(scores[j], scores[i])
    ensures BestIndex(scores) == i
  {
  }

  /** The options object `{ allowUnbalancedIfOnlyOption, randomizePartners }`, both `false` by default. */
  datatype Options = Options(allowUnbalancedIfOnlyOption: bool, randomizePartners: bool)

  const DefaultOptions: Options := Options(false, false)

  /**
   * The result `{ match, remainingQueue }`; `found` is `match` (a keyword here),
   * `None` for `null`. The random source after the call is returned alongside.
   */
  datatype Attempt = Attempt(found: Option<Match>, remainingQueue: seq<Player>, rng: Rng)

  /** The patterns of `kinds` whose guard holds on `s`, in the order the source pushes them. */
  function Candidates(kinds: seq<Kind>, s: seq<Player>): (r: seq<Kind>)
    ensures forall k | k in r :: Applicable(k, s)
  {
    Filter(k => Applicable(k, s), kinds)
  }

  /** Some balanced pattern fits `s`. */
  predicate CanMatchBalanced(s: seq<Player>) {
    exists k | k in BalancedKinds :: Applicable(k, s)
  }

  /** Some three-of-a-kind pattern fits `s`. */
  predicate CanMatchFallback(s: seq<Player>) {
    exists k | k in FallbackKinds :: Applicable(k, s)
  }

  function Scores(cands: seq<Kind>, s: seq<Player>): (r: seq<Score>)
    requires forall k | k in cands :: Applicable(k, s)
    ensures |r| == |cands|
    ensures forall i | 0 <= i < |cands| :: r[i] == MatchScore(Realize(cands[i], s))
  {
    if |cands| == 0 then []
    else [MatchScore(Realize(cands[0], s))] + Scores(cands[1..], s)
  }

  /** The pattern kept after sorting the pushed candidates by score. */
  function Pick(cands: seq<Kind>, s: seq<Player>): (k: Kind)
    requires |cands| > 0
    requires forall k | k in cands :: Applicable(k, s)
    ensures k in cands
  {
    cands[BestIndex(Scores(cands, s))]
  }

  /** `remainingQueue.filter((p) => !ids.has(p.id))` */
  function WithoutIds(s: seq<Player>, ids: set<PlayerId>): (r: seq<Player>)
    ensures forall p | p in r :: p in s && p.id !in ids
    ensures forall p | p in s && p.id !in ids :: p in r
    ensures |r| <= |s|
  {
    Filter((p: Player) => p.id !in ids, s)
  }

  /** The list `tryCreateMatch` works on: the queue shuffled within games-played tiers. */
  function Shuffled(queue: seq<Player>, rng: Rng): (r: seq<Player>)
    ensures multiset(r) == multiset(queue) && GamesAscending(r)
  {
    ShuffleWithinTies(queue, rng).0
  }

  /** Build the chosen candidate's result: the match (re-paired if asked) and the queue without its players. */
  function Choose(cands: seq<Kind>, s: seq<Player>, randomize: bool, rng: Rng): (r: Attempt)
    requires |cands| > 0
    requires forall k | k in cands :: Applicable(k, s)
    ensures r.found.Some?
    ensures |r.remainingQueue| < |s|
    ensures forall p | p in r.remainingQueue :: p in s
  {
    var k := Pick(cands, s);
    var m := Realize(k, s);
    RealizeShape(k, s);
    var ids := IdsOf(Members(m));
    FilterShrinks((p: Player) => p.id !in ids, s, m.team1[0]);
    var (paired, rng1) := if randomize then RandomizePartners(m, rng) else (m, rng);
    Attempt(Some(paired), WithoutIds(s, ids), rng1)
  }

  /** Filtering out a present element makes the list strictly shorter. */
  lemma {:induction false} FilterShrinks(f: Player -> bool, s: seq<Player>, x: Player)
    requires x in s && !f(x)
    ensures |Filter(f, s)| < |s|
  {
    if s[0] == x {
      assert |Filter(f, s[1..])| <= |s[1..]|;
    } else {
      FilterShrinks(f, s[1..], x);
    }
  }

  /** The pattern search of `tryCreateMatch` on the already shuffled list `s`. */
  function MatchShuffled(s: seq<Player>, opts: Options, rng: Rng): (r: Attempt)
    ensures r.found.Some? <==>
      CanMatchBalanced(s) || (opts.allowUnbalancedIfOnlyOption && CanMatchFallback(s))
    ensures r.found.Some? ==> |r.remainingQueue| < |s|
    ensures r.found.None? ==> r.remainingQueue == s
    ensures forall p | p in r.remainingQueue :: p in s
  {
    CandidatesNonEmpty(BalancedKinds, s);
    CandidatesNonEmpty(FallbackKinds, s);
    var balanced := Candidates(BalancedKinds, s);
    if |balanced| > 0 then
      Choose(balanced, s, opts.randomizePartners, rng)
    else if opts.allowUnbalancedIfOnlyOption then
      var fallback := Candidates(FallbackKinds, s);
      if |fallback| > 0 then
        Choose(fallback, s, opts.randomizePartners, rng)
      else
        Attempt(None, s, rng)
    else
      Attempt(None, s, rng)
  }

  /** `tryCreateMatch(queue, opts)`. */
  function TryCreateMatch(queue: seq<Player>, opts: Options, rng: Rng): (r: Attempt)
    ensures r.found.Some? <==>
      CanMatchBalanced(queue) || (opts.allowUnbalancedIfOnlyOption && CanMatchFallback(queue))
    ensures r.found.Some? ==> |r.remainingQueue| < |queue|
    ensures forall p | p in r.remainingQueue :: p in queue
    ensures r.found.None? ==>
      multiset(r.remainingQueue) == multiset(queue) && GamesAscending(r.remainingQueue)
  {
    var (remaining, rng1) := ShuffleWithinTies(queue, rng);
    ShuffledApplicable(queue, rng);
    var r := MatchShuffled(remaining, opts, rng1);
    assert forall p | p in remaining :: p in queue by {
      forall p | p in remaining ensures p in queue {
        assert p in multiset(remaining);
      }
    }
    assert |remaining| == |queue| by {
      assert |multiset(remaining)| == |multiset(queue)|;
    }
    r
  }

  /** A candidate list is non-empty exactly when some pattern of the list fits. */
  lemma CandidatesNonEmpty(kinds: seq<Kind>, s: seq<Player>)
    ensures |Candidates(kinds, s)| > 0 <==> exists k | k in kinds :: Applicable(k, s)
  {
    if exists k | k in kinds :: Applicable(k, s) {
      var k :| k in kinds && Applicable(k, s);
      assert k in Candidates(kinds, s);
    }
    if |Candidates(kinds, s)| > 0 {
      assert Candidates(kinds, s)[0] in Candidates(kinds, s);
    }
  }

  /** Shuffling within tiers changes no pattern's guard. */
  lemma ShuffledApplicable(queue: seq<Player>, rng: Rng)
    ensures CanMatchBalanced(Shuffled(queue, rng)) == CanMatchBalanced(queue)
    ensures CanMatchFallback(Shuffled(queue, rng)) == CanMatchFallback(queue)
  {
    forall k
      ensures Applicable(k, Shuffled(queue, rng)) <==> Applicable(k, queue)
    {
      ApplicablePermutation(k, Shuffled(queue, rng), queue);
    }
  }

  /** The kind `tryCreateMatch` keeps, when it keeps one. */
  function ChosenKind(queue: seq<Player>, opts: Options, rng: Rng): (k: Option<Kind>)
    ensures k.Some? ==> Applicable(k.value, Shuffled(queue, rng))
  {
    var s := Shuffled(queue, rng);
    var balanced := Candidates(BalancedKinds, s);
    var fallback := Candidates(FallbackKinds, s);
    if |balanced| > 0 then Some(Pick(balanced, s))
    else if opts.allowUnbalancedIfOnlyOption && |fallback| > 0 then Some(Pick(fallback, s))
    else None
  }

  /**
   * The chosen pattern: a balanced one whenever any fits; otherwise, only when
   * allowed, a three-of-a-kind one. The match returned is that pattern's match,
   * re-paired when asked.
   */
  lemma TryCreateMatchShape(queue: seq<Player>, opts: Options, rng: Rng)
    ensures TryCreateMatch(queue, opts, rng).found.Some? <==> ChosenKind(queue, opts, rng).Some?
    ensures ChosenKind(queue, opts, rng).Some? ==>
      var k := ChosenKind(queue, opts, rng).value;
      var m := Realize(k, Shuffled(queue, rng));
      var found := TryCreateMatch(queue, opts, rng).found.value;
      && (k in BalancedKinds <==> CanMatchBalanced(queue))
      && (k in FallbackKinds ==> opts.allowUnbalancedIfOnlyOption)
      && found == (if opts.randomizePartners then RandomizePartners(m, ShuffleWithinTies(queue, rng).1).0 else m)
      && TryCreateMatch(queue, opts, rng).remainingQueue == WithoutIds(Shuffled(queue, rng), IdsOf(Members(m)))
  {
    var s := Shuffled(queue, rng);
    ShuffledApplicable(queue, rng);
    CandidatesNonEmpty(BalancedKinds, s);
    CandidatesNonEmpty(FallbackKinds, s);
    var ck := ChosenKind(queue, opts, rng);
    if ck.Some? {
      KindFacts(ck.value);
      assert ck.value in BalancedKinds ==> ck.value !in FallbackKinds;
    }
  }

  /**
   * Every match `tryCreateMatch` returns is balanced, or is a three-of-a-kind
   * match returned only with the option set and no balanced pattern fitting.
   */
  lemma TryCreateMatchLegal(queue: seq<Player>, opts: Options, rng: Rng)
    ensures var r := TryCreateMatch(queue, opts, rng);
      r.found.Some? ==>
        || Balanced(r.found.value)
        || (&& opts.allowUnbalancedIfOnlyOption && !CanMatchBalanced(queue)
            && FallbackShape(r.found.value))
  {
    TryCreateMatchShape(queue, opts, rng);
    var ck := ChosenKind(queue, opts, rng);
    if ck.Some? {
      KindFacts(ck.value);
      RealizeShape(ck.value, Shuffled(queue, rng));
    }
  }

  /** No pattern is listed twice. */
  lemma KindsDistinct()
    ensures Distinct(BalancedKinds) && Distinct(FallbackKinds)
  {
  }

  /**
   * The kept pattern scores no worse than any pattern of its list that fits, and
   * every fitting pattern listed before it scores strictly worse: sorting the
   * candidates stably and taking the first.
   */
  lemma PickIsBest(kinds: seq<Kind>, s: seq<Player>)
    requires Distinct(kinds)
    requires |Candidates(kinds, s)| > 0
    ensures var k := Pick(Candidates(kinds, s), s);
      && (forall j | 0 <= j < |kinds| && Applicable(kinds[j], s) ::
            ScoreLe(MatchScore(Realize(k, s)), MatchScore(Realize(kinds[j], s))))
      && (forall i, j | 0 <= j < i < |kinds| && kinds[i] == k && Applicable(kinds[j], s) ::
            !ScoreLe(MatchScore(Realize(kinds[j], s)), MatchScore(Realize(k, s))))
  {
    PickNoWorse(kinds, s);
    PickEarliest(kinds, s);
  }

  /** The kept pattern scores no worse than any fitting pattern of the list. */
  lemma PickNoWorse(kinds: seq<Kind>, s: seq<Player>)
    requires |Candidates(kinds, s)| > 0
    ensures var k := Pick(Candidates(kinds, s), s);
      forall j | 0 <= j < |kinds| && Applicable(kinds[j], s) ::
        ScoreLe(MatchScore(Realize(k, s)), MatchScore(Realize(kinds[j], s)))
  {
    var cands := Candidates(kinds, s);
    var scores := Scores(cands, s);
    var b := BestIndex(scores);
    var k := cands[b];
    forall j | 0 <= j < |kinds| && Applicable(kinds[j], s)
      ensures ScoreLe(MatchScore(Realize(k, s)), MatchScore(Realize(kinds[j], s)))
    {
      assert kinds[j] in cands;
      var c :| 0 <= c < |cands| && cands[c] == kinds[j];
      assert ScoreLe(scores[b], scores[c]);
    }
  }

  /** Every fitting pattern listed before the kept one scores strictly worse. */
  lemma PickEarliest(kinds: seq<Kind>, s: seq<Player>)
    requires Distinct(kinds)
    requires |Candidates(kinds, s)| > 0
    ensures var k := Pick(Candidates(kinds, s), s);
      forall i, j | 0 <= j < i < |kinds| && kinds[i] == k && Applicable(kinds[j], s) ::
        !ScoreLe(MatchScore(Realize(kinds[j], s)), MatchScore(Realize(k, s)))
  {
    var cands := Candidates(kinds, s);
    var scores := Scores(cands, s);
    var b := BestIndex(scores);
    var k := cands[b];
    FilterDistinct(k => Applicable(k, s), kinds);
    forall i, j | 0 <= j < i < |kinds| && kinds[i] == k && Applicable(kinds[j], s)
      ensures !ScoreLe(MatchScore(Realize(kinds[j], s)), MatchScore(Realize(k, s)))
    {
      FilterKeepsOrder(k => Applicable(k, s), kinds, j, i);
      var x, y :| 0 <= x < y < |cands| && cands[x] == kinds[j] && cands[y] == kinds[i];
      assert y == b;
      assert !ScoreLe(scores[x], scores[b]);
    }
  }

  /**
   * `tryCreateMatch` keeps the best-scoring fitting pattern of the list it uses,
   * the earliest one on a tie; re-pairing does not change the score.
   */
  lemma TryCreateMatchPicksBest(queue: seq<Player>, opts: Options, rng: Rng)
    ensures var r := TryCreateMatch(queue, opts, rng);
      var s := Shuffled(queue, rng);
      var ck := ChosenKind(queue, opts, rng);
      ck.Some? ==>
        var kinds := if CanMatchBalanced(queue) then BalancedKinds else FallbackKinds;
        && r.found.Some?
        && MatchScore(r.found.value) == MatchScore(Realize(ck.value, s))
        && (forall j | 0 <= j < |kinds| && Applicable(kinds[j], s) ::
              ScoreLe(MatchScore(r.found.value), MatchScore(Realize(kinds[j], s))))
        && (forall i, j | 0 <= j < i < |kinds| && kinds[i] == ck.value && Applicable(kinds[j], s) ::
              !ScoreLe(MatchScore(Realize(kinds[j], s)), MatchScore(r.found.value)))
  {
    var s := Shuffled(queue, rng);
    var ck := ChosenKind(queue, opts, rng);
    TryCreateMatchShape(queue, opts, rng);
    KindsDistinct();
    ShuffledApplicable(queue, rng);
    CandidatesNonEmpty(BalancedKinds, s);
    CandidatesNonEmpty(FallbackKinds, s);
    if ck.Some? {
      var m := Realize(ck.value, s);
      RealizeShape(ck.value, s);
      KindFacts(ck.value);
      if opts.randomizePartners {
        RandomizeKeepsScore(m, ShuffleWithinTies(queue, rng).1);
      }
      if CanMatchBalanced(queue) {
        PickIsBest(BalancedKinds, s);
      } else {
        PickIsBest(FallbackKinds, s);
      }
    }
  }

  /** Re-pairing a balanced or three-of-a-kind match keeps its score. */
  lemma RandomizeKeepsScore(m: Match, rng: Rng)
    requires Balanced(m) || FallbackShape(m)
    ensures MatchScore(RandomizePartners(m, rng).0) == MatchScore(m)
  {
    var x := RandomizePartners(m, rng).0;
    if Balanced(m) {
      SumGamesPermutation(Members(x), Members(m));
      forall p
        ensures p in Members(x) <==> p in Members(m)
      {
        assert p in Members(x) <==> p in multiset(Members(x));
      }
      MaxGamesSameElements(Members(x), Members(m));
    }
  }

  /** The players a match removes from the queue are exactly its four members. */
  lemma RemoveMembers(s: seq<Player>, m: Match)
    requires UniqueIds(s)
    requires Distinct(Members(m))
    requires forall p | p in Members(m) :: p in s
    ensures multiset(s) == multiset(Members(m)) + multiset(WithoutIds(s, IdsOf(Members(m))))
  {
    var ids := IdsOf(Members(m));
    FilterPartition((p: Player) => p.id in ids, (p: Player) => p.id !in ids, s);
    var taken := Filter((p: Player) => p.id in ids, s);
    DistinctCountOne(Members(m));
    forall x
      ensures multiset(taken)[x] == multiset(Members(m))[x]
    {
      MultisetFilterAt((p: Player) => p.id in ids, s, x);
      if x in Members(m) {
        assert x in s;
      }
    }
    assert multiset(taken) == multiset(Members(m));
  }

  /**
   * With unique ids, a successful `tryCreateMatch` splits the queue into the
   * four players of the match and the remaining queue, and the remaining queue
   * still has unique ids.
   */
  lemma TryCreateMatchConserves(queue: seq<Player>, opts: Options, rng: Rng)
    requires UniqueIds(queue)
    ensures var r := TryCreateMatch(queue, opts, rng);
      r.found.Some? ==>
        && multiset(queue) == multiset(Members(r.found.value)) + multiset(r.remainingQueue)
        && |r.remainingQueue| + 4 == |queue|
        && UniqueIds(r.remainingQueue)
  {
    var r := TryCreateMatch(queue, opts, rng);
    var s := Shuffled(queue, rng);
    TryCreateMatchShape(queue, opts, rng);
    var ck := ChosenKind(queue, opts, rng);
    if ck.Some? {
      var k := ck.value;
      var m := Realize(k, s);
      UniqueIdsSub(queue, s);
      RealizeShape(k, s);
      RealizeDistinct(k, s);
      KindFacts(k);
      RemoveMembers(s, m);
      assert multiset(Members(r.found.value)) == multiset(Members(m));
      assert |Members(m)| == 4;
      assert |multiset(s)| == |multiset(Members(m))| + |multiset(r.remainingQueue)|;
      UniqueIdsSub(s, r.remainingQueue);
    }
  }

  /** A player belongs to one bucket only. */
  lemma BucketUnique(p: Player, b1: Bucket, b2: Bucket)
    requires InBucket(p, b1) && InBucket(p, b2)
    ensures b1 == b2
  {
  }

  /** Least-played-first for one realized pattern, for any player of the match. */
  lemma RealizeMembersLeastPlayed(k: Kind, s: seq<Player>, p: Player, q: Player, b: Bucket)
    requires GamesAscending(s)
    requires Applicable(k, s)
    requires p in Members(Realize(k, s))
    requires q in s && q !in Members(Realize(k, s))
    requires InBucket(p, b) && InBucket(q, b)
    ensures Games(p) <= Games(q)
  {
    var pat := PatternOf(k);
    assert Members(Realize(k, s)) == [At(s, pat.a), At(s, pat.b), At(s, pat.c), At(s, pat.d)];
    var sl := if p == At(s, pat.a) then pat.a
      else if p == At(s, pat.b) then pat.b
      else if p == At(s, pat.c) then pat.c
      else pat.d;
    AtFacts(s, sl);
    BucketUnique(p, b, sl.bucket);
    RealizeLeastPlayedFirst(k, s, sl, q);
  }

  /**
   * Least-played-first: a player left in the queue never has fewer games than a
   * player of the same gender and category who was picked.
   */
  lemma TryCreateMatchLeastPlayedFirst(queue: seq<Player>, opts: Options, rng: Rng, p: Player, q: Player, b: Bucket)
    requires TryCreateMatch(queue, opts, rng).found.Some?
    requires p in Members(TryCreateMatch(queue, opts, rng).found.value)
    requires q in TryCreateMatch(queue, opts, rng).remainingQueue
    requires InBucket(p, b) && InBucket(q, b)
    ensures Games(p) <= Games(q)
  {
    var r := TryCreateMatch(queue, opts, rng);
    var s := Shuffled(queue, rng);
    TryCreateMatchShape(queue, opts, rng);
    var k := ChosenKind(queue, opts, rng).value;
    var m := Realize(k, s);
    RealizeShape(k, s);
    KindFacts(k);
    assert p in Members(m) by {
      assert p in multiset(Members(r.found.value));
    }
    assert q in s && q !in Members(m);
    RealizeMembersLeastPlayed(k, s, p, q, b);
  }
}
