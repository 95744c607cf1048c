/**
 * The gender x category buckets and the fixed list of 2-vs-2 patterns that
 * `tryCreateMatch` (src/utils/queueMatcher.js) tries. Every pattern names, for
 * each of the four places, a bucket and a position in it; the source's guard
 * for a pattern (`maleBeginners.length >= 2 && ...`) is exactly "every named
 * position exists", which is `Applicable` below.
 */
module Patterns {
  import opened Wrappers
  import opened Seqs
  import opened Players

  datatype Bucket = MaleBeginners | MaleIntermediates | FemaleBeginners | FemaleIntermediates

  function BucketGender(b: Bucket): Gender {
    if b == MaleBeginners || b == MaleIntermediates then Male else Female
  }

  function BucketCategory(b: Bucket): Category {
    if b == MaleBeginners || b == FemaleBeginners then Beginners else Intermediate
  }

  predicate InBucket(p: Player, b: Bucket) {
    p.gender == Some(BucketGender(b)) && p.category == Some(BucketCategory(b))
  }

  /** `remainingQueue.filter((p) => p.gender === ... && p.category === ...)` */
  function BucketOf(s: seq<Player>, b: Bucket): seq<Player> {
    Filter(p => InBucket(p, b), s)
  }

  /** A place in a pattern: the `index`-th player of a bucket. */
  datatype Slot = Slot(bucket: Bucket, index: nat)

  /** `team1 = [a, b]`, `team2 = [c, d]`. */
  datatype Pattern = Pattern(a: Slot, b: Slot, c: Slot, d: Slot)

  /** The patterns of src/utils/queueMatcher.js:136-199 (balanced) and 224-237 (fallback). */
  datatype Kind =
    | MaleBeginnersFour | MaleIntermediatesFour | MaleMixed
    | FemaleBeginnersFour | FemaleIntermediatesFour | FemaleMixed
    | MixedBeginners | MixedIntermediates | MixedCross
    | MaleBeginnerFemaleIntermediate | MaleIntermediateFemaleBeginner
    | MaleThreeBeginners | MaleThreeIntermediates
    | FemaleThreeBeginners | FemaleThreeIntermediates

  function MB(i: nat): Slot { Slot(MaleBeginners, i) }
  function MI(i: nat): Slot { Slot(MaleIntermediates, i) }
  function FB(i: nat): Slot { Slot(FemaleBeginners, i) }
  function FI(i: nat): Slot { Slot(FemaleIntermediates, i) }

  function PatternOf(k: Kind): Pattern {
    match k
    case MaleBeginnersFour => Pattern(MB(0), MB(1), MB(2), MB(3))
    case MaleIntermediatesFour => Pattern(MI(0), MI(1), MI(2), MI(3))
    case MaleMixed => Pattern(MB(0), MI(0), MB(1), MI(1))
    case FemaleBeginnersFour => Pattern(FB(0), FB(1), FB(2), FB(3))
    case FemaleIntermediatesFour => Pattern(FI(0), FI(1), FI(2), FI(3))
    case FemaleMixed => Pattern(FB(0), FI(0), FB(1), FI(1))
    case MixedBeginners => Pattern(MB(0), FB(0), MB(1), FB(1))
    case MixedIntermediates => Pattern(MI(0), FI(0), MI(1), FI(1))
    case MixedCross => Pattern(MB(0), FI(0), MI(0), FB(0))
    case MaleBeginnerFemaleIntermediate => Pattern(MB(0), FI(0), MB(1), FI(1))
    case MaleIntermediateFemaleBeginner => Pattern(MI(0), FB(0), MI(1), FB(1))
    case MaleThreeBeginners => Pattern(MI(0), MB(0), MB(1), MB(2))
    case MaleThreeIntermediates => Pattern(MB(0), MI(0), MI(1), MI(2))
    case FemaleThreeBeginners => Pattern(FI(0), FB(0), FB(1), FB(2))
    case FemaleThreeIntermediates => Pattern(FB(0), FI(0), FI(1), FI(2))
  }

  /** Balanced patterns, in the order the source pushes them. */
  const BalancedKinds: seq<Kind> := [
    MaleBeginnersFour, MaleIntermediatesFour, MaleMixed,
    FemaleBeginnersFour, FemaleIntermediatesFour, FemaleMixed,
    MixedBeginners, MixedIntermediates, MixedCross,
    MaleBeginnerFemaleIntermediate, MaleIntermediateFemaleBeginner
  ]

  /** Three-of-one-category patterns, in the order the source pushes them. */
  const FallbackKinds: seq<Kind> := [
    MaleThreeBeginners, MaleThreeIntermediates, FemaleThreeBeginners, FemaleThreeIntermediates
  ]

  function SlotsOf(p: Pattern): seq<Slot> {
    [p.a, p.b, p.c, p.d]
  }

  predicate SlotsDistinct(p: Pattern) {
    p.a != p.b && p.a != p.c && p.a != p.d && p.b != p.c && p.b != p.d && p.c != p.d
  }

  /** Within each bucket a pattern uses positions 0, 1, ... without gaps. */
  predicate PrefixClosed(p: Pattern) {
    forall sl | sl in SlotsOf(p) && sl.index > 0 :: Slot(sl.bucket, sl.index - 1) in SlotsOf(p)
  }

  /** The gender signature of a team drawn from buckets `x` and `y`. */
  function PairGender(x: Bucket, y: Bucket): GenderSignature {
    if BucketGender(x) == Male && BucketGender(y) == Male then MM
    else if BucketGender(x) == Female && BucketGender(y) == Female then FF
    else MF
  }

  /** The category signature of a team drawn from buckets `x` and `y`. */
  function PairCategory(x: Bucket, y: Bucket): CategorySignature {
    if BucketCategory(x) == Beginners && BucketCategory(y) == Beginners then BB
    else if BucketCategory(x) == Intermediate && BucketCategory(y) == Intermediate then II
    else BI
  }

  predicate BalancedPattern(p: Pattern) {
    && PairGender(p.a.bucket, p.b.bucket) == PairGender(p.c.bucket, p.d.bucket)
    && PairCategory(p.a.bucket, p.b.bucket) == PairCategory(p.c.bucket, p.d.bucket)
  }

  predicate FallbackPattern(p: Pattern) {
    && PairGender(p.a.bucket, p.b.bucket) == PairGender(p.c.bucket, p.d.bucket)
    && PairGender(p.a.bucket, p.b.bucket) != MF
    && PairCategory(p.a.bucket, p.b.bucket) == BI
    && PairCategory(p.c.bucket, p.d.bucket) != BI
  }

  /** Every listed pattern uses four different places, without gaps, in the shape its list promises. */
  lemma KindFacts(k: Kind)
    ensures SlotsDistinct(PatternOf(k)) && PrefixClosed(PatternOf(k))
    ensures k in BalancedKinds ==> BalancedPattern(PatternOf(k))
    ensures k in FallbackKinds ==> FallbackPattern(PatternOf(k))
    ensures k in BalancedKinds || k in FallbackKinds
  {
    KindSlots(k);
    KindLists(k);
  }

  lemma KindSlots(k: Kind)
    ensures SlotsDistinct(PatternOf(k)) && PrefixClosed(PatternOf(k))
  {
    match k
    case MaleBeginnersFour =>
    case MaleIntermediatesFour =>
    case MaleMixed =>
    case FemaleBeginnersFour =>
    case FemaleIntermediatesFour =>
    case FemaleMixed =>
    case MixedBeginners =>
    case MixedIntermediates =>
    case MixedCross =>
    case MaleBeginnerFemaleIntermediate =>
    case MaleIntermediateFemaleBeginner =>
    case MaleThreeBeginners =>
    case MaleThreeIntermediates =>
    case FemaleThreeBeginners =>
    case FemaleThreeIntermediates =>
  }

  lemma KindLists(k: Kind)
    ensures k in BalancedKinds ==> BalancedPattern(PatternOf(k))
    ensures k in FallbackKinds ==> FallbackPattern(PatternOf(k))
    ensures k in BalancedKinds || k in FallbackKinds
  {
    match k
    case MaleBeginnersFour =>
    case MaleIntermediatesFour =>
    case MaleMixed =>
    case FemaleBeginnersFour =>
    case FemaleIntermediatesFour =>
    case FemaleMixed =>
    case MixedBeginners =>
    case MixedIntermediates =>
    case MixedCross =>
    case MaleBeginnerFemaleIntermediate =>
    case MaleIntermediateFemaleBeginner =>
    case MaleThreeBeginners =>
    case MaleThreeIntermediates =>
    case FemaleThreeBeginners =>
    case FemaleThreeIntermediates =>
  }

  /** Every pattern position exists in the list (`bucket.length > index`). */
  predicate Fits(s: seq<Player>, sl: Slot) {
    sl.index < |BucketOf(s, sl.bucket)|
  }

  /** The source's guard for pushing pattern `k`. */
  predicate Applicable(k: Kind, s: seq<Player>) {
    var p := PatternOf(k);
    Fits(s, p.a) && Fits(s, p.b) && Fits(s, p.c) && Fits(s, p.d)
  }

  function At(s: seq<Player>, sl: Slot): Player
    requires Fits(s, sl)
  {
    BucketOf(s, sl.bucket)[sl.index]
  }

  /** The match `pushMatch`/`pushFallback` builds for pattern `k`. */
  function Realize(k: Kind, s: seq<Player>): Match
    requires Applicable(k, s)
  {
    var p := PatternOf(k);
    Match([At(s, p.a), At(s, p.b)], [At(s, p.c), At(s, p.d)])
  }

  lemma AtFacts(s: seq<Player>, sl: Slot)
    requires Fits(s, sl)
    ensures At(s, sl) in s && InBucket(At(s, sl), sl.bucket)
  {
    assert At(s, sl) in BucketOf(s, sl.bucket);
  }

  lemma PairSignatures(x: Player, y: Player, bx: Bucket, bY: Bucket)
    requires InBucket(x, bx) && InBucket(y, bY)
    ensures TeamGenderSignature([x, y]) == PairGender(bx, bY)
    ensures TeamCategorySignature([x, y]) == PairCategory(bx, bY)
  {
  }

  /** The match built from a listed pattern has the shape its list promises, from players of `s`. */
  lemma RealizeShape(k: Kind, s: seq<Player>)
    requires Applicable(k, s)
    ensures WellFormed(Realize(k, s))
    ensures forall p | p in Members(Realize(k, s)) :: p in s
    ensures k in BalancedKinds ==> Balanced(Realize(k, s))
    ensures k in FallbackKinds ==> FallbackShape(Realize(k, s))
  {
    RealizeSignatures(k, s);
    KindLists(k);
  }

  /** Each team of a realized pattern carries the signatures of its two buckets. */
  lemma RealizeSignatures(k: Kind, s: seq<Player>)
    requires Applicable(k, s)
    ensures WellFormed(Realize(k, s))
    ensures forall p | p in Members(Realize(k, s)) :: p in s
    ensures var p := PatternOf(k);
      && TeamGenderSignature(Realize(k, s).team1) == PairGender(p.a.bucket, p.b.bucket)
      && TeamCategorySignature(Realize(k, s).team1) == PairCategory(p.a.bucket, p.b.bucket)
      && TeamGenderSignature(Realize(k, s).team2) == PairGender(p.c.bucket, p.d.bucket)
      && TeamCategorySignature(Realize(k, s).team2) == PairCategory(p.c.bucket, p.d.bucket)
  {
    var p := PatternOf(k);
    AtFacts(s, p.a);
    AtFacts(s, p.b);
    AtFacts(s, p.c);
    AtFacts(s, p.d);
    PairSignatures(At(s, p.a), At(s, p.b), p.a.bucket, p.b.bucket);
    PairSignatures(At(s, p.c), At(s, p.d), p.c.bucket, p.d.bucket);
    var m := Realize(k, s);
    assert Members(m) == [At(s, p.a), At(s, p.b), At(s, p.c), At(s, p.d)];
  }

  /** Whether a pattern applies depends only on how many players each bucket holds. */
  lemma ApplicablePermutation(k: Kind, a: seq<Player>, b: seq<Player>)
    requires multiset(a) == multiset(b)
    ensures Applicable(k, a) <==> Applicable(k, b)
  {
    FilterPermutation(p => InBucket(p, MaleBeginners), a, b);
    FilterPermutation(p => InBucket(p, MaleIntermediates), a, b);
    FilterPermutation(p => InBucket(p, FemaleBeginners), a, b);
    FilterPermutation(p => InBucket(p, FemaleIntermediates), a, b);
  }

  /** With unique ids, two different places hold two different players. */
  lemma AtInjective(s: seq<Player>, x: Slot, y: Slot)
    requires UniqueIds(s)
    requires Fits(s, x) && Fits(s, y) && x != y
    ensures At(s, x) != At(s, y)
  {
    AtFacts(s, x);
    AtFacts(s, y);
    if x.bucket == y.bucket {
      var bucket := BucketOf(s, x.bucket);
      FilterSubMultiset(p => InBucket(p, x.bucket), s);
      UniqueIdsSub(s, bucket);
      if x.index < y.index {
        UniqueIdsPositions(bucket, x.index, y.index);
      } else {
        UniqueIdsPositions(bucket, y.index, x.index);
      }
    }
  }

  /** With unique ids, the four players of a realized pattern are pairwise different. */
  lemma RealizeDistinct(k: Kind, s: seq<Player>)
    requires UniqueIds(s)
    requires Applicable(k, s)
    ensures forall i, j | 0 <= i < j < |Members(Realize(k, s))| :: Members(Realize(k, s))[i] != Members(Realize(k, s))[j]
  {
    var p := PatternOf(k);
    KindFacts(k);
    AtInjective(s, p.a, p.b);
    AtInjective(s, p.a, p.c);
    AtInjective(s, p.a, p.d);
    AtInjective(s, p.b, p.c);
    AtInjective(s, p.b, p.d);
    AtInjective(s, p.c, p.d);
    assert Members(Realize(k, s)) == [At(s, p.a), At(s, p.b), At(s, p.c), At(s, p.d)];
  }

  /** A filtered sublist of a fewest-games-first list is fewest-games-first. */
  lemma {:induction false} FilterAscending(f: Player -> bool, s: seq<Player>)
    requires GamesAscending(s)
    ensures GamesAscending(Filter(f, s))
  {
    if |s| > 0 {
      AscendingTail(s);
      FilterAscending(f, s[1..]);
      var rest := Filter(f, s[1..]);
      forall q | q in rest
        ensures Games(s[0]) <= Games(q)
      {
        var j :| 0 <= j < |s[1..]| && s[1..][j] == q;
        assert s[j + 1] == q;
      }
      if f(s[0]) {
        AscendingCons(s[0], rest);
      }
    }
  }

  lemma AscendingTail(s: seq<Player>)
    requires GamesAscending(s) && |s| > 0
    ensures GamesAscending(s[1..])
  {
    forall i, j | 0 <= i < j < |s[1..]|
      ensures Games(s[1..][i]) <= Games(s[1..][j])
    {
      assert s[1..][i] == s[i + 1] && s[1..][j] == s[j + 1];
    }
  }

  /** A player with no more games than anyone of an ascending list can go in front of it. */
  lemma AscendingCons(x: Player, r: seq<Player>)
    requires GamesAscending(r)
    requires forall q | q in r :: Games(x) <= Games(q)
    ensures GamesAscending([x] + r)
  {
    var t := [x] + r;
    forall i, j | 0 <= i < j < |t|
      ensures Games(t[i]) <= Games(t[j])
    {
      assert t[j] == r[j - 1];
      if i > 0 {
        assert t[i] == r[i - 1];
      } else {
        assert r[j - 1] in r;
      }
    }
  }

  /** Every position below a used position of the same bucket is used too. */
  lemma {:induction false} SlotBelow(p: Pattern, sl: Slot, j: nat)
    requires PrefixClosed(p)
    requires sl in SlotsOf(p) && j <= sl.index
    ensures Slot(sl.bucket, j) in SlotsOf(p)
    decreases sl.index - j
  {
    if j < sl.index {
      SlotBelow(p, Slot(sl.bucket, sl.index - 1), j);
    }
  }

  /**
   * Least-played-first within a bucket: every player of `s` in the same bucket as a
   * picked player, but not picked, has played at least as many games.
   */
  lemma RealizeLeastPlayedFirst(k: Kind, s: seq<Player>, sl: Slot, q: Player)
    requires GamesAscending(s)
    requires Applicable(k, s)
    requires sl in SlotsOf(PatternOf(k))
    requires q in s && InBucket(q, sl.bucket)
    requires q !in Members(Realize(k, s))
    ensures Fits(s, sl) && Games(At(s, sl)) <= Games(q)
  {
    var bucket := BucketOf(s, sl.bucket);
    PickedPrefix(k, s, sl);
    assert q in bucket;
    var idx :| 0 <= idx < |bucket| && bucket[idx] == q;
    assert idx > sl.index;
    FilterAscending(x => InBucket(x, sl.bucket), s);
    assert Games(bucket[sl.index]) <= Games(bucket[idx]);
  }

  /** A pattern that takes the `i`-th player of a bucket takes every earlier one too. */
  lemma PickedPrefix(k: Kind, s: seq<Player>, sl: Slot)
    requires Applicable(k, s)
    requires sl in SlotsOf(PatternOf(k))
    ensures Fits(s, sl)
    ensures forall j | 0 <= j <= sl.index ::
      j < |BucketOf(s, sl.bucket)| && BucketOf(s, sl.bucket)[j] in Members(Realize(k, s))
  {
    var p := PatternOf(k);
    KindSlots(k);
    assert Members(Realize(k, s)) == [At(s, p.a), At(s, p.b), At(s, p.c), At(s, p.d)];
    forall j | 0 <= j <= sl.index
      ensures j < |BucketOf(s, sl.bucket)| && BucketOf(s, sl.bucket)[j] in Members(Realize(k, s))
    {
      SlotBelow(p, sl, j);
      var t := Slot(sl.bucket, j);
      assert Fits(s, t);
      assert At(s, t) in Members(Realize(k, s));
    }
  }
}
