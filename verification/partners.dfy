/**
 * `randomizePartners` (src/utils/queueMatcher.js:58-86): re-pair the four
 * players of a match while keeping its gender and category pattern.
 */
module Partners {
  import opened Wrappers
  import opened Seqs
  import opened Players
  import opened Shuffling

  predicate IsBeginner(p: Player) { p.category == Some(Beginners) }
  predicate IsIntermediate(p: Player) { p.category == Some(Intermediate) }
  predicate IsMale(p: Player) { p.gender == Some(Male) }
  predicate IsFemale(p: Player) { p.gender == Some(Female) }

  /**
   * The source as written. `None` stands for a result in which some team holds
   * `undefined`: the code indexes `beginners[1]`, `intermediates[1]`, `males[1]`,
   * `females[1]` or `all[3]` without checking the list is that long.
   */
  function RandomizePartnersAsWritten(m: Match, rng: Rng): (r: (Option<Match>, Rng))
    ensures Balanced(m) ==> r.0.Some?
  {
    var all := Members(m);
    var genderSig := TeamGenderSignature(m.team1);
    var categorySig := TeamCategorySignature(m.team1);
    if genderSig == MM || genderSig == FF then
      var (shuffled, rng1) := Shuffle(all, rng);
      if categorySig == BI then
        var beginners := Filter(IsBeginner, shuffled);
        var intermediates := Filter(IsIntermediate, shuffled);
        CategoryCounts(m);
        FilterPermutation(IsBeginner, shuffled, all);
        FilterPermutation(IsIntermediate, shuffled, all);
        if |beginners| >= 2 && |intermediates| >= 2 then
          (Some(Match([beginners[0], intermediates[0]], [beginners[1], intermediates[1]])), rng1)
        else
          (None, rng1)
      else if |shuffled| >= 4 then
        (Some(Match([shuffled[0], shuffled[1]], [shuffled[2], shuffled[3]])), rng1)
      else
        (None, rng1)
    else
      var (males, rng1) := Shuffle(Filter(IsMale, all), rng);
      var (females, rng2) := Shuffle(Filter(IsFemale, all), rng1);
      if categorySig == BB || categorySig == II then
        GenderCounts(m);
        if |males| >= 2 && |females| >= 2 then
          (Some(Match([males[0], females[0]], [males[1], females[1]])), rng2)
        else
          (None, rng2)
      else
        (Some(m), rng2)
  }

  lemma FilterPair(f: Player -> bool, x: Player, y: Player)
    ensures Filter(f, [x, y]) == (if f(x) then [x] else []) + (if f(y) then [y] else [])
  {
    assert [x, y][1..] == [y];
    assert [y][1..] == [];
  }

  lemma PairGenderSignature(x: Player, y: Player)
    requires x.gender.Some? && y.gender.Some?
    ensures TeamGenderSignature([x, y]) == MM <==> IsMale(x) && IsMale(y)
    ensures TeamGenderSignature([x, y]) == FF <==> IsFemale(x) && IsFemale(y)
    ensures TeamGenderSignature([x, y]) == MF <==> IsMale(x) != IsMale(y)
  {
    assert x in [x, y] && y in [x, y];
    if IsMale(x) != IsMale(y) {
      assert !IsMale(x) ==> !(forall p | p in [x, y] :: p.gender == Some(Male));
      assert !IsMale(y) ==> !(forall p | p in [x, y] :: p.gender == Some(Male));
      assert IsMale(x) ==> !(forall p | p in [x, y] :: p.gender == Some(Female));
      assert IsMale(y) ==> !(forall p | p in [x, y] :: p.gender == Some(Female));
    } else if !IsMale(x) {
      assert x.gender.value.Female? && y.gender.value.Female?;
      assert IsFemale(x) && IsFemale(y);
    }
  }

  lemma PairCategorySignature(x: Player, y: Player)
    requires x.category.Some? && y.category.Some?
    ensures TeamCategorySignature([x, y]) == BB <==> IsBeginner(x) && IsBeginner(y)
    ensures TeamCategorySignature([x, y]) == II <==> IsIntermediate(x) && IsIntermediate(y)
    ensures TeamCategorySignature([x, y]) == BI <==> IsBeginner(x) != IsBeginner(y)
  {
    assert x in [x, y] && y in [x, y];
    if IsBeginner(x) != IsBeginner(y) {
      assert !IsBeginner(x) ==> !(forall p | p in [x, y] :: p.category == Some(Beginners));
      assert !IsBeginner(y) ==> !(forall p | p in [x, y] :: p.category == Some(Beginners));
      assert IsBeginner(x) ==> !(forall p | p in [x, y] :: p.category == Some(Intermediate));
      assert IsBeginner(y) ==> !(forall p | p in [x, y] :: p.category == Some(Intermediate));
    } else if !IsBeginner(x) {
      assert x.category.value.Intermediate? && y.category.value.Intermediate?;
      assert IsIntermediate(x) && IsIntermediate(y);
    }
  }

  /** The number of players of a two-player team that satisfy `f`. */
  lemma PairCount(f: Player -> bool, t: seq<Player>)
    requires |t| == 2
    ensures |Filter(f, t)| == (if f(t[0]) then 1 else 0) + (if f(t[1]) then 1 else 0)
  {
    assert t == [t[0], t[1]];
    FilterPair(f, t[0], t[1]);
  }

  /** The number of players among `a + b` that satisfy `f`, two players per team. */
  lemma TwoTeamsCount(f: Player -> bool, a: seq<Player>, b: seq<Player>)
    requires |a| == 2 && |b| == 2
    ensures |Filter(f, a + b)|
         == (if f(a[0]) then 1 else 0) + (if f(a[1]) then 1 else 0)
          + (if f(b[0]) then 1 else 0) + (if f(b[1]) then 1 else 0)
  {
    FilterConcat(f, a, b);
    PairCount(f, a);
    PairCount(f, b);
  }

  /** Every member of a well-formed match has a known gender and category. */
  lemma WellFormedMembers(m: Match)
    requires WellFormed(m)
    ensures m.team1[0].gender.Some? && m.team1[1].gender.Some?
    ensures m.team2[0].gender.Some? && m.team2[1].gender.Some?
    ensures m.team1[0].category.Some? && m.team1[1].category.Some?
    ensures m.team2[0].category.Some? && m.team2[1].category.Some?
  {
    assert m.team1[0] in Members(m) && m.team1[1] in Members(m);
    assert Members(m)[2] == m.team2[0] && Members(m)[3] == m.team2[1];
  }

  /** A known gender is one of the two. */
  lemma KnownGender(p: Player)
    requires p.gender.Some?
    ensures IsFemale(p) == !IsMale(p)
  {
    assert p.gender.value.Male? || p.gender.value.Female?;
  }

  /** A known category is one of the two. */
  lemma KnownCategory(p: Player)
    requires p.category.Some?
    ensures IsIntermediate(p) == !IsBeginner(p)
  {
    assert p.category.value.Beginners? || p.category.value.Intermediate?;
  }

  /** A mixed-gender balanced match has two men and two women. */
  lemma GenderCounts(m: Match)
    ensures WellFormed(m) && TeamGenderSignature(m.team1) == MF && TeamGenderSignature(m.team2) == MF ==>
      |Filter(IsMale, Members(m))| == 2 && |Filter(IsFemale, Members(m))| == 2
  {
    if WellFormed(m) && TeamGenderSignature(m.team1) == MF && TeamGenderSignature(m.team2) == MF {
      WellFormedMembers(m);
      assert m.team1 == [m.team1[0], m.team1[1]] && m.team2 == [m.team2[0], m.team2[1]];
      PairGenderSignature(m.team1[0], m.team1[1]);
      PairGenderSignature(m.team2[0], m.team2[1]);
      KnownGender(m.team1[0]);
      KnownGender(m.team1[1]);
      KnownGender(m.team2[0]);
      KnownGender(m.team2[1]);
      TwoTeamsCount(IsMale, m.team1, m.team2);
      TwoTeamsCount(IsFemale, m.team1, m.team2);
    }
  }

  /** How many beginners and intermediates a match whose first team is mixed-category holds. */
  lemma CategoryCounts(m: Match)
    ensures WellFormed(m) && TeamCategorySignature(m.team1) == BI ==>
      match TeamCategorySignature(m.team2)
      case BI => |Filter(IsBeginner, Members(m))| == 2 && |Filter(IsIntermediate, Members(m))| == 2
      case BB => |Filter(IsIntermediate, Members(m))| == 1
      case II => |Filter(IsBeginner, Members(m))| == 1
  {
    if WellFormed(m) && TeamCategorySignature(m.team1) == BI {
      WellFormedMembers(m);
      assert m.team1 == [m.team1[0], m.team1[1]] && m.team2 == [m.team2[0], m.team2[1]];
      PairCategorySignature(m.team1[0], m.team1[1]);
      PairCategorySignature(m.team2[0], m.team2[1]);
      KnownCategory(m.team1[0]);
      KnownCategory(m.team1[1]);
      KnownCategory(m.team2[0]);
      KnownCategory(m.team2[1]);
      TwoTeamsCount(IsBeginner, m.team1, m.team2);
      TwoTeamsCount(IsIntermediate, m.team1, m.team2);
    }
  }

  /** What a balanced match says about each of its four players. */
  ghost predicate FitsSignatures(p: Player, g: GenderSignature, c: CategorySignature) {
    && p.gender.Some? && p.category.Some?
    && (g == MM ==> IsMale(p)) && (g == FF ==> IsFemale(p))
    && (c == BB ==> IsBeginner(p)) && (c == II ==> IsIntermediate(p))
  }

  lemma BalancedMembers(m: Match)
    requires Balanced(m)
    ensures forall p | p in Members(m) ::
      FitsSignatures(p, TeamGenderSignature(m.team1), TeamCategorySignature(m.team1))
  {
    forall p | p in Members(m)
      ensures FitsSignatures(p, TeamGenderSignature(m.team1), TeamCategorySignature(m.team1))
    {
      assert p in m.team1 || p in m.team2;
    }
  }

  /** Four players with known fields whose two pairs carry equal signatures form a balanced match. */
  lemma BuildBalanced(a: Player, b: Player, c: Player, d: Player)
    requires a.gender.Some? && b.gender.Some? && c.gender.Some? && d.gender.Some?
    requires a.category.Some? && b.category.Some? && c.category.Some? && d.category.Some?
    requires TeamGenderSignature([a, b]) == TeamGenderSignature([c, d])
    requires TeamCategorySignature([a, b]) == TeamCategorySignature([c, d])
    ensures Balanced(Match([a, b], [c, d]))
  {
    assert Members(Match([a, b], [c, d])) == [a, b, c, d];
  }

  /** Two beginners and two intermediates of one gender, paired one of each, form a balanced match. */
  lemma PairOffCategories(b0: Player, b1: Player, i0: Player, i1: Player, g: GenderSignature)
    requires g != MF
    requires FitsSignatures(b0, g, BI) && FitsSignatures(b1, g, BI)
    requires FitsSignatures(i0, g, BI) && FitsSignatures(i1, g, BI)
    requires IsBeginner(b0) && IsBeginner(b1) && IsIntermediate(i0) && IsIntermediate(i1)
    ensures Balanced(Match([b0, i0], [b1, i1]))
    ensures TeamGenderSignature([b0, i0]) == g && TeamCategorySignature([b0, i0]) == BI
  {
    PairGenderSignature(b0, i0);
    PairGenderSignature(b1, i1);
    PairCategorySignature(b0, i0);
    PairCategorySignature(b1, i1);
    BuildBalanced(b0, i0, b1, i1);
  }

  /** Pairing the first of `a` with the first of `b`, and the seconds, keeps the same players. */
  lemma PairOffMultiset(a: seq<Player>, b: seq<Player>)
    requires |a| == 2 && |b| == 2
    ensures multiset(Members(Match([a[0], b[0]], [a[1], b[1]]))) == multiset(a) + multiset(b)
  {
    assert a == [a[0], a[1]] && b == [b[0], b[1]];
    CrossPairs(a[0], a[1], b[0], b[1]);
  }

  /** Same-gender, mixed-category branch: beginners and intermediates paired off one of each. */
  lemma SameGenderMixedCategory(m: Match, sh: seq<Player>)
    requires Balanced(m)
    requires TeamGenderSignature(m.team1) != MF && TeamCategorySignature(m.team1) == BI
    requires multiset(sh) == multiset(Members(m))
    ensures |Filter(IsBeginner, sh)| == 2 && |Filter(IsIntermediate, sh)| == 2
    ensures
      var beginners := Filter(IsBeginner, sh);
      var intermediates := Filter(IsIntermediate, sh);
      var x := Match([beginners[0], intermediates[0]], [beginners[1], intermediates[1]]);
      && Balanced(x)
      && multiset(Members(x)) == multiset(Members(m))
      && TeamGenderSignature(x.team1) == TeamGenderSignature(m.team1)
      && TeamCategorySignature(x.team1) == BI
  {
    var g := TeamGenderSignature(m.team1);
    CategoryCounts(m);
    FilterPermutation(IsBeginner, sh, Members(m));
    FilterPermutation(IsIntermediate, sh, Members(m));
    BalancedMembers(m);
    var beginners := Filter(IsBeginner, sh);
    var intermediates := Filter(IsIntermediate, sh);
    forall p | p in sh
      ensures FitsSignatures(p, g, BI) && IsIntermediate(p) == !IsBeginner(p)
    {
      assert p in multiset(Members(m));
      KnownCategory(p);
    }
    assert beginners[0] in beginners && beginners[1] in beginners;
    assert intermediates[0] in intermediates && intermediates[1] in intermediates;
    PairOffCategories(beginners[0], beginners[1], intermediates[0], intermediates[1], g);
    FilterPartition(IsBeginner, IsIntermediate, sh);
    PairOffMultiset(beginners, intermediates);
  }

  /** Same-gender, same-category branch: the first four of the shuffle, two by two. */
  lemma SameGenderSameCategory(m: Match, sh: seq<Player>)
    requires Balanced(m)
    requires TeamGenderSignature(m.team1) != MF && TeamCategorySignature(m.team1) != BI
    requires multiset(sh) == multiset(Members(m))
    ensures |sh| == 4
    ensures
      var x := Match([sh[0], sh[1]], [sh[2], sh[3]]);
      && Balanced(x)
      && multiset(Members(x)) == multiset(Members(m))
      && TeamGenderSignature(x.team1) == TeamGenderSignature(m.team1)
      && TeamCategorySignature(x.team1) == TeamCategorySignature(m.team1)
  {
    var g, c := TeamGenderSignature(m.team1), TeamCategorySignature(m.team1);
    assert |multiset(sh)| == |sh| && |multiset(Members(m))| == |Members(m)|;
    BalancedMembers(m);
    forall p | p in sh
      ensures FitsSignatures(p, g, c)
    {
      assert p in multiset(Members(m));
    }
    assert sh[0] in sh && sh[1] in sh && sh[2] in sh && sh[3] in sh;
    PairGenderSignature(sh[0], sh[1]);
    PairGenderSignature(sh[2], sh[3]);
    PairCategorySignature(sh[0], sh[1]);
    PairCategorySignature(sh[2], sh[3]);
    BuildBalanced(sh[0], sh[1], sh[2], sh[3]);
    assert Members(Match([sh[0], sh[1]], [sh[2], sh[3]])) == sh;
  }

  /** Two men and two women of one category, each man with a woman, form a balanced match. */
  lemma PairOffGenders(m0: Player, m1: Player, f0: Player, f1: Player, c: CategorySignature)
    requires c != BI
    requires FitsSignatures(m0, MF, c) && FitsSignatures(m1, MF, c)
    requires FitsSignatures(f0, MF, c) && FitsSignatures(f1, MF, c)
    requires IsMale(m0) && IsMale(m1) && IsFemale(f0) && IsFemale(f1)
    ensures Balanced(Match([m0, f0], [m1, f1]))
    ensures TeamGenderSignature([m0, f0]) == MF && TeamCategorySignature([m0, f0]) == c
  {
    KnownGender(f0);
    KnownGender(f1);
    PairGenderSignature(m0, f0);
    PairGenderSignature(m1, f1);
    PairCategorySignature(m0, f0);
    PairCategorySignature(m1, f1);
    BuildBalanced(m0, f0, m1, f1);
  }

  /** Mixed-gender, same-category branch: each man paired with a woman. */
  lemma MixedGenderSameCategory(m: Match, males: seq<Player>, females: seq<Player>)
    requires Balanced(m)
    requires TeamGenderSignature(m.team1) == MF && TeamCategorySignature(m.team1) != BI
    requires multiset(males) == multiset(Filter(IsMale, Members(m)))
    requires multiset(females) == multiset(Filter(IsFemale, Members(m)))
    ensures |males| == 2 && |females| == 2
    ensures
      var x := Match([males[0], females[0]], [males[1], females[1]]);
      && Balanced(x)
      && multiset(Members(x)) == multiset(Members(m))
      && TeamGenderSignature(x.team1) == MF
      && TeamCategorySignature(x.team1) == TeamCategorySignature(m.team1)
  {
    var c := TeamCategorySignature(m.team1);
    GenderCounts(m);
    assert |multiset(males)| == |males| && |multiset(females)| == |females|;
    BalancedMembers(m);
    forall p | p in Members(m)
      ensures IsFemale(p) == !IsMale(p)
    {
      KnownGender(p);
    }
    forall p | p in males
      ensures FitsSignatures(p, MF, c) && IsMale(p)
    {
      assert p in multiset(Filter(IsMale, Members(m)));
    }
    forall p | p in females
      ensures FitsSignatures(p, MF, c) && IsFemale(p)
    {
      assert p in multiset(Filter(IsFemale, Members(m)));
    }
    assert males[0] in males && males[1] in males && females[0] in females && females[1] in females;
    PairOffGenders(males[0], males[1], females[0], females[1], c);
    FilterPartition(IsMale, IsFemale, Members(m));
    PairOffMultiset(males, females);
  }

  /**
   * On a balanced match the source re-pairs the four players into another
   * balanced match with the same signatures (MF with BI is returned as is).
   */
  lemma RandomizeBalanced(m: Match, rng: Rng)
    requires Balanced(m)
    ensures RandomizePartnersAsWritten(m, rng).0.Some?
    ensures
      var x := RandomizePartnersAsWritten(m, rng).0.value;
      && Balanced(x)
      && multiset(Members(x)) == multiset(Members(m))
      && TeamGenderSignature(x.team1) == TeamGenderSignature(m.team1)
      && TeamCategorySignature(x.team1) == TeamCategorySignature(m.team1)
    ensures TeamGenderSignature(m.team1) == MF && TeamCategorySignature(m.team1) == BI ==>
      RandomizePartnersAsWritten(m, rng).0 == Some(m)
  {
    var all := Members(m);
    var genderSig := TeamGenderSignature(m.team1);
    var categorySig := TeamCategorySignature(m.team1);
    if genderSig == MM || genderSig == FF {
      var (shuffled, _) := Shuffle(all, rng);
      if categorySig == BI {
        SameGenderMixedCategory(m, shuffled);
      } else {
        SameGenderSameCategory(m, shuffled);
      }
    } else {
      var (males, rng1) := Shuffle(Filter(IsMale, all), rng);
      var (females, _) := Shuffle(Filter(IsFemale, all), rng1);
      if categorySig == BB || categorySig == II {
        MixedGenderSameCategory(m, males, females);
      }
    }
  }

  /**
   * Where the re-pairing puts whom: a mixed-gender match gets a man first and a
   * woman second on each team; a same-gender mixed-category match gets a
   * beginner first and an intermediate second on each team.
   */
  lemma RandomizeSlots(m: Match, rng: Rng)
    requires Balanced(m)
    ensures
      var x := RandomizePartnersAsWritten(m, rng).0.value;
      && |x.team1| == 2 && |x.team2| == 2
      && (TeamGenderSignature(m.team1) == MF && TeamCategorySignature(m.team1) != BI ==>
            IsMale(x.team1[0]) && IsFemale(x.team1[1]) && IsMale(x.team2[0]) && IsFemale(x.team2[1]))
      && (TeamGenderSignature(m.team1) != MF && TeamCategorySignature(m.team1) == BI ==>
            IsBeginner(x.team1[0]) && IsIntermediate(x.team1[1]) && IsBeginner(x.team2[0]) && IsIntermediate(x.team2[1]))
  {
    RandomizeBalanced(m, rng);
    var x := RandomizePartnersAsWritten(m, rng).0.value;
    var all := Members(m);
    var genderSig := TeamGenderSignature(m.team1);
    var categorySig := TeamCategorySignature(m.team1);
    if genderSig != MF && categorySig == BI {
      var (shuffled, _) := Shuffle(all, rng);
      SameGenderMixedCategory(m, shuffled);
      var beginners := Filter(IsBeginner, shuffled);
      var intermediates := Filter(IsIntermediate, shuffled);
      assert x == Match([beginners[0], intermediates[0]], [beginners[1], intermediates[1]]);
      assert beginners[0] in beginners && beginners[1] in beginners;
      assert intermediates[0] in intermediates && intermediates[1] in intermediates;
    } else if genderSig == MF && categorySig != BI {
      var (males, rng1) := Shuffle(Filter(IsMale, all), rng);
      var (females, _) := Shuffle(Filter(IsFemale, all), rng1);
      MixedGenderSameCategory(m, males, females);
      assert x == Match([males[0], females[0]], [males[1], females[1]]);
      forall p | p in males
        ensures IsMale(p)
      {
        assert p in multiset(Filter(IsMale, all));
      }
      forall p | p in females
        ensures IsFemale(p)
      {
        assert p in multiset(Filter(IsFemale, all));
      }
      assert males[0] in males && males[1] in males;
      assert females[0] in females && females[1] in females;
    }
  }

  /**
   * On the three-of-a-kind fallback match the source reads past the end of the
   * beginners or intermediates list: there is no `Some` result to return.
   */
  lemma FallbackReadsPastEnd(m: Match, rng: Rng)
    requires FallbackShape(m)
    ensures RandomizePartnersAsWritten(m, rng).0.None?
  {
    var (shuffled, _) := Shuffle(Members(m), rng);
    CategoryCounts(m);
    FilterPermutation(IsBeginner, shuffled, Members(m));
    FilterPermutation(IsIntermediate, shuffled, Members(m));
  }

  /** A concrete fallback match: three male beginners and one male intermediate. */
  function FallbackExample(): (m: Match)
    ensures FallbackShape(m)
  {
    var b := Player(0, "", Some(Beginners), Some(Male), None, 0);
    var i := Player(1, "", Some(Intermediate), Some(Male), None, 0);
    var m := Match([i, b], [b, b]);
    assert Members(m) == [i, b, b, b];
    assert TeamCategorySignature(m.team1) == BI by {
      PairCategorySignature(i, b);
    }
    m
  }

  /**
   * `randomizePartners` with the reading past the end removed: when the source
   * would build a team holding `undefined`, the original pairing is kept, as the
   * source already does for a mixed-gender, mixed-category match.
   */
  function RandomizePartners(m: Match, rng: Rng): (r: (Match, Rng))
    ensures Balanced(m) ==>
      && Balanced(r.0)
      && multiset(Members(r.0)) == multiset(Members(m))
      && TeamGenderSignature(r.0.team1) == TeamGenderSignature(m.team1)
      && TeamCategorySignature(r.0.team1) == TeamCategorySignature(m.team1)
    ensures FallbackShape(m) ==> r.0 == m
    ensures TeamGenderSignature(m.team1) == MF && TeamCategorySignature(m.team1) == BI ==> r.0 == m
    ensures r.1 == RandomizePartnersAsWritten(m, rng).1
  {
    var (res, rng1) := RandomizePartnersAsWritten(m, rng);
    if Balanced(m) then RandomizeBalanced(m, rng); (res.GetOr(m), rng1)
    else if FallbackShape(m) then FallbackReadsPastEnd(m, rng); (res.GetOr(m), rng1)
    else (res.GetOr(m), rng1)
  }
}
