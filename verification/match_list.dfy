/**
 * The per-court decisions of src/components/MatchList.jsx: which match a court
 * shows, whether a new match may be created on it, whether it may be removed,
 * and which match callbacks its card receives. Rendering is not modelled; each
 * court becomes a `CourtView` value.
 */
module MatchList {
  import opened Wrappers
  import opened Seqs
  import opened QueueRounds

  /**
   * `new Map(matches.map((m) => [m.courtId, m]))`: entries are inserted in
   * list order, so for a repeated court id the later match overwrites the earlier.
   */
  function MatchByCourtId(matches: seq<CourtMatch>): (r: map<CourtId, CourtMatch>)
    ensures r.Keys == UsedCourts(matches)
    ensures forall c | c in r :: r[c].courtId == c && r[c] in matches
  {
    if |matches| == 0 then map[]
    else
      var init := matches[..|matches| - 1];
      var last := matches[|matches| - 1];
      assert matches == init + [last];
      MatchByCourtId(init)[last.courtId := last]
  }

  /** `m` is at some position on court `c`, and no later match is on `c`. */
  ghost predicate LastOnCourt(matches: seq<CourtMatch>, c: CourtId, m: CourtMatch) {
    exists i | 0 <= i < |matches| ::
      && matches[i] == m
      && m.courtId == c
      && forall j | i < j < |matches| :: matches[j].courtId != c
  }

  /** The map holds, for each used court, the last match in the list on that court. */
  lemma {:induction false} MatchByCourtIdLast(matches: seq<CourtMatch>, c: CourtId)
    requires c in MatchByCourtId(matches)
    ensures LastOnCourt(matches, c, MatchByCourtId(matches)[c])
  {
    var init := matches[..|matches| - 1];
    var last := matches[|matches| - 1];
    var m := MatchByCourtId(matches)[c];
    if last.courtId == c {
      assert matches[|matches| - 1] == m;
    } else {
      MatchByCourtIdLast(init, c);
      var i :| 0 <= i < |init| && init[i] == m && m.courtId == c
        && forall j | i < j < |init| :: init[j].courtId != c;
      assert matches[i] == m;
      forall j | i < j < |matches|
        ensures matches[j].courtId != c
      {
        if j < |init| {
          assert matches[j] == init[j];
        }
      }
    }
  }

  /** `matchByCourtId.get(court.id) || null`; a match object is always truthy. */
  function MatchOn(matches: seq<CourtMatch>, c: CourtId): (r: Option<CourtMatch>)
    ensures r.None? <==> forall m | m in matches :: m.courtId != c
    ensures r.Some? ==> r.value.courtId == c && r.value in matches
  {
    var byCourt := MatchByCourtId(matches);
    if c in byCourt then Some(byCourt[c]) else None
  }

  /**
   * What a court card receives. A callback is modelled as the match id it
   * would report, or `None` for `undefined`.
   */
  datatype CourtView = CourtView(
    court: Court,
    shown: Option<CourtMatch>,
    canCreateNextMatch: bool,
    canRemoveCourt: bool,
    onComplete: Option<nat>,
    onCancel: Option<nat>,
    onEdit: Option<nat>)

  /**
   * The body of `courts.map`. `hasCancel` and `hasEdit` say whether the parent
   * passed `onCancelMatch` and `onEditMatch`.
   */
  function ViewOf(
    court: Court, courts: seq<Court>, matches: seq<CourtMatch>,
    canCreate: bool, availableCourtIds: seq<CourtId>, hasCancel: bool, hasEdit: bool): CourtView
  {
    var shown := MatchOn(matches, court.id);
    CourtView(
      court,
      shown,
      shown.None? && court.id in availableCourtIds && canCreate,
      |courts| > 1 && shown.None?,
      if shown.Some? then Some(shown.value.id) else None,
      if shown.Some? && hasCancel then Some(shown.value.id) else None,
      if shown.Some? && hasEdit then Some(shown.value.id) else None)
  }

  /** One card per court, in court order. */
  function CourtViews(
    courts: seq<Court>, matches: seq<CourtMatch>,
    canCreate: bool, availableCourtIds: seq<CourtId>, hasCancel: bool, hasEdit: bool): (r: seq<CourtView>)
    ensures |r| == |courts|
    ensures forall i | 0 <= i < |courts| ::
      r[i] == ViewOf(courts[i], courts, matches, canCreate, availableCourtIds, hasCancel, hasEdit)
  {
    seq(|courts|, i requires 0 <= i < |courts| =>
      ViewOf(courts[i], courts, matches, canCreate, availableCourtIds, hasCancel, hasEdit))
  }

  /** The card shows the last match in the list whose court is this court, or none if there is none. */
  lemma ShownMatch(
    court: Court, courts: seq<Court>, matches: seq<CourtMatch>,
    canCreate: bool, availableCourtIds: seq<CourtId>, hasCancel: bool, hasEdit: bool)
    ensures var v := ViewOf(court, courts, matches, canCreate, availableCourtIds, hasCancel, hasEdit);
      && (v.shown.None? <==> court.id !in UsedCourts(matches))
      && (v.shown.Some? ==> LastOnCourt(matches, court.id, v.shown.value))
  {
    var v := ViewOf(court, courts, matches, canCreate, availableCourtIds, hasCancel, hasEdit);
    if v.shown.Some? {
      MatchByCourtIdLast(matches, court.id);
    }
  }

  /** A court can be removed exactly when it is not the only court and no match is on it. */
  lemma CanRemoveCourtIff(
    court: Court, courts: seq<Court>, matches: seq<CourtMatch>,
    canCreate: bool, availableCourtIds: seq<CourtId>, hasCancel: bool, hasEdit: bool)
    ensures ViewOf(court, courts, matches, canCreate, availableCourtIds, hasCancel, hasEdit).canRemoveCourt
      <==> |courts| > 1 && forall m | m in matches :: m.courtId != court.id
  {
  }

  /** A match can be created on a court exactly when no match is on it, it is listed as available, and `canCreate` holds. */
  lemma CanCreateNextMatchIff(
    court: Court, courts: seq<Court>, matches: seq<CourtMatch>,
    canCreate: bool, availableCourtIds: seq<CourtId>, hasCancel: bool, hasEdit: bool)
    ensures ViewOf(court, courts, matches, canCreate, availableCourtIds, hasCancel, hasEdit).canCreateNextMatch
      <==> && (forall m | m in matches :: m.courtId != court.id)
           && court.id in availableCourtIds
           && canCreate
  {
  }

  /**
   * With the available ids computed by `getAvailableCourts` from the same
   * matches and courts, the availability test adds nothing for a listed court.
   */
  lemma CanCreateWithComputedAvailability(
    court: Court, courts: seq<Court>, matches: seq<CourtMatch>,
    canCreate: bool, hasCancel: bool, hasEdit: bool)
    requires court in courts
    ensures ViewOf(court, courts, matches, canCreate, GetAvailableCourts(matches, courts), hasCancel, hasEdit).canCreateNextMatch
      <==> canCreate && court.id !in UsedCourts(matches)
  {
    var i :| 0 <= i < |courts| && courts[i] == court;
    assert CourtIds(courts)[i] == court.id;
  }

  /**
   * The complete callback is offered exactly when a match is shown, cancel and
   * edit also need the parent's handler, and each reports the shown match's id.
   */
  lemma CallbacksNeedMatch(
    court: Court, courts: seq<Court>, matches: seq<CourtMatch>,
    canCreate: bool, availableCourtIds: seq<CourtId>, hasCancel: bool, hasEdit: bool)
    ensures var v := ViewOf(court, courts, matches, canCreate, availableCourtIds, hasCancel, hasEdit);
      && (v.onComplete.Some? <==> court.id in UsedCourts(matches))
      && (v.onCancel.Some? <==> court.id in UsedCourts(matches) && hasCancel)
      && (v.onEdit.Some? <==> court.id in UsedCourts(matches) && hasEdit)
      && (v.onComplete.Some? ==> v.shown.Some? && v.onComplete.value == v.shown.value.id)
      && (v.onCancel.Some? ==> v.onCancel == v.onComplete)
      && (v.onEdit.Some? ==> v.onEdit == v.onComplete)
  {
  }

  /** A court with a match on it can neither take a new match nor be removed. */
  lemma BusyCourtLocked(
    court: Court, courts: seq<Court>, matches: seq<CourtMatch>,
    canCreate: bool, availableCourtIds: seq<CourtId>, hasCancel: bool, hasEdit: bool)
    requires court.id in UsedCourts(matches)
    ensures var v := ViewOf(court, courts, matches, canCreate, availableCourtIds, hasCancel, hasEdit);
      !v.canCreateNextMatch && !v.canRemoveCourt && v.onComplete.Some?
  {
  }

  /** The only court is never removable. */
  lemma LastCourtKept(
    court: Court, matches: seq<CourtMatch>,
    canCreate: bool, availableCourtIds: seq<CourtId>, hasCancel: bool, hasEdit: bool)
    ensures !ViewOf(court, [court], matches, canCreate, availableCourtIds, hasCancel, hasEdit).canRemoveCourt
  {
  }
}
