/** The feed screen's checklist: today's slots for the selected cat,
    reconciled against that cat's feedings of today, and the rule that
    decides which slots can still be ticked. */
module Checklist {
  import opened Wrappers
  import opened Clock
  import opened Labels
  import opened Slots
  import opened Feedings

  /** A stored feeding as reconciliation reads it. */
  function MarkOf(f: Feeding): (m: FeedingMark)
    ensures m.slotLabel == f.slotLabel && m.timestamp == f.timestamp
  {
    FeedingMark(f.slotLabel, f.timestamp)
  }

  function MarksOf(fs: seq<Feeding>): (ms: seq<FeedingMark>)
    ensures |ms| == |fs|
    ensures forall i :: 0 <= i < |fs| ==> ms[i] == MarkOf(fs[i])
  {
    seq(|fs|, i requires 0 <= i < |fs| => MarkOf(fs[i]))
  }

  /** The selected cat's checklist: no schedule gives no slots; otherwise
      the slots of its schedule, marked against its feedings of today. */
  function TodaysChecklist(
    times: Option<seq<string>>, feedings: seq<Feeding>, catId: string, dayStart: int, now: int)
    : (r: Result<seq<Slot>, TimeError>)
    ensures times.None? ==> r == Success([])
    ensures times.Some? ==>
      (r.Success? <==> forall i :: 0 <= i < |times.value| ==> ParseLabel(times.value[i]).Some?)
    ensures times.Some? && r.Success? ==>
      |r.value| == |times.value|
      && forall i :: 0 <= i < |times.value| ==> r.value[i].text == times.value[i]
    ensures times.Some? && r.Failure? ==> ParseLabel(r.error.text).None? && r.error.text in times.value
  {
    match times
    case None => Success([])
    case Some(ts) =>
      match BuildSlotsForToday(ts, dayStart, now)
      case Failure(e) => Failure(e)
      case Success(base) =>
        Success(MarkFed(base, MarksOf(GetForCatToday(feedings, catId, dayStart))))
  }

  /** End to end: the checklist has one slot per schedule label, in order,
      each keeping the instant derived from its label and the future flag
      that instant gives, and a slot is fed
      exactly when the cat has a feeding today that carries its label. */
  lemma ChecklistFedIff(
    ts: seq<string>, feedings: seq<Feeding>, catId: string, dayStart: int, now: int)
    requires BuildSlotsForToday(ts, dayStart, now).Success?
    ensures TodaysChecklist(Some(ts), feedings, catId, dayStart, now).Success?
    ensures var slots := TodaysChecklist(Some(ts), feedings, catId, dayStart, now).value;
      && |slots| == |ts|
      && forall i :: 0 <= i < |ts| ==>
        && slots[i].text == ts[i]
        && slots[i].date == BuildSlotsForToday(ts, dayStart, now).value[i].date
        && (slots[i].future <==> slots[i].date > now)
        && (slots[i].fed <==>
              exists f :: f in feedings && IsForCatToday(f, catId, dayStart)
                          && f.slotLabel == Some(ts[i]))
  {
    var base := BuildSlotsForToday(ts, dayStart, now).value;
    var marks := MarksOf(GetForCatToday(feedings, catId, dayStart));
    var slots := MarkFed(base, marks);
    forall i | 0 <= i < |ts|
      ensures slots[i].text == ts[i]
      ensures slots[i].date == base[i].date
      ensures slots[i].future <==> slots[i].date > now
      ensures slots[i].fed <==>
              exists f :: f in feedings && IsForCatToday(f, catId, dayStart)
                          && f.slotLabel == Some(ts[i])
    {
      assert DerivedSlot(base[i], ts[i], dayStart, now);
      TodayCarriesLabel(feedings, catId, dayStart, ts[i]);
    }
  }

  /** Some feeding of today's list carries `text` exactly when some feeding
      of the snapshot belongs to the cat, lies in today's window and
      carries `text`. */
  lemma TodayCarriesLabel(feedings: seq<Feeding>, catId: string, dayStart: int, text: string)
    ensures (exists j :: 0 <= j < |MarksOf(GetForCatToday(feedings, catId, dayStart))|
               && MarksOf(GetForCatToday(feedings, catId, dayStart))[j].slotLabel == Some(text))
            <==> exists f :: f in feedings && IsForCatToday(f, catId, dayStart) && f.slotLabel == Some(text)
  {
    var today := GetForCatToday(feedings, catId, dayStart);
    var marks := MarksOf(today);
    if j :| 0 <= j < |marks| && marks[j].slotLabel == Some(text) {
      TodayMembersMatch(today, feedings, catId, dayStart, j);
    }
    if f :| f in feedings && IsForCatToday(f, catId, dayStart) && f.slotLabel == Some(text) {
      var k :| 0 <= k < |feedings| && feedings[k] == f;
      var j :| 0 <= j < |today| && today[j] == f;
      assert marks[j].slotLabel == Some(text);
    }
  }

  /** Every feeding of today's list comes from the snapshot and matches. */
  lemma TodayMembersMatch(
    today: seq<Feeding>, feedings: seq<Feeding>, catId: string, dayStart: int, j: int)
    requires today == GetForCatToday(feedings, catId, dayStart)
    requires 0 <= j < |today|
    ensures today[j] in feedings && IsForCatToday(today[j], catId, dayStart)
  {
    GetForCatTodayCounts(feedings, catId, dayStart, today[j]);
    assert today[j] in multiset(today);
  }

  /** A slot row can be ticked when its time has come and it is not fed. */
  predicate Actionable(s: Slot) {
    !(s.future || s.fed)
  }

  /** Ticking a slot logs a feeding with its label. Once the server has
      committed that document at an instant of today and the snapshot
      holds it, every slot with that label is fed and none of them can be
      ticked again. */
  lemma TickedSlotBecomesFed(
    ts: seq<string>, docs: seq<(string, FeedingDoc)>, catId: string, dayStart: int, now: int,
    i: int, k: int, uid: Option<string>, t: int, readNow: int)
    requires BuildSlotsForToday(ts, dayStart, now).Success?
    requires 0 <= i < |ts|
    requires dayStart <= t < dayStart + MsPerDay
    requires 0 <= k < |docs|
    requires docs[k].1 == ServerCommit(LogFeeding(catId, Some(ts[i]), uid), t)
    ensures var slots := TodaysChecklist(Some(ts), ReadSnapshot(docs, readNow), catId, dayStart, now).value;
      forall j :: 0 <= j < |ts| && ts[j] == ts[i] ==> slots[j].fed && !Actionable(slots[j])
  {
    var feedings := ReadSnapshot(docs, readNow);
    LogReadRoundTrip(docs[k].0, catId, Some(ts[i]), uid, t, readNow);
    var f := Feeding(docs[k].0, catId, t, Some(ts[i]), uid);
    assert feedings[k] == f;
    DayWindowIsWholeDay(dayStart, t);
    assert IsForCatToday(f, catId, dayStart);
    ChecklistFedIff(ts, feedings, catId, dayStart, now);
  }

  /** A checklist slot can be ticked exactly when its instant is not after
      `now` and the cat has no feeding today that carries its label. */
  lemma ChecklistActionableIff(
    ts: seq<string>, feedings: seq<Feeding>, catId: string, dayStart: int, now: int, i: int)
    requires BuildSlotsForToday(ts, dayStart, now).Success?
    requires 0 <= i < |ts|
    ensures var s := TodaysChecklist(Some(ts), feedings, catId, dayStart, now).value[i];
      Actionable(s) <==>
        s.date <= now
        && !exists f :: f in feedings && IsForCatToday(f, catId, dayStart) && f.slotLabel == Some(ts[i])
  {
    ChecklistFedIff(ts, feedings, catId, dayStart, now);
  }

  /** Before any reconciliation, a slot is actionable exactly when its
      instant is not after `now`: past and present slots are due. */
  lemma DueSlotsAreActionable(ts: seq<string>, dayStart: int, now: int, i: int)
    requires BuildSlotsForToday(ts, dayStart, now).Success?
    requires 0 <= i < |ts|
    ensures var s := BuildSlotsForToday(ts, dayStart, now).value[i];
      Actionable(s) <==> s.date <= now
  {
    assert DerivedSlot(BuildSlotsForToday(ts, dayStart, now).value[i], ts[i], dayStart, now);
  }
}
