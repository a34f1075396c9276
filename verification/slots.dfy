/** Today's feeding checklist: the slots derived from a cat's daily
    schedule, and their reconciliation against logged feedings.

    `now` and `dayStart` (the instant of today's local midnight) are
    parameters, so one call compares every slot against the same instant. */
module Slots {
  import opened Wrappers
  import opened Clock
  import opened Labels

  /** One schedule entry materialised on today's date. */
  datatype Slot = Slot(
    text: string,  // the schedule label, e.g. "08:00"
    date: int,     // today at that hour and minute, in ms
    future: bool,  // the date is after the instant of derivation
    fed: bool      // a logged feeding carries this label
  )

  /** What reconciliation reads of a logged feeding: its optional slot
      label and its timestamp. */
  datatype FeedingMark = FeedingMark(slotLabel: Option<string>, timestamp: int)

  datatype TimeError = InvalidTimeFormat(text: string)

  /** The slot a label derives: `label`'s time today with zero seconds and
      milliseconds, stated in milliseconds after midnight as
      (H * 60 + M) * 60000, not yet fed, and future exactly when strictly
      after `now`. */
  ghost predicate DerivedSlot(s: Slot, text: string, dayStart: int, now: int) {
    && ParseLabel(text).Some?
    && var t := ParseLabel(text).value;
    && s.text == text
    && s.date == dayStart + (t.hour * 60 + t.minute) * 60000
    && (s.future <==> s.date > now)
    && !s.fed
  }

  /** The slot for one well-formed label. */
  function SlotFor(text: string, t: TimeOfDay, dayStart: int, now: int): Slot
    requires t.Valid()
  {
    var d := At(dayStart, ClockTime(t.hour, t.minute, 0, 0));
    Slot(text, d, d > now, false)
  }

  /** `buildSlotsForToday(times)`: one slot per label, in the schedule's own
      order, or the first label that is not a time of day. */
  function BuildSlotsForToday(times: seq<string>, dayStart: int, now: int)
    : (r: Result<seq<Slot>, TimeError>)
    ensures r.Success? <==> forall i :: 0 <= i < |times| ==> ParseLabel(times[i]).Some?
    ensures r.Success? ==> |r.value| == |times|
    ensures r.Success? ==>
      forall i :: 0 <= i < |times| ==> DerivedSlot(r.value[i], times[i], dayStart, now)
    ensures r.Failure? ==>
      exists i :: 0 <= i < |times| && ParseLabel(times[i]).None?
        && r.error == InvalidTimeFormat(times[i])
        && forall j :: 0 <= j < i ==> ParseLabel(times[j]).Some?
    decreases |times|
  {
    if |times| == 0 then Success([])
    else
      match ParseLabel(times[0])
      case None => Failure(InvalidTimeFormat(times[0]))
      case Some(t) =>
        match BuildSlotsForToday(times[1..], dayStart, now)
        case Failure(e) =>
          assert forall j :: 1 <= j < |times| ==> times[j] == times[1..][j - 1];
          Failure(e)
        case Success(rest) => Success([SlotFor(times[0], t, dayStart, now)] + rest)
  }

  /** A derived slot's instant is today at a whole minute. */
  lemma DerivedSlotIsToday(s: Slot, text: string, dayStart: int, now: int)
    requires DerivedSlot(s, text, dayStart, now)
    ensures StartOfDay(dayStart) <= s.date <= EndOfDay(dayStart)
    ensures (s.date - dayStart) % MsPerMinute == 0
  {
    var t := ParseLabel(text).value;
    var m := t.hour * 60 + t.minute;
    assert 0 <= m < 24 * 60;
    assert s.date - dayStart == m * MsPerMinute;
  }

  /** Every derived slot lies within today, on a whole minute. */
  lemma SlotsAreToday(times: seq<string>, dayStart: int, now: int)
    requires BuildSlotsForToday(times, dayStart, now).Success?
    ensures var slots := BuildSlotsForToday(times, dayStart, now).value;
      forall i :: 0 <= i < |slots| ==>
        StartOfDay(dayStart) <= slots[i].date <= EndOfDay(dayStart)
        && (slots[i].date - dayStart) % MsPerMinute == 0
  {
    var slots := BuildSlotsForToday(times, dayStart, now).value;
    forall i | 0 <= i < |slots|
      ensures StartOfDay(dayStart) <= slots[i].date <= EndOfDay(dayStart)
      ensures (slots[i].date - dayStart) % MsPerMinute == 0
    {
      DerivedSlotIsToday(slots[i], times[i], dayStart, now);
    }
  }

  /** One `now` per call: every future slot is later than every slot that
      is not future. */
  lemma FutureIsConsistent(times: seq<string>, dayStart: int, now: int, i: int, j: int)
    requires BuildSlotsForToday(times, dayStart, now).Success?
    requires 0 <= i < |times| && 0 <= j < |times|
    requires BuildSlotsForToday(times, dayStart, now).value[i].future
    requires !BuildSlotsForToday(times, dayStart, now).value[j].future
    ensures BuildSlotsForToday(times, dayStart, now).value[j].date
            < BuildSlotsForToday(times, dayStart, now).value[i].date
  {
    var slots := BuildSlotsForToday(times, dayStart, now).value;
    assert DerivedSlot(slots[i], times[i], dayStart, now);
    assert DerivedSlot(slots[j], times[j], dayStart, now);
  }

  /** `feedings.some(f => f.slotLabel === text)`. */
  function AnyLabelled(feedings: seq<FeedingMark>, text: string): (hit: bool)
    ensures hit <==> exists j :: 0 <= j < |feedings| && feedings[j].slotLabel == Some(text)
    decreases |feedings|
  {
    if |feedings| == 0 then false
    else
      assert forall j :: 1 <= j < |feedings| ==> feedings[j] == feedings[1..][j - 1];
      feedings[0].slotLabel == Some(text) || AnyLabelled(feedings[1..], text)
  }

  /** `markFed(slots, feedings)`: every slot keeps its label, date and
      future flag, and is fed exactly when some feeding carries its label.
      Timestamps play no part, unlabelled feedings match nothing, and the
      previous fed flag is overwritten. */
  function MarkFed(slots: seq<Slot>, feedings: seq<FeedingMark>): (r: seq<Slot>)
    ensures |r| == |slots|
    ensures forall i :: 0 <= i < |slots| ==>
      r[i].text == slots[i].text && r[i].date == slots[i].date && r[i].future == slots[i].future
    ensures forall i :: 0 <= i < |slots| ==>
      (r[i].fed <==> exists j :: 0 <= j < |feedings| && feedings[j].slotLabel == Some(slots[i].text))
  {
    seq(|slots|, i requires 0 <= i < |slots| => slots[i].(fed := AnyLabelled(feedings, slots[i].text)))
  }

  /** The labels the feedings carry. */
  function LabelsOf(feedings: seq<FeedingMark>): set<string> {
    set f | f in feedings && f.slotLabel.Some? :: f.slotLabel.value
  }

  /** Reconciliation sees nothing of the feedings but the set of labels they
      carry: not their timestamps, order, multiplicity or unlabelled ones. */
  lemma MarkFedDependsOnlyOnLabels(slots: seq<Slot>, f1: seq<FeedingMark>, f2: seq<FeedingMark>)
    requires LabelsOf(f1) == LabelsOf(f2)
    ensures MarkFed(slots, f1) == MarkFed(slots, f2)
  {
    forall i | 0 <= i < |slots|
      ensures MarkFed(slots, f1)[i] == MarkFed(slots, f2)[i]
    {
      var text := slots[i].text;
      assert AnyLabelled(f1, text) <==> text in LabelsOf(f1) by {
        if text in LabelsOf(f1) {
          var f :| f in f1 && f.slotLabel == Some(text);
        }
      }
      assert AnyLabelled(f2, text) <==> text in LabelsOf(f2) by {
        if text in LabelsOf(f2) {
          var f :| f in f2 && f.slotLabel == Some(text);
        }
      }
    }
  }

  /** The fed flags a reconciliation sets do not depend on the flags the
      slots had before. */
  lemma MarkFedOverwrites(s1: seq<Slot>, s2: seq<Slot>, feedings: seq<FeedingMark>)
    requires |s1| == |s2|
    requires forall i :: 0 <= i < |s1| ==> s1[i].(fed := false) == s2[i].(fed := false)
    ensures MarkFed(s1, feedings) == MarkFed(s2, feedings)
  {
    forall i | 0 <= i < |s1|
      ensures MarkFed(s1, feedings)[i] == MarkFed(s2, feedings)[i]
    {
      assert s1[i].text == s2[i].text;
    }
  }

  /** Reconciling twice against the same feedings changes nothing more. */
  lemma MarkFedIdempotent(slots: seq<Slot>, feedings: seq<FeedingMark>)
    ensures MarkFed(MarkFed(slots, feedings), feedings) == MarkFed(slots, feedings)
  {
    var once := MarkFed(slots, feedings);
    MarkFedOverwrites(once, slots, feedings);
  }

  /** Slots that share a label are fed together or not at all. */
  lemma SameLabelSameFed(slots: seq<Slot>, feedings: seq<FeedingMark>, i: int, j: int)
    requires 0 <= i < |slots| && 0 <= j < |slots|
    requires slots[i].text == slots[j].text
    ensures MarkFed(slots, feedings)[i].fed == MarkFed(slots, feedings)[j].fed
  {
  }
}
