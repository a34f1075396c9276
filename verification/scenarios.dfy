/** Concrete checklists for one day. */
module Scenarios {
  import opened Wrappers
  import opened Clock
  import opened Labels
  import opened Slots

  /** Hours 24 and above are not a time of day: deriving fails on the label. */
  lemma OutOfRangeHourFails(dayStart: int, now: int)
    ensures BuildSlotsForToday(["25:00"], dayStart, now) == Failure(InvalidTimeFormat("25:00"))
  {
    assert ParseLabel("25:00").None? by {
      SplitAtFirst("25", "00", ':');
      SplitAtFirst("00", [], ':');
      assert "25:00" == "25" + [':'] + "00";
      DecimalOfTwoDigits("25");
    }
  }

  /** At 14:00, the 08:00 slot is due and the 20:00 slot is still ahead;
      a feeding labelled "08:00" marks only the first. */
  lemma MorningAndEvening(dayStart: int)
    ensures var now := dayStart + 14 * MsPerHour;
      var r := BuildSlotsForToday(["08:00", "20:00"], dayStart, now);
      && r.Success?
      && !r.value[0].future && r.value[1].future
      && !r.value[0].fed && !r.value[1].fed
      && var marked := MarkFed(r.value, [FeedingMark(Some("08:00"), now - 6 * MsPerHour + 5 * MsPerMinute)]);
      marked[0].fed && !marked[1].fed
  {
    var now := dayStart + 14 * MsPerHour;
    ParseFormat(TimeOfDay(8, 0));
    ParseFormat(TimeOfDay(20, 0));
    assert FormatLabel(TimeOfDay(8, 0)) == "08:00";
    assert FormatLabel(TimeOfDay(20, 0)) == "20:00";
    var r := BuildSlotsForToday(["08:00", "20:00"], dayStart, now);
    assert DerivedSlot(r.value[0], "08:00", dayStart, now);
    assert DerivedSlot(r.value[1], "20:00", dayStart, now);
  }

  /** Two slots sharing the label "09:00" are both fed by one feeding. */
  lemma DuplicateLabelsFedTogether(dayStart: int, now: int)
    ensures var r := BuildSlotsForToday(["09:00", "09:00"], dayStart, now);
      && r.Success?
      && var marked := MarkFed(r.value, [FeedingMark(Some("09:00"), dayStart)]);
      marked[0].fed && marked[1].fed
  {
    ParseFormat(TimeOfDay(9, 0));
    assert FormatLabel(TimeOfDay(9, 0)) == "09:00";
  }
}
