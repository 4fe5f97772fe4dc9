/**
  The weekly opening template and the slots it offers on a day: the app's
  `SCHEDULE`, `SLOT_MINUTES`, `slotIteratorBySchedule` and `isClosed`.
  The day of the week (0 = Sunday ... 6 = Saturday) is an input; times are
  minute offsets from the day's local midnight.
 */
module Schedule {
  import opened Common
  import Clock

  /** Length of one bookable slot, in minutes. */
  const SlotMinutes: nat := 30

  /** One day's opening hours, as the template writes them. */
  datatype Rule = Rule(start: string, end: string)

  /**
    The weekly template. Monday to Friday open 09:30-19:00, Saturday
    09:00-14:00, Sunday closed; any other key is absent from the template
    and reads as closed too.
   */
  function Template(dow: int): (r: Option<Rule>)
    ensures r.Some? <==> 1 <= dow <= 6
    // every opening window is written "DD:DD" and opens before it closes
    ensures r.Some? ==>
      && Clock.ParseClock(r.value.start).Some?
      && Clock.ParseClock(r.value.end).Some?
      && Clock.ParseClock(r.value.start).value < Clock.ParseClock(r.value.end).value
  {
    if 1 <= dow <= 5 then Some(Rule("09:30", "19:00"))
    else if dow == 6 then Some(Rule("09:00", "14:00"))
    else None
  }

  /** Whether the template has no opening hours for the day. */
  predicate IsClosed(dow: int): (closed: bool)
    ensures closed <==> dow == 0 || dow < 0 || dow > 6
  {
    Template(dow).None?
  }

  /** The number of steps of `SlotMinutes` that start before `end`. */
  function SlotCount(start: int, end: int): nat {
    if end <= start then 0 else (end - start + SlotMinutes - 1) / SlotMinutes
  }

  /**
    The slot generator's loop: starting at `start`, every step of
    `SlotMinutes` that begins before `end` is a slot. A window that is not a
    whole number of steps yields a last slot running past `end`.
   */
  function SlotsBetween(start: nat, end: nat): (r: seq<nat>)
    ensures |r| == SlotCount(start, end)
    ensures forall i :: 0 <= i < |r| ==> r[i] == start + i * SlotMinutes
    ensures forall i :: 0 <= i < |r| ==> start <= r[i] < end
    decreases end - start
  {
    if start < end then [start] + SlotsBetween(start + SlotMinutes, end) else []
  }

  /**
    The slots offered on a day of the week: none on a closed day, none when
    a template time cannot be read, otherwise the generator's slots between
    the opening and closing times.
   */
  function SlotsForDay(dow: int): (r: seq<nat>)
    ensures Template(dow).None? ==> r == []
    ensures Template(dow).Some? ==>
      r == SlotsBetween(Clock.ParseClock(Template(dow).value.start).value,
                        Clock.ParseClock(Template(dow).value.end).value)
  {
    match Template(dow)
    case None => []
    case Some(rule) =>
      match (Clock.ParseClock(rule.start), Clock.ParseClock(rule.end))
      case (Some(open), Some(close)) => SlotsBetween(open, close)
      case _ => []
  }

  /** Strictly ascending. */
  predicate Ascending(s: seq<nat>) {
    forall i, j :: 0 <= i < j < |s| ==> s[i] < s[j]
  }

  /** The slots are strictly ascending and consecutive ones are one slot apart. */
  lemma SlotsAscending(start: nat, end: nat)
    ensures Ascending(SlotsBetween(start, end))
    ensures forall i :: 0 < i < |SlotsBetween(start, end)| ==>
      SlotsBetween(start, end)[i] == SlotsBetween(start, end)[i - 1] + SlotMinutes
  {
  }

  /** An empty or inverted window has no slots; otherwise the first slot is `start`. */
  lemma FirstSlot(start: nat, end: nat)
    ensures |SlotsBetween(start, end)| == 0 <==> end <= start
    ensures start < end ==> SlotsBetween(start, end)[0] == start
  {
  }

  /**
    The last slot starts before `end` and ends at or after it: the
    remainder of a window that is not a whole number of slots is covered by
    a slot that runs past `end`, not dropped.
   */
  lemma {:induction false} LastSlotCoversEnd(start: nat, end: nat)
    requires start < end
    ensures var r := SlotsBetween(start, end);
      r[|r| - 1] < end <= r[|r| - 1] + SlotMinutes
  {
  }

  /** A 45-minute window gives two slots, the second ending 15 minutes late. */
  lemma PartialSlotKept()
    ensures SlotsBetween(0, 45) == [0, 30]
  {
  }

  /** A day is closed exactly when it offers no slots. */
  lemma ClosedIffNoSlots(dow: int)
    ensures IsClosed(dow) <==> SlotsForDay(dow) == []
  {
  }

  /** The slots of a window, read through the generator's contract only. */
  lemma WindowSlots(open: nat, close: nat, count: nat, last: nat)
    requires open < close && count == SlotCount(open, close) && last == open + (count - 1) * SlotMinutes
    ensures |SlotsBetween(open, close)| == count
    ensures SlotsBetween(open, close)[0] == open
    ensures SlotsBetween(open, close)[count - 1] == last
  {
  }

  /** Monday to Friday: 19 slots, from "09:30" to "18:30". */
  lemma WeekdaySlots(dow: int)
    requires 1 <= dow <= 5
    ensures |SlotsForDay(dow)| == 19
    ensures Clock.ToHHMM(SlotsForDay(dow)[0]) == "09:30"
    ensures Clock.ToHHMM(SlotsForDay(dow)[18]) == "18:30"
  {
    assert Template(dow) == Some(Rule("09:30", "19:00"));
    assert Clock.ParseClock("09:30") == Some(570);
    assert Clock.ParseClock("19:00") == Some(1140);
    WindowSlots(570, 1140, 19, 1110);
    assert Clock.ToHHMM(570) == "09:30";
    assert Clock.ToHHMM(1110) == "18:30";
  }

  /** Saturday: 10 slots, from "09:00" to "13:30". */
  lemma SaturdaySlots()
    ensures |SlotsForDay(6)| == 10
    ensures Clock.ToHHMM(SlotsForDay(6)[0]) == "09:00"
    ensures Clock.ToHHMM(SlotsForDay(6)[9]) == "13:30"
  {
    assert Template(6) == Some(Rule("09:00", "14:00"));
    assert Clock.ParseClock("09:00") == Some(540);
    assert Clock.ParseClock("14:00") == Some(840);
    WindowSlots(540, 840, 10, 810);
    assert Clock.ToHHMM(540) == "09:00";
    assert Clock.ToHHMM(810) == "13:30";
  }
}
