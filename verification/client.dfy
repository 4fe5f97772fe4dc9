/**
  The booking page's own logic: which slots it offers once the taken times
  are known, how it reads the taken-slot reply, and the checks `handleSubmit`
  makes before it posts a booking.
 */
module Client {
  import opened Common
  import Clock
  import Schedule
  import Book

  /** The one provider the page books for. */
  const BarberId: string := "juanma"

  /** `a` is `b` with some elements left out, the rest in their order. */
  predicate Subsequence<T(==)>(a: seq<T>, b: seq<T>)
    decreases |b|
  {
    || |a| == 0
    || (&& |b| > 0
        && ((a[0] == b[0] && Subsequence(a[1..], b[1..])) || Subsequence(a, b[1..])))
  }

  /**
    The day's slots whose "HH:MM" reading is not among the taken times
    (`availableSlots`). The page computes this list but renders `slots`
    itself, see `SlotButtons`.
   */
  function AvailableSlots(slots: seq<nat>, taken: set<string>): (r: seq<nat>)
    ensures forall x :: x in r <==> x in slots && Clock.ToHHMM(x) !in taken
    // every occurrence of a kept slot is kept, every occurrence of a taken one dropped
    ensures forall x :: multiset(r)[x] == if Clock.ToHHMM(x) in taken then 0 else multiset(slots)[x]
    ensures Subsequence(r, slots)
  {
    if |slots| == 0 then []
    else
      var rest := AvailableSlots(slots[1..], taken);
      assert slots == [slots[0]] + slots[1..];
      assert multiset(slots) == multiset{slots[0]} + multiset(slots[1..]);
      if Clock.ToHHMM(slots[0]) in taken then rest
      else
        assert ([slots[0]] + rest)[1..] == rest;
        assert multiset([slots[0]] + rest) == multiset{slots[0]} + multiset(rest);
        [slots[0]] + rest
  }

  /**
    One slot button of the page: its slot, its "HH:MM" (the value tested
    against the taken list and selected on click; the visible label is the
    locale-formatted time, not modelled) and whether it is disabled.
   */
  datatype SlotButton = SlotButton(slot: nat, hhmm: string, disabled: bool)

  /**
    The slot buttons the page renders: one per slot of the day, in order,
    each disabled when its "HH:MM" is taken.
   */
  function SlotButtons(slots: seq<nat>, taken: set<string>): (r: seq<SlotButton>)
    ensures |r| == |slots|
    ensures forall i :: 0 <= i < |r| ==> r[i].slot == slots[i] && r[i].hhmm == Clock.ToHHMM(slots[i])
    // a button is enabled exactly when its slot is among the available ones
    ensures forall i :: 0 <= i < |r| ==> (!r[i].disabled <==> slots[i] in AvailableSlots(slots, taken))
  {
    seq(|slots|, i requires 0 <= i < |slots| =>
      SlotButton(slots[i], Clock.ToHHMM(slots[i]), Clock.ToHHMM(slots[i]) in taken))
  }

  /** Filtering ascending slots leaves them ascending. */
  lemma {:induction false} AvailableAscending(slots: seq<nat>, taken: set<string>)
    requires Schedule.Ascending(slots)
    ensures Schedule.Ascending(AvailableSlots(slots, taken))
  {
    if |slots| > 0 {
      var rest := AvailableSlots(slots[1..], taken);
      AvailableAscending(slots[1..], taken);
      if Clock.ToHHMM(slots[0]) !in taken {
        HeadBelowTail(slots, rest);
        AscendingCons(slots[0], rest);
      }
    }
  }

  lemma AscendingCons(h: nat, rest: seq<nat>)
    requires Schedule.Ascending(rest)
    requires forall x :: x in rest ==> h < x
    ensures Schedule.Ascending([h] + rest)
  {
    var r := [h] + rest;
    forall i, j | 0 <= i < j < |r| ensures r[i] < r[j] {
      if i > 0 {
        assert r[i] == rest[i - 1] && r[j] == rest[j - 1];
      } else {
        assert r[j] in rest;
      }
    }
  }

  lemma HeadBelowTail(slots: seq<nat>, rest: seq<nat>)
    requires |slots| > 0 && Schedule.Ascending(slots)
    requires forall x :: x in rest ==> x in slots[1..]
    ensures forall x :: x in rest ==> slots[0] < x
  {
  }

  /** With nothing taken, every slot is offered. */
  lemma {:induction false} NothingTakenAllOffered(slots: seq<nat>)
    ensures AvailableSlots(slots, {}) == slots
  {
    if |slots| > 0 {
      NothingTakenAllOffered(slots[1..]);
      assert slots == [slots[0]] + slots[1..];
    }
  }

  /**
    The taken times as the page reads the query reply: `j.ok ? j.taken : []`.
    A reply without `ok` reads as nothing taken.
   */
  function TakenFromReply(reply: Reply): (taken: set<string>)
    ensures reply.ok != Some(true) ==> taken == {}
    ensures reply.ok == Some(true) && reply.taken.Some? ==> taken == reply.taken.value
  {
    if reply.ok == Some(true) then reply.taken.GetOr({}) else {}
  }

  /** The booking form's state when it is submitted. */
  datatype Form = Form(
    date: string,
    serviceId: string,
    name: string,
    phone: string,
    notes: string,
    selectedSlot: Option<nat>,
    selectedTime24: string)

  /** Why the page refuses to submit. */
  datatype Refusal = NoSlotChosen | MissingContact

  datatype Submission = Refused(why: Refusal) | Send(payload: Book.Request)

  /** `handleSubmit`: refuse without a chosen slot or without name and phone, else post the form. */
  function Submit(f: Form): (r: Submission)
    ensures r == Refused(NoSlotChosen) <==> f.selectedSlot.None? || f.selectedTime24 == ""
    ensures r == Refused(MissingContact) <==>
      f.selectedSlot.Some? && f.selectedTime24 != "" && (f.name == "" || f.phone == "")
    ensures r.Send? ==>
      && r.payload.httpMethod == "POST"
      && r.payload.date == Some(f.date)
      && r.payload.time == Some(f.selectedTime24)
      && r.payload.barberId == Some(BarberId)
      && r.payload.serviceId == Some(f.serviceId)
      && r.payload.name == Some(f.name)
      && r.payload.phone == Some(f.phone)
      && r.payload.notes == Some(f.notes)
  {
    if f.selectedSlot.None? || f.selectedTime24 == "" then Refused(NoSlotChosen)
    else if f.name == "" || f.phone == "" then Refused(MissingContact)
    else Send(Book.Request("POST", Some(f.date), Some(f.selectedTime24), Some(BarberId),
                           Some(f.serviceId), Some(f.name), Some(f.phone), Some(f.notes)))
  }

  /** A form the page sends, with a date filled in, passes the handler's field check. */
  lemma SubmittedFormIsComplete(f: Form)
    requires Submit(f).Send? && f.date != ""
    ensures Book.Accepted(Submit(f).payload)
  {
  }
}
