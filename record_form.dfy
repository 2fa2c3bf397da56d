/**
 * The record form: the grid of half-hour bedtime slots, and the submit
 * guard that trims the reason and refuses an empty time or a blank reason.
 */
module RecordForm {
  import opened Wrappers
  import opened Strings
  import opened Clock

  const FirstSlotHour: nat := 21
  const LastSlotHour: nat := 28
  const SlotCount: nat := 2 * (LastSlotHour - FirstSlotHour + 1)
  const DefaultMood: int := 3

  /** Hours past midnight (24 and up) are written as the next morning's hour. */
  function WrapHour(h: nat): (w: nat)
    ensures h < 48 ==> w == h % 24
  {
    if h >= 24 then h - 24 else h
  }

  /** The `i`-th slot: hour 21 + i / 2 wrapped past midnight, minute 0 or 30. */
  function SlotAt(i: nat): (s: string)
    ensures |s| >= 5
  {
    ClockText(WrapHour(FirstSlotHour + i / 2), (i % 2) * 30)
  }

  /** The nested loops over hours 21..28 and minutes [0, 30] that fill `timeSlots`. */
  method TimeSlots() returns (slots: seq<string>)
    ensures |slots| == SlotCount
    ensures forall i :: 0 <= i < |slots| ==> slots[i] == SlotAt(i)
  {
    slots := [];
    for h := FirstSlotHour to LastSlotHour + 1
      invariant |slots| == 2 * (h - FirstSlotHour)
      invariant forall i :: 0 <= i < |slots| ==> slots[i] == SlotAt(i)
    {
      var hour := if h >= 24 then h - 24 else h;
      var minutes := [0, 30];
      for k := 0 to |minutes|
        invariant |slots| == 2 * (h - FirstSlotHour) + k
        invariant forall i :: 0 <= i < |slots| ==> slots[i] == SlotAt(i)
      {
        var i := |slots|;
        assert i / 2 == h - FirstSlotHour && i % 2 == k;
        slots := slots + [ClockText(hour, minutes[k])];
      }
    }
  }

  /**
   * Every slot is a zero-padded "HH:MM" with minute 00 or 30, and under the
   * noon-cutoff normalisation the `i`-th slot is 21:00 plus 30 * i minutes.
   */
  lemma SlotNormalizes(i: nat)
    requires i < SlotCount
    ensures IsClockString(SlotAt(i))
    ensures ClockMinute(SlotAt(i)) == 0 || ClockMinute(SlotAt(i)) == 30
    ensures ParseTime(SlotAt(i)).Some? && NormalizeTime(SlotAt(i)) == 21 * 60 + 30 * i
  {
    var h, m := WrapHour(FirstSlotHour + i / 2), (i % 2) * 30;
    ClockTextIsClockString(h, m);
    NormalizeRange(SlotAt(i));
  }

  /** The slots strictly increase by 30 minutes in the order shown, so no two are equal. */
  lemma SlotsIncrease(i: nat, j: nat)
    requires i < j < SlotCount
    ensures ParseTime(SlotAt(i)).Some? && ParseTime(SlotAt(j)).Some?
    ensures NormalizeTime(SlotAt(j)) - NormalizeTime(SlotAt(i)) == 30 * (j - i)
    ensures SlotAt(i) != SlotAt(j)
  {
    SlotNormalizes(i);
    SlotNormalizes(j);
  }

  /** The grid runs from 21:00 through midnight (00:00) to 04:30, not 04:00. */
  lemma SlotExamples()
    ensures SlotAt(0) == "21:00" && SlotAt(1) == "21:30"
    ensures SlotAt(6) == "00:00"
    ensures SlotAt(SlotCount - 1) == "04:30"
  {
    Pad2Small(21);
    Pad2Small(0);
    Pad2Small(30);
    Pad2Small(4);
  }

  datatype FormState = FormState(date: string, sleepTime: string, reason: string, moodScore: int)

  datatype RecordFormData = RecordFormData(recordDate: string, sleepTime: string, reasonText: string, moodScore: int)

  /** The form as it opens: today's date, no time, no reason, mood 3. */
  function InitialForm(today: string): (f: FormState)
    ensures f.date == today && f.sleepTime == "" && f.reason == "" && f.moodScore == DefaultMood
  {
    FormState(today, "", "", DefaultMood)
  }

  /** `handleSubmit`: nothing is sent without a time or with a blank reason; the reason is sent trimmed. */
  function Submit(f: FormState): (r: Option<RecordFormData>)
    ensures r.None? <==> f.sleepTime == "" || AllSpace(f.reason)
    ensures r.Some? ==> r.value == RecordFormData(f.date, f.sleepTime, Trim(f.reason), f.moodScore)
  {
    TrimSpec(f.reason);
    if f.sleepTime == "" || Trim(f.reason) == "" then None
    else Some(RecordFormData(f.date, f.sleepTime, Trim(f.reason), f.moodScore))
  }

  /** The submit button's `disabled` condition. */
  predicate SubmitDisabled(f: FormState, isLoading: bool)
    ensures SubmitDisabled(f, isLoading) <==> f.sleepTime == "" || AllSpace(f.reason) || isLoading
  {
    TrimSpec(f.reason);
    f.sleepTime == "" || Trim(f.reason) == "" || isLoading
  }

  /** The button is disabled exactly when submitting would send nothing, or while loading. */
  lemma DisabledMatchesGuard(f: FormState, isLoading: bool)
    ensures SubmitDisabled(f, isLoading) <==> Submit(f).None? || isLoading
  {
    TrimSpec(f.reason);
  }

  /** The freshly opened form cannot be submitted. */
  lemma InitialFormDisabled(today: string, isLoading: bool)
    ensures Submit(InitialForm(today)).None? && SubmitDisabled(InitialForm(today), isLoading)
  {
  }

  /** A sent reason is the typed reason without its outer whitespace: non-empty, no space at either end. */
  lemma SubmittedReasonTrimmed(f: FormState)
    requires Submit(f).Some?
    ensures var t := Submit(f).value.reasonText;
      t != [] && !IsSpace(t[0]) && !IsSpace(t[|t| - 1])
      && exists i, j :: 0 <= i <= j <= |f.reason| && t == f.reason[i..j]
  {
    TrimSpec(f.reason);
  }
}
