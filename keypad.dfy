/**
 * The keypad input resolver: the debounce tail of manualGetKeyState, and the rules by which
 * processKeypadSelection turns a buffer of at most two digits into a slot selection.
 */
module Keypad {
  import opened Types

  /** The value manualGetKeyState returns when no key is reported. */
  const NO_KEY: char := 0 as char

  /** Debounce state: lastPhysicallyPressedKey, lastReturnedKey and lastKeyPressTime. */
  datatype Scanner = Scanner(lastPhysical: char, lastReturned: char, lastChange: nat)

  /** A released key has always been re-armed: nothing is remembered as returned while no key is sensed. */
  predicate Rearmed(s: Scanner) { s.lastPhysical == NO_KEY ==> s.lastReturned == NO_KEY }

  /**
   * One debounce step with `physical` sensed at time `now`: a change of key restarts the timer
   * and reports nothing (a release also forgets the returned key); the same key is reported once
   * it has been sensed for longer than the debounce period and was not reported already.
   */
  function Scan(s: Scanner, physical: char, now: nat): (Scanner, char)
  {
    if physical != s.lastPhysical then
      (Scanner(physical, if physical == NO_KEY then NO_KEY else s.lastReturned, now), NO_KEY)
    else if physical != NO_KEY && now - s.lastChange > KEYPAD_DEBOUNCE_PERIOD && physical != s.lastReturned then
      (s.(lastReturned := physical), physical)
    else
      (s, NO_KEY)
  }

  /** A key is reported only when it is the key already sensed, stable for longer than the debounce period and not yet reported; a step keeps Rearmed. */
  lemma ScanReportsStableKeyOnce(s: Scanner, physical: char, now: nat)
    ensures var (s', key) := Scan(s, physical, now);
      && (key != NO_KEY ==>
            key == physical && physical == s.lastPhysical && physical != s.lastReturned
            && now - s.lastChange > KEYPAD_DEBOUNCE_PERIOD && s'.lastReturned == physical)
      && s'.lastPhysical == physical
      && (physical != s.lastPhysical ==> key == NO_KEY && s'.lastChange == now)
      && (Rearmed(s) ==> Rearmed(s'))
  { }

  /** Number of keys reported while `physical` stays sensed at each scan time of `times`. */
  function Reported(s: Scanner, physical: char, times: seq<nat>): nat
    decreases |times|
  {
    if times == [] then 0
    else
      var (s', key) := Scan(s, physical, times[0]);
      (if key != NO_KEY then 1 else 0) + Reported(s', physical, times[1..])
  }

  /** Once the held key has been reported, holding it reports nothing more. */
  lemma {:induction false} ReportedKeyStaysSilent(s: Scanner, k: char, times: seq<nat>)
    requires s.lastPhysical == k && s.lastReturned == k
    ensures Reported(s, k, times) == 0
    decreases |times|
  {
    if times != [] {
      ReportedKeyStaysSilent(Scan(s, k, times[0]).0, k, times[1..]);
    }
  }

  /** However long a key is held, and whatever the scanner remembered, it is reported at most once. */
  lemma {:induction false} HeldKeyReportedAtMostOnce(s: Scanner, k: char, times: seq<nat>)
    ensures Reported(s, k, times) <= 1
    decreases |times|
  {
    if times != [] {
      var (s', key) := Scan(s, k, times[0]);
      if key != NO_KEY {
        ReportedKeyStaysSilent(s', k, times[1..]);
      } else {
        HeldKeyReportedAtMostOnce(s', k, times[1..]);
      }
    }
  }

  /**
   * A pressed key that has not been reported yet is reported exactly once while it stays held,
   * provided some scan comes more than the debounce period after the press was first sensed.
   */
  lemma {:induction false} HeldKeyReportedOnce(s: Scanner, k: char, times: seq<nat>)
    requires k != NO_KEY && s.lastPhysical == k && s.lastReturned != k
    ensures Reported(s, k, times) ==
      if exists i :: 0 <= i < |times| && times[i] - s.lastChange > KEYPAD_DEBOUNCE_PERIOD then 1 else 0
    decreases |times|
  {
    if times != [] {
      var (s', key) := Scan(s, k, times[0]);
      if key != NO_KEY {
        ReportedKeyStaysSilent(s', k, times[1..]);
      } else {
        assert s' == s;
        HeldKeyReportedOnce(s', k, times[1..]);
        if exists i :: 0 <= i < |times[1..]| && times[1..][i] - s.lastChange > KEYPAD_DEBOUNCE_PERIOD {
          var i :| 0 <= i < |times[1..]| && times[1..][i] - s.lastChange > KEYPAD_DEBOUNCE_PERIOD;
          assert times[i + 1] - s.lastChange > KEYPAD_DEBOUNCE_PERIOD;
        } else {
          forall i | 0 <= i < |times| ensures times[i] - s.lastChange <= KEYPAD_DEBOUNCE_PERIOD {
            if i > 0 { assert times[i] == times[1..][i - 1]; }
          }
        }
      }
    }
  }

  /**
   * Releasing the key and pressing it again: the release re-arms the scanner, the new press
   * starts the timer at `press`, and the key is reported exactly once if held past the period.
   */
  lemma RepressReportedAgain(s: Scanner, k: char, release: nat, press: nat, held: seq<nat>)
    requires k != NO_KEY && s.lastPhysical == k
    ensures var released := Scan(s, NO_KEY, release).0;
            var pressed := Scan(released, k, press).0;
            && released.lastReturned == NO_KEY
            && Reported(pressed, k, held) ==
                 if exists i :: 0 <= i < |held| && held[i] - press > KEYPAD_DEBOUNCE_PERIOD then 1 else 0
  {
    var released := Scan(s, NO_KEY, release).0;
    var pressed := Scan(released, k, press).0;
    assert pressed == Scanner(k, NO_KEY, press);
    HeldKeyReportedOnce(pressed, k, held);
  }

  predicate IsDigit(c: char) { '0' <= c <= '9' }

  function DigitValue(c: char): nat
    requires IsDigit(c)
  {
    c as int - '0' as int
  }

  /** A keypad input buffer: at most two digit characters. */
  predicate DigitBuffer(b: string)
  {
    |b| <= 2 && (|b| >= 1 ==> IsDigit(b[0])) && (|b| == 2 ==> IsDigit(b[1]))
  }

  /**
   * String.toInt of a digit buffer (0 for the empty buffer): the buffer holds the decimal digits
   * of the value, so a leading '0' reads as the second digit alone ("05" is 5).
   */
  function BufferValue(b: string): (n: nat)
    requires DigitBuffer(b)
    ensures |b| == 1 ==> n <= 9
    ensures |b| == 2 ==> n <= 99
    ensures |b| >= 1 ==> n % 10 == DigitValue(b[|b| - 1])
    ensures |b| == 2 ==> n / 10 == DigitValue(b[0])
    ensures |b| == 2 && b[0] == '0' ==> n == BufferValue(b[1..])
  {
    if |b| == 0 then 0
    else if |b| == 1 then DigitValue(b[0])
    else 10 * DigitValue(b[0]) + DigitValue(b[1])
  }

  /** The buffer names a slot number 1..activeSlots. */
  predicate ValidEntry(b: string, activeSlots: int)
    requires DigitBuffer(b)
  {
    1 <= BufferValue(b) <= activeSlots
  }

  /** The firmware's test for clearing the buffer after a valid entry (the early-finalisation rule). */
  predicate SelectionFinal(b: string, activeSlots: int)
    requires DigitBuffer(b)
  {
    |b| == 2 || activeSlots < 10 || (|b| == 1 && BufferValue(b) > activeSlots / 10)
  }

  /**
   * The early-finalisation rule is exact: a valid single digit is final precisely when no second
   * digit could extend it to a valid two-digit slot number.
   */
  lemma SingleDigitFinalIffNoExtension(d: char, activeSlots: int)
    requires IsDigit(d) && 1 <= DigitValue(d) <= activeSlots
    ensures SelectionFinal([d], activeSlots) <==>
      forall e :: IsDigit(e) ==> !ValidEntry([d, e], activeSlots)
  {
    if !SelectionFinal([d], activeSlots) {
      assert ValidEntry([d, '0'], activeSlots);
    } else {
      forall e | IsDigit(e) ensures !ValidEntry([d, e], activeSlots) {
        assert BufferValue([d, e]) == 10 * DigitValue(d) + DigitValue(e);
      }
    }
  }

  /** How processKeypadSelection resolves a non-empty buffer: a slot chosen (and what stays in the buffer), a rejected two-digit entry, or a digit kept pending. */
  datatype Resolution = Chosen(slot: int, rest: string) | Rejected | Pending

  /**
   * A valid number selects slot `number - 1`; the buffer is kept only for a single digit the
   * early-finalisation rule does not close. An invalid two-digit entry is rejected; an invalid
   * single digit waits.
   */
  function Resolve(b: string, activeSlots: int): (r: Resolution)
    requires DigitBuffer(b) && b != ""
    ensures r.Chosen? <==> ValidEntry(b, activeSlots)
    ensures r.Rejected? <==> !ValidEntry(b, activeSlots) && |b| == 2
    ensures r.Chosen? ==> r.slot == BufferValue(b) - 1 && 0 <= r.slot < activeSlots
    ensures r.Chosen? ==> (r.rest == "" <==> SelectionFinal(b, activeSlots))
    ensures r.Chosen? && r.rest != "" ==> r.rest == b && |b| == 1
  {
    if ValidEntry(b, activeSlots) then
      Chosen(BufferValue(b) - 1, if SelectionFinal(b, activeSlots) then "" else b)
    else if |b| == 2 then Rejected
    else Pending
  }

  /**
   * A chosen slot keeps its digit in the buffer exactly when some second digit would still
   * name a valid slot, so a customer can always reach every slot number.
   */
  lemma ResolveWaitsOnlyForExtension(b: string, activeSlots: int)
    requires DigitBuffer(b) && b != "" && Resolve(b, activeSlots).Chosen?
    ensures Resolve(b, activeSlots).rest != "" <==>
      |b| == 1 && exists e :: IsDigit(e) && ValidEntry([b[0], e], activeSlots)
  {
    if |b| == 1 {
      assert b == [b[0]];
      SingleDigitFinalIffNoExtension(b[0], activeSlots);
    }
  }

  /** The buffer after a digit key: a full buffer is cleared before the digit is appended. */
  function AppendDigit(b: string, d: char): (r: string)
    requires DigitBuffer(b) && IsDigit(d)
    ensures DigitBuffer(r) && 1 <= |r| <= 2 && r[|r| - 1] == d
  {
    (if |b| >= 2 then "" else b) + [d]
  }

  /** A buffer of fewer than two digits is extended by the new digit; a full one restarts with it. */
  lemma AppendDigitExtends(b: string, d: char)
    requires DigitBuffer(b) && IsDigit(d)
    ensures |b| < 2 ==> AppendDigit(b, d)[..|b|] == b && |AppendDigit(b, d)| == |b| + 1
    ensures |b| == 2 ==> AppendDigit(b, d) == [d]
  {
  }

  /** What processKeypadSelection leaves: the selected slot (-1 for none), the buffer, and whether the entry was rejected with an error. */
  datatype Selection = Selection(slot: int, buffer: string, rejected: bool)

  /**
   * processKeypadSelection on buffer `b` with `selected` the current selection: an empty buffer
   * changes nothing; otherwise a valid number becomes the selection, a rejected entry clears
   * selection and buffer, and a pending digit leaves both as they were.
   */
  function Select(b: string, selected: int, activeSlots: int): (r: Selection)
    requires DigitBuffer(b)
    ensures DigitBuffer(r.buffer) && |r.buffer| <= 1
    ensures r.rejected <==> b != "" && |b| == 2 && !ValidEntry(b, activeSlots)
    ensures r.rejected ==> r.slot == -1 && r.buffer == ""
    ensures !r.rejected ==>
      || (r.slot == selected && r.buffer == b)
      || (b != "" && ValidEntry(b, activeSlots) && r.slot == BufferValue(b) - 1 && 0 <= r.slot < activeSlots)
    ensures b != "" && ValidEntry(b, activeSlots) ==> r.slot == BufferValue(b) - 1
  {
    if b == "" then Selection(selected, b, false)
    else match Resolve(b, activeSlots)
      case Chosen(s, rest) => Selection(s, rest, false)
      case Rejected => Selection(-1, "", true)
      case Pending => Selection(selected, b, false)
  }

  /** Keying "1" then "6" with 16 slots: "1" selects slot index 0 and waits; "16" selects index 15 and clears the buffer. */
  lemma OneThenSix()
    ensures Select(AppendDigit("", '1'), -1, 16) == Selection(0, "1", false)
    ensures Select(AppendDigit("1", '6'), 0, 16) == Selection(15, "", false)
  {
    assert AppendDigit("", '1') == "1";
    assert AppendDigit("1", '6') == "16";
    assert BufferValue("16") == 16;
  }

  /** Keying "1" then "7" with 16 slots: 17 names no slot, so the entry is rejected and the selection cleared. */
  lemma OneThenSevenRejected()
    ensures Select(AppendDigit("1", '7'), 0, 16) == Selection(-1, "", true)
  {
    assert AppendDigit("1", '7') == "17";
    assert BufferValue("17") == 17;
  }

  /**
   * Keying "7" then "3" with 5 slots: 7 names no slot, but only a two-digit entry is rejected, so
   * the single 7 waits in the buffer and "73" is then rejected and clears it.
   */
  lemma SevenThenThreeRejected()
    ensures Select(AppendDigit("", '7'), -1, 5) == Selection(-1, "7", false)
    ensures Select(AppendDigit("7", '3'), -1, 5) == Selection(-1, "", true)
  {
    assert AppendDigit("", '7') == "7";
    assert AppendDigit("7", '3') == "73";
    assert BufferValue("73") == 73;
  }

  /**
   * Keying "9" then "9" with 16 slots never forms "99": the first 9 is final on its own, so the
   * buffer is empty when the second 9 arrives, and slot index 8 is selected twice without error.
   */
  lemma NineThenNineSelectsNine()
    ensures Select(AppendDigit("", '9'), -1, 16) == Selection(8, "", false)
    ensures Select(AppendDigit("", '9'), 8, 16) == Selection(8, "", false)
  {
    assert AppendDigit("", '9') == "9";
  }
}
