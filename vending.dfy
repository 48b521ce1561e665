/**
 * The vending-machine transaction engine: every global of the firmware that the core reads or
 * writes is a field of one Machine, and every core routine is a method that updates those
 * fields in place. The current time (millis()) is a parameter `now`; the sensed key, the relay
 * board's probe answer and the acknowledgement of each relay write are parameters too. The
 * customer-visible errors, the notices handed to the messaging service and the relay bus
 * writes are recorded in ghost traces.
 */
module Vending {
  import opened Types
  import opened Keypad
  import opened Payment
  import opened Relay
  import opened Stock
  import opened EventLog

  /** The outcome of an admin request that changes the slot ledger (HTTP 200 or 400). */
  datatype Reply = Done | InvalidInput | SlotIsLocked

  /** Price given to a slot that has no stored price when the slot count changes: 5.00. */
  const NEW_SLOT_PRICE: int := 500

  /** What '#' does with a selection: refuse it with an error, drop it silently, or schedule a dispense job. */
  datatype Verdict = Refused(error: UserError) | Dropped | Scheduled

  /**
   * The purchase gate of processKeypad and scheduleDispense for selection `s` (-1 for none):
   * the checks run in the firmware's order, and a job is scheduled only when all of them pass.
   */
  function PurchaseVerdict(s: int, locked: seq<bool>, available: seq<bool>, prices: seq<int>, credit: int,
                           jobActive: bool, boardOnline: bool): (v: Verdict)
    requires s == -1 || (0 <= s < |locked| && s < |available| && s < |prices|)
    ensures v.Scheduled? <==>
      s != -1 && !locked[s] && available[s] && credit >= prices[s] && !jobActive && boardOnline
    ensures v.Dropped? <==> s != -1 && !locked[s] && available[s] && credit >= prices[s] && jobActive
    ensures s == -1 ==> v == Refused(NoSlotSelected)
    ensures v.Refused? && s != -1 ==>
      v.error == (if locked[s] then SlotLocked(s) else if !available[s] then SlotEmpty(s)
                  else if credit < prices[s] then InsufficientCredit else RelayBoardOffline)
  {
    if s == -1 then Refused(NoSlotSelected)
    else if locked[s] then Refused(SlotLocked(s))
    else if !available[s] then Refused(SlotEmpty(s))
    else if credit < prices[s] then Refused(InsufficientCredit)
    else if jobActive then Dropped
    else if !boardOnline then Refused(RelayBoardOffline)
    else Scheduled
  }

  class Machine {
    /** Timing settings read at boot. */
    const timing: Timing

    // The slot ledger: prices in cents, availability, lock flags, and the number of slots in use.
    const slotPrices: array<int>
    const slotAvailable: array<bool>
    const slotLocked: array<bool>
    var activeSlots: int
    /** Customer credit in cents; admin adjustments can make it negative. */
    var credit: int

    // Stock alert settings and latches.
    var almostEmptyThreshold: int
    var notifyOnSale: bool
    var notifyAlmostEmpty: bool
    var notifyEmpty: bool
    var almostEmptyNotificationSent: bool
    var emptyNotificationSent: bool

    // Keypad debounce state, input buffer and selection.
    var lastPhysicallyPressedKey: char
    var lastReturnedKey: char
    var lastKeyPressTime: nat
    var keypadInputBuffer: string
    var lastKeypadInputTime: nat
    var selectedSlot: int
    var slotSelectedTime: nat

    var currentSystemState: SystemState
    var displayNeedsUpdate: bool
    var lastUserInteractionTime: nat

    // The dispense job and the relay outputs.
    var dispenseJob: DispenseJob
    var relayMask: bv16
    var lastRelayChangeTime: nat
    /** Level of the bill acceptor's inhibit line (true = inhibited). */
    var billInhibit: bool

    // Pulse channels written by the interrupt routines.
    var coinPulseCount: nat
    var lastCoinPulseTime: nat
    var billPulseCount: nat
    var lastBillPulseEdgeTime: nat
    var lastBillDebounceEdgeTime: nat

    // The log ring.
    const logBuffer: array<string>
    var logIndex: nat

    /** Every line ever logged, in order. */
    ghost var logHistory: seq<string>
    /** Error messages shown to the customer, in order. */
    ghost var errors: seq<UserError>
    /** Messages handed to the notification service, in order. */
    ghost var notices: seq<Notice>
    /** Writes put on the relay bus, in order. */
    ghost var busWrites: seq<BusWrite>

    ghost function KeyScanner(): Scanner
      reads this`lastPhysicallyPressedKey, this`lastReturnedKey, this`lastKeyPressTime
    {
      Scanner(lastPhysicallyPressedKey, lastReturnedKey, lastKeyPressTime)
    }

    ghost function CoinChannel(): Channel
      reads this`coinPulseCount, this`lastCoinPulseTime
    {
      Channel(coinPulseCount, lastCoinPulseTime)
    }

    ghost function BillChannel(): Channel
      reads this`billPulseCount, this`lastBillPulseEdgeTime
    {
      Channel(billPulseCount, lastBillPulseEdgeTime)
    }

    ghost function StockLatches(): Latches
      reads this`almostEmptyNotificationSent, this`emptyNotificationSent
    {
      Latches(almostEmptyNotificationSent, emptyNotificationSent)
    }

    ghost function Alerts(): AlertConfig
      reads this`almostEmptyThreshold, this`notifyAlmostEmpty, this`notifyEmpty
    {
      AlertConfig(almostEmptyThreshold, notifyAlmostEmpty, notifyEmpty)
    }

    /** The ledger's shape: MAX_SLOTS entries per array, and 1..MAX_SLOTS slots in use. */
    ghost predicate Ledger()
      reads this`activeSlots
    {
      && slotPrices.Length == MAX_SLOTS
      && slotAvailable.Length == MAX_SLOTS
      && slotLocked.Length == MAX_SLOTS
      && slotAvailable != slotLocked
      && 1 <= activeSlots <= MAX_SLOTS
    }

    /** Stocked, unlocked slots in use. */
    ghost function Available(): nat
      requires Ledger()
      reads this`activeSlots, slotAvailable, slotLocked
    {
      AvailableCount(slotAvailable[..], slotLocked[..], activeSlots)
    }

    /** Selection, buffer and debounce state: a slot index or -1, digits only, and a released key re-armed. */
    ghost predicate KeypadState()
      reads this`selectedSlot, this`keypadInputBuffer, this`lastPhysicallyPressedKey, this`lastReturnedKey,
            this`lastKeyPressTime
    {
      && (selectedSlot == -1 || 0 <= selectedSlot < MAX_SLOTS)
      && DigitBuffer(keypadInputBuffer)
      && Rearmed(KeyScanner())
    }

    /** An active job names a slot of the ledger. */
    ghost predicate JobState()
      reads this`dispenseJob
    {
      dispenseJob.active ==> 0 <= dispenseJob.slot < MAX_SLOTS
    }

    /** The ring holds the lines logged so far, and logIndex is the next slot to write. */
    ghost predicate LogState()
      reads this`logIndex, this`logHistory, logBuffer
    {
      && logBuffer.Length == MAX_LOG_LINES
      && logBuffer[..] == Ring(logHistory)
      && logIndex == |logHistory| % MAX_LOG_LINES
    }

    /** The invariant between routines, except that the input buffer may hold two digits. */
    ghost predicate Consistent()
      reads this`activeSlots, this`selectedSlot, this`keypadInputBuffer, this`lastPhysicallyPressedKey,
            this`lastReturnedKey, this`lastKeyPressTime, this`dispenseJob
    {
      Ledger() && KeypadState() && JobState()
    }

    /** The invariant between routines: between key presses the buffer holds at most one digit. */
    ghost predicate Valid()
      reads this`activeSlots, this`selectedSlot, this`keypadInputBuffer, this`lastPhysicallyPressedKey,
            this`lastReturnedKey, this`lastKeyPressTime, this`dispenseJob
    {
      Consistent() && |keypadInputBuffer| <= 1
    }

    /**
     * setup(): the stored settings are loaded (an out-of-range slot count falls back to the
     * default), the relay expander is configured and all relays are switched off, and the
     * machine starts idle with the bill acceptor enabled.
     */
    constructor Boot(now: nat, timing: Timing, storedActiveSlots: int, storedCredit: int,
                     storedPrices: seq<int>, storedAvailable: seq<bool>, storedLocked: seq<bool>,
                     alerts: AlertConfig, notifyOnSale: bool)
      requires |storedPrices| == MAX_SLOTS && |storedAvailable| == MAX_SLOTS && |storedLocked| == MAX_SLOTS
      ensures Valid() && LogState()
      ensures fresh(slotPrices) && fresh(slotAvailable) && fresh(slotLocked) && fresh(logBuffer)
      ensures this.timing == timing && activeSlots == BootActiveSlots(storedActiveSlots)
      ensures credit == storedCredit && slotPrices[..] == storedPrices
      ensures slotAvailable[..] == storedAvailable && slotLocked[..] == storedLocked
      ensures Alerts() == alerts && this.notifyOnSale == notifyOnSale && StockLatches() == Latches(false, false)
      ensures KeyScanner() == Scanner(NO_KEY, NO_KEY, 0) && keypadInputBuffer == "" && selectedSlot == -1
      ensures currentSystemState == Idle && displayNeedsUpdate && lastUserInteractionTime == now
      ensures !dispenseJob.active && relayMask == 0 && !billInhibit
      ensures CoinChannel() == Channel(0, 0) && BillChannel() == Channel(0, 0)
      ensures busWrites == [BusWrite(0x06, 0x00), BusWrite(0x07, 0x00), BusWrite(GPIOB, 0x00), BusWrite(GPIOA, 0x00)]
      ensures logHistory == [] && errors == [] && notices == []
    {
      this.timing := timing;
      slotPrices := new int[MAX_SLOTS](i => if 0 <= i < |storedPrices| then storedPrices[i] else 0);
      slotAvailable := new bool[MAX_SLOTS](i => if 0 <= i < |storedAvailable| then storedAvailable[i] else true);
      slotLocked := new bool[MAX_SLOTS](i => if 0 <= i < |storedLocked| then storedLocked[i] else false);
      activeSlots := BootActiveSlots(storedActiveSlots);
      credit := storedCredit;
      almostEmptyThreshold := alerts.threshold;
      this.notifyOnSale := notifyOnSale;
      notifyAlmostEmpty := alerts.notifyAlmostEmpty;
      notifyEmpty := alerts.notifyEmpty;
      almostEmptyNotificationSent := false;
      emptyNotificationSent := false;
      lastPhysicallyPressedKey := NO_KEY;
      lastReturnedKey := NO_KEY;
      lastKeyPressTime := 0;
      keypadInputBuffer := "";
      lastKeypadInputTime := 0;
      selectedSlot := -1;
      slotSelectedTime := 0;
      currentSystemState := Idle;
      displayNeedsUpdate := true;
      lastUserInteractionTime := now;
      dispenseJob := DispenseJob(false, -1, 0, false);
      relayMask := 0;
      lastRelayChangeTime := 0;
      billInhibit := false;
      coinPulseCount := 0;
      lastCoinPulseTime := 0;
      billPulseCount := 0;
      lastBillPulseEdgeTime := 0;
      lastBillDebounceEdgeTime := 0;
      logBuffer := new string[MAX_LOG_LINES](_ => "");
      logIndex := 0;
      logHistory := [];
      errors := [];
      notices := [];
      busWrites := [BusWrite(0x06, 0x00), BusWrite(0x07, 0x00), BusWrite(GPIOB, 0x00), BusWrite(GPIOA, 0x00)];
      new;
      assert slotPrices[..] == storedPrices;
      assert slotAvailable[..] == storedAvailable;
      assert slotLocked[..] == storedLocked;
      assert logBuffer[..] == Blank(MAX_LOG_LINES);
    }

    // ---------------------------------------------------------------------------------------
    // Log ring
    // ---------------------------------------------------------------------------------------

    /** logMessage: the stamped line overwrites the slot at logIndex, which then advances round the ring. */
    method LogMessage(msg: string, now: nat)
      requires LogState()
      modifies logBuffer, this`logIndex, this`logHistory
      ensures LogState()
      ensures logHistory == old(logHistory) + [LogLine(now, msg)]
      ensures logBuffer[..] == old(logBuffer[..])[old(logIndex) := LogLine(now, msg)]
      ensures logIndex == (old(logIndex) + 1) % MAX_LOG_LINES
    {
      var line := LogLine(now, msg);
      ghost var h := logHistory;
      logBuffer[logIndex] := line;
      logIndex := (logIndex + 1) % MAX_LOG_LINES;
      logHistory := logHistory + [line];
      assert logHistory[..|logHistory| - 1] == h;
    }

    /** handleLogDataRequest: the ring read from logIndex round, non-blank lines only, each ending in a newline. */
    method LogData() returns (content: string)
      requires LogState()
      ensures content == Lines(Window(logHistory))
    {
      content := "";
      var startIdx := logIndex;
      ghost var ring := Rotated(logBuffer[..], startIdx);
      var i := 0;
      while i < MAX_LOG_LINES
        invariant 0 <= i <= MAX_LOG_LINES
        invariant content == Lines(ring[..i])
      {
        var currentReadPos := (startIdx + i) % MAX_LOG_LINES;
        RotatedAt(logBuffer[..], startIdx, i);
        assert ring[..i + 1][..i] == ring[..i];
        if |logBuffer[currentReadPos]| > 0 {
          content := content + logBuffer[currentReadPos] + "\n";
        }
        i := i + 1;
      }
      assert ring[..MAX_LOG_LINES] == ring;
      LogPage(logHistory);
    }

    // ---------------------------------------------------------------------------------------
    // Keypad
    // ---------------------------------------------------------------------------------------

    /** resetDisplayToDefault: selection and buffer cleared, state IDLE, interaction timer restarted. */
    method ResetDisplayToDefault(now: nat)
      requires Consistent()
      modifies this`selectedSlot, this`keypadInputBuffer, this`currentSystemState,
               this`displayNeedsUpdate, this`lastUserInteractionTime
      ensures Valid()
      ensures selectedSlot == -1 && keypadInputBuffer == "" && currentSystemState == Idle
      ensures displayNeedsUpdate && lastUserInteractionTime == now
    {
      selectedSlot := -1;
      keypadInputBuffer := "";
      currentSystemState := Idle;
      displayNeedsUpdate := true;
      lastUserInteractionTime := now;
    }

    /** displayErrorMessage: the error is shown (recorded), then the display is reset. */
    method DisplayErrorMessage(e: UserError, now: nat)
      requires Consistent()
      modifies this`errors, this`selectedSlot, this`keypadInputBuffer, this`currentSystemState,
               this`displayNeedsUpdate, this`lastUserInteractionTime
      ensures Valid()
      ensures errors == old(errors) + [e]
      ensures selectedSlot == -1 && keypadInputBuffer == "" && currentSystemState == Idle
      ensures displayNeedsUpdate && lastUserInteractionTime == now
    {
      errors := errors + [e];
      currentSystemState := ErrorDisplay;
      displayNeedsUpdate := false;
      ResetDisplayToDefault(now);
    }

    /** The debounce tail of manualGetKeyState, with the key sensed by the row/column scan as input. */
    method ScanKey(physical: char, now: nat) returns (key: char)
      requires Valid()
      modifies this`lastPhysicallyPressedKey, this`lastReturnedKey, this`lastKeyPressTime
      ensures Valid()
      ensures (KeyScanner(), key) == Scan(old(KeyScanner()), physical, now)
    {
      if physical != lastPhysicallyPressedKey {
        lastKeyPressTime := now;
        lastPhysicallyPressedKey := physical;
        if physical == NO_KEY {
          lastReturnedKey := NO_KEY;
        }
        return NO_KEY;
      }
      if physical != NO_KEY && now - lastKeyPressTime > KEYPAD_DEBOUNCE_PERIOD {
        if physical != lastReturnedKey {
          lastReturnedKey := physical;
          return physical;
        }
      }
      return NO_KEY;
    }

    /**
     * processKeypadSelection: a non-empty buffer is resolved; a valid number selects its slot
     * (the buffer is cleared when the entry is final), an invalid two-digit entry shows an error
     * and clears the selection, an invalid single digit waits.
     */
    method ProcessKeypadSelection(now: nat)
      requires Consistent()
      modifies this`selectedSlot, this`keypadInputBuffer, this`slotSelectedTime, this`currentSystemState,
               this`displayNeedsUpdate, this`lastUserInteractionTime, this`errors
      ensures Valid()
      ensures var r := Select(old(keypadInputBuffer), old(selectedSlot), activeSlots);
        && selectedSlot == r.slot && keypadInputBuffer == r.buffer
        && errors == old(errors) + (if r.rejected then [InvalidSlotNumber(old(keypadInputBuffer))] else [])
      ensures displayNeedsUpdate == (old(displayNeedsUpdate) || old(keypadInputBuffer) != "")
      ensures old(keypadInputBuffer) != "" && ValidEntry(old(keypadInputBuffer), activeSlots) ==>
        && slotSelectedTime == now && currentSystemState == UserInteraction
        && lastUserInteractionTime == old(lastUserInteractionTime)
      ensures Select(old(keypadInputBuffer), old(selectedSlot), activeSlots).rejected ==>
        && slotSelectedTime == old(slotSelectedTime) && currentSystemState == Idle && lastUserInteractionTime == now
      ensures ((old(keypadInputBuffer) == "" || !ValidEntry(old(keypadInputBuffer), activeSlots))
               && !Select(old(keypadInputBuffer), old(selectedSlot), activeSlots).rejected) ==>
        && slotSelectedTime == old(slotSelectedTime) && currentSystemState == old(currentSystemState)
        && lastUserInteractionTime == old(lastUserInteractionTime)
    {
      if keypadInputBuffer == "" {
        return;
      }
      var b := keypadInputBuffer;
      var slotNum := BufferValue(b);
      if 1 <= slotNum <= activeSlots {
        selectedSlot := slotNum - 1;
        slotSelectedTime := now;
        currentSystemState := UserInteraction;
        var isFinal := |b| == 2 || activeSlots < 10;
        if |b| == 1 && activeSlots >= 10 {
          if slotNum > activeSlots / 10 {
            isFinal := true;
          }
        }
        if isFinal {
          keypadInputBuffer := "";
        }
      } else if |b| == 2 {
        DisplayErrorMessage(InvalidSlotNumber(b), now);
        selectedSlot := -1;
        keypadInputBuffer := "";
      }
      displayNeedsUpdate := true;
    }

    /**
     * The digit branch of processKeypad: the digit is appended to the buffer (a full buffer is
     * cleared first) and the buffer is resolved.
     */
    method EnterDigit(key: char, now: nat)
      requires Valid() && IsDigit(key)
      modifies this`selectedSlot, this`keypadInputBuffer, this`slotSelectedTime, this`currentSystemState,
               this`displayNeedsUpdate, this`lastUserInteractionTime, this`lastKeypadInputTime, this`errors
      ensures Valid() && displayNeedsUpdate && lastKeypadInputTime == now
      ensures lastUserInteractionTime == old(lastUserInteractionTime) || lastUserInteractionTime == now
      ensures selectedSlot == -1 || selectedSlot == old(selectedSlot) || 0 <= selectedSlot < activeSlots
      ensures var b := AppendDigit(old(keypadInputBuffer), key);
        var r := Select(b, old(selectedSlot), activeSlots);
        && selectedSlot == r.slot && keypadInputBuffer == r.buffer
        && errors == old(errors) + (if r.rejected then [InvalidSlotNumber(b)] else [])
        && currentSystemState == (if r.rejected then Idle
                                  else if ValidEntry(b, activeSlots) then UserInteraction
                                  else old(currentSystemState))
    {
      lastKeypadInputTime := now;
      keypadInputBuffer := AppendDigit(keypadInputBuffer, key);
      ghost var b := keypadInputBuffer;
      ghost var r := Select(b, selectedSlot, activeSlots);
      ProcessKeypadSelection(now);
      assert selectedSlot == r.slot && keypadInputBuffer == r.buffer;
    }

    /** Whether `s` is no selection or a slot of the ledger. */
    ghost predicate SlotOrNone(s: int)
    {
      s == -1 || 0 <= s < MAX_SLOTS
    }

    /** The '#' decision for selection `s` on the current ledger and credit. */
    ghost function VerdictFor(s: int, jobActive: bool, boardOnline: bool): Verdict
      requires Ledger() && SlotOrNone(s)
      reads this`activeSlots, this`credit, slotLocked, slotAvailable, slotPrices
    {
      PurchaseVerdict(s, slotLocked[..], slotAvailable[..], slotPrices[..], credit, jobActive, boardOnline)
    }

    /**
     * The purchase part of the '#' branch of processKeypad, on the current selection: no
     * selection, a locked, empty or unaffordable slot, and an offline relay board are shown as
     * errors (which reset the selection); a request while a job is active is dropped; otherwise
     * a job for the slot is scheduled. Credit and the slot ledger are not touched.
     */
    method RequestPurchase(boardOnline: bool, now: nat)
      requires Valid()
      modifies this`selectedSlot, this`keypadInputBuffer, this`currentSystemState, this`displayNeedsUpdate,
               this`lastUserInteractionTime, this`dispenseJob, this`errors
      ensures Valid()
      ensures var v := VerdictFor(old(selectedSlot), old(dispenseJob.active), boardOnline);
        && errors == old(errors) + (if v.Refused? then [v.error] else [])
        && dispenseJob == (if v.Scheduled? then DispenseJob(true, old(selectedSlot), now, false) else old(dispenseJob))
        && (v.Refused? ==> selectedSlot == -1 && keypadInputBuffer == "" && currentSystemState == Idle
                           && lastUserInteractionTime == now)
        && (!v.Refused? ==> selectedSlot == old(selectedSlot) && lastUserInteractionTime == old(lastUserInteractionTime))
        && (v.Scheduled? ==> currentSystemState == UserInteraction)
    {
      if selectedSlot != -1 {
        if slotLocked[selectedSlot] {
          DisplayErrorMessage(SlotLocked(selectedSlot), now);
        } else if !slotAvailable[selectedSlot] {
          DisplayErrorMessage(SlotEmpty(selectedSlot), now);
        } else if credit >= slotPrices[selectedSlot] {
          ScheduleDispense(selectedSlot, boardOnline, now);
        } else {
          DisplayErrorMessage(InsufficientCredit, now);
        }
      } else {
        DisplayErrorMessage(NoSlotSelected, now);
      }
    }

    /**
     * The '#' branch of processKeypad: a digit still in the buffer is resolved first, then the
     * purchase is requested for the resulting selection. The buffer is empty afterwards.
     */
    method ConfirmSelection(boardOnline: bool, now: nat)
      requires Valid()
      modifies this`selectedSlot, this`keypadInputBuffer, this`slotSelectedTime, this`currentSystemState,
               this`displayNeedsUpdate, this`lastUserInteractionTime, this`dispenseJob, this`errors
      ensures Valid() && keypadInputBuffer == ""
      ensures selectedSlot == -1 || selectedSlot == old(selectedSlot) || 0 <= selectedSlot < activeSlots
      ensures var s := Select(old(keypadInputBuffer), old(selectedSlot), activeSlots).slot;
        var v := VerdictFor(s, old(dispenseJob.active), boardOnline);
        && errors == old(errors) + (if v.Refused? then [v.error] else [])
        && dispenseJob == (if v.Scheduled? then DispenseJob(true, s, now, false) else old(dispenseJob))
        && (v.Refused? ==> selectedSlot == -1 && currentSystemState == Idle && lastUserInteractionTime == now)
        && (!v.Refused? ==> selectedSlot == s && lastUserInteractionTime == old(lastUserInteractionTime))
        && (v.Scheduled? ==> currentSystemState == UserInteraction)
    {
      if keypadInputBuffer != "" {
        ProcessKeypadSelection(now);
      }
      RequestPurchase(boardOnline, now);
      keypadInputBuffer := "";
    }

    /**
     * The dispatch half of processKeypad, for a key the debounce step reported: the key counts
     * as user interaction and is dispatched (digit, '#', '*'; any other key only marks the
     * interaction), after which the display is refreshed.
     */
    method DispatchKey(key: char, boardOnline: bool, now: nat)
      requires Valid() && key != NO_KEY
      modifies this`selectedSlot, this`keypadInputBuffer, this`slotSelectedTime, this`currentSystemState,
               this`displayNeedsUpdate, this`lastUserInteractionTime, this`lastKeypadInputTime,
               this`dispenseJob, this`errors
      ensures Valid() && displayNeedsUpdate && lastUserInteractionTime == now
      ensures selectedSlot == -1 || selectedSlot == old(selectedSlot) || 0 <= selectedSlot < activeSlots
      ensures !IsDigit(key) && key != '#' ==> dispenseJob == old(dispenseJob) && errors == old(errors)
      ensures IsDigit(key) ==>
        var b := AppendDigit(old(keypadInputBuffer), key);
        var r := Select(b, old(selectedSlot), activeSlots);
        && selectedSlot == r.slot && keypadInputBuffer == r.buffer && lastKeypadInputTime == now
        && errors == old(errors) + (if r.rejected then [InvalidSlotNumber(b)] else [])
        && currentSystemState == (if r.rejected then Idle else UserInteraction)
        && dispenseJob == old(dispenseJob)
      ensures key == '#' ==>
        var s := Select(old(keypadInputBuffer), old(selectedSlot), activeSlots).slot;
        var v := VerdictFor(s, old(dispenseJob.active), boardOnline);
        && keypadInputBuffer == ""
        && errors == old(errors) + (if v.Refused? then [v.error] else [])
        && dispenseJob == (if v.Scheduled? then DispenseJob(true, s, now, false) else old(dispenseJob))
        && (v.Refused? ==> selectedSlot == -1 && currentSystemState == Idle)
        && (!v.Refused? ==> selectedSlot == s)
        && (v.Scheduled? ==> currentSystemState == UserInteraction)
      ensures key == '*' ==> selectedSlot == -1 && keypadInputBuffer == "" && currentSystemState == Idle
      ensures !IsDigit(key) && key != '#' && key != '*' ==>
        && selectedSlot == old(selectedSlot) && keypadInputBuffer == old(keypadInputBuffer)
        && currentSystemState == UserInteraction
    {
      lastUserInteractionTime := now;
      currentSystemState := UserInteraction;
      if IsDigit(key) {
        EnterDigit(key, now);
        assert lastUserInteractionTime == now;
      } else if key == '#' {
        ConfirmSelection(boardOnline, now);
        assert lastUserInteractionTime == now;
      } else if key == '*' {
        ResetDisplayToDefault(now);
      }
      displayNeedsUpdate := true;
    }

    /**
     * processKeypad: one debounce step, and the dispatch of the key it reports. When no key is
     * reported nothing else changes.
     */
    method ProcessKeypad(physical: char, boardOnline: bool, now: nat) returns (key: char)
      requires Valid()
      modifies this`lastPhysicallyPressedKey, this`lastReturnedKey, this`lastKeyPressTime,
               this`selectedSlot, this`keypadInputBuffer, this`slotSelectedTime, this`currentSystemState,
               this`displayNeedsUpdate, this`lastUserInteractionTime, this`lastKeypadInputTime,
               this`dispenseJob, this`errors
      ensures Valid()
      ensures (KeyScanner(), key) == Scan(old(KeyScanner()), physical, now)
      ensures key == NO_KEY ==>
        && selectedSlot == old(selectedSlot) && keypadInputBuffer == old(keypadInputBuffer)
        && currentSystemState == old(currentSystemState) && dispenseJob == old(dispenseJob)
        && errors == old(errors) && displayNeedsUpdate == old(displayNeedsUpdate)
        && lastUserInteractionTime == old(lastUserInteractionTime)
        && slotSelectedTime == old(slotSelectedTime) && lastKeypadInputTime == old(lastKeypadInputTime)
      ensures key != NO_KEY ==> displayNeedsUpdate && lastUserInteractionTime == now
      ensures IsDigit(key) ==>
        var b := AppendDigit(old(keypadInputBuffer), key);
        var r := Select(b, old(selectedSlot), activeSlots);
        && selectedSlot == r.slot && keypadInputBuffer == r.buffer && lastKeypadInputTime == now
        && errors == old(errors) + (if r.rejected then [InvalidSlotNumber(b)] else [])
        && currentSystemState == (if r.rejected then Idle else UserInteraction)
        && dispenseJob == old(dispenseJob)
      ensures key == '#' ==>
        var s := Select(old(keypadInputBuffer), old(selectedSlot), activeSlots).slot;
        var v := VerdictFor(s, old(dispenseJob.active), boardOnline);
        && keypadInputBuffer == ""
        && errors == old(errors) + (if v.Refused? then [v.error] else [])
        && dispenseJob == (if v.Scheduled? then DispenseJob(true, s, now, false) else old(dispenseJob))
        && (v.Refused? ==> selectedSlot == -1 && currentSystemState == Idle)
        && (!v.Refused? ==> selectedSlot == s)
        && (v.Scheduled? ==> currentSystemState == UserInteraction)
      ensures key == '*' ==> selectedSlot == -1 && keypadInputBuffer == "" && currentSystemState == Idle
      ensures key != NO_KEY && !IsDigit(key) && key != '#' ==> dispenseJob == old(dispenseJob) && errors == old(errors)
    {
      key := ScanKey(physical, now);
      if key != NO_KEY {
        DispatchKey(key, boardOnline, now);
      }
    }

    // ---------------------------------------------------------------------------------------
    // Dispensing
    // ---------------------------------------------------------------------------------------

    /**
     * controlSlotRelay: an out-of-range slot is refused; otherwise the slot's bit is switched,
     * the byte of its bank is written to the bank's register, and the result is the
     * acknowledgement. The mask keeps the new bit only when the write was acknowledged.
     */
    method ControlSlotRelay(slot: int, activate: bool, ack: bool, now: nat) returns (ok: bool)
      requires Valid()
      modifies this`relayMask, this`lastRelayChangeTime, this`busWrites
      ensures Valid()
      ensures var o := Command(old(relayMask), slot, activate, ack);
        && ok == o.ok && relayMask == o.mask
        && busWrites == old(busWrites) + Listed(o.write)
        && lastRelayChangeTime == if ok then now else old(lastRelayChangeTime)
    {
      if slot < 0 || slot >= MAX_SLOTS {
        return false;
      }
      var r := slot as bv4;
      var m := WithRelay(relayMask, r, activate);
      busWrites := busWrites + [BusWrite(Register(r), BankByte(m, r))];
      if ack {
        relayMask := m;
        lastRelayChangeTime := now;
        ok := true;
      } else {
        ok := false;
      }
    }

    /**
     * scheduleDispense: refused silently while a job is active, refused with an error when the
     * relay board does not answer the probe, otherwise a fresh job for `slot` starts now.
     */
    method ScheduleDispense(slot: int, boardOnline: bool, now: nat)
      requires Valid() && 0 <= slot < MAX_SLOTS
      modifies this`dispenseJob, this`currentSystemState, this`displayNeedsUpdate, this`selectedSlot,
               this`keypadInputBuffer, this`lastUserInteractionTime, this`errors
      ensures Valid()
      ensures old(dispenseJob.active) ==>
        && dispenseJob == old(dispenseJob) && errors == old(errors)
        && selectedSlot == old(selectedSlot) && keypadInputBuffer == old(keypadInputBuffer)
        && currentSystemState == old(currentSystemState) && displayNeedsUpdate == old(displayNeedsUpdate)
        && lastUserInteractionTime == old(lastUserInteractionTime)
      ensures !old(dispenseJob.active) && !boardOnline ==>
        && dispenseJob == old(dispenseJob) && errors == old(errors) + [RelayBoardOffline]
        && selectedSlot == -1 && keypadInputBuffer == "" && currentSystemState == Idle
        && displayNeedsUpdate && lastUserInteractionTime == now
      ensures !old(dispenseJob.active) && boardOnline ==>
        && dispenseJob == DispenseJob(true, slot, now, false) && errors == old(errors)
        && selectedSlot == old(selectedSlot) && keypadInputBuffer == old(keypadInputBuffer)
        && currentSystemState == UserInteraction && displayNeedsUpdate
        && lastUserInteractionTime == old(lastUserInteractionTime)
    {
      if dispenseJob.active {
        return;
      }
      if !boardOnline {
        DisplayErrorMessage(RelayBoardOffline, now);
        return;
      }
      dispenseJob := DispenseJob(true, slot, now, false);
      currentSystemState := UserInteraction;
      displayNeedsUpdate := true;
    }

    /**
     * Step 1 of processDispenseJob, run while the job's relay has not been switched on: the bill
     * acceptor is inhibited and the relay switched on. If the write fails the job is dropped with
     * no debit and the error shown. Otherwise the sale is completed and the on-timer started now.
     */
    method ActivateDispense(now: nat, ack: bool) returns (ok: bool)
      requires Valid() && dispenseJob.active && !dispenseJob.relayActivated
      modifies this`dispenseJob, this`billInhibit, this`relayMask, this`lastRelayChangeTime, this`busWrites,
               this`credit, slotAvailable, this`almostEmptyNotificationSent, this`emptyNotificationSent,
               this`notices, this`errors, this`selectedSlot, this`keypadInputBuffer, this`currentSystemState,
               this`displayNeedsUpdate, this`lastUserInteractionTime
      ensures Valid() && ok == ack
      ensures !ok ==>
        && !dispenseJob.active && credit == old(credit) && slotAvailable[..] == old(slotAvailable[..])
        && errors == old(errors) + [RelayFault]
        && selectedSlot == -1 && keypadInputBuffer == "" && currentSystemState == Idle && !billInhibit
        && notices == old(notices) && StockLatches() == old(StockLatches()) && displayNeedsUpdate
      ensures ok ==>
        var s := old(dispenseJob.slot);
        && dispenseJob == DispenseJob(true, s, now, true) && billInhibit
        && credit == (if old(credit) - slotPrices[s] < 0 then 0 else old(credit) - slotPrices[s])
        && slotAvailable[..] == old(slotAvailable[..])[s := false]
      ensures ok ==>
        && errors == old(errors) && selectedSlot == old(selectedSlot) && keypadInputBuffer == old(keypadInputBuffer)
        && currentSystemState == old(currentSystemState) && lastUserInteractionTime == old(lastUserInteractionTime)
        && displayNeedsUpdate
      ensures ok ==> SaleRecorded(old(StockLatches()), old(notices), old(slotAvailable[..]), old(slotLocked[..]),
        old(activeSlots), old(dispenseJob.slot), old(Alerts()), old(notifyOnSale), StockLatches(), notices)
      ensures var on := Command(old(relayMask), old(dispenseJob.slot), true, ack);
        relayMask == on.mask && busWrites == old(busWrites) + Listed(on.write)
        && lastRelayChangeTime == if ok then now else old(lastRelayChangeTime)
    {
      var slot := dispenseJob.slot;
      billInhibit := true;
      ok := ControlSlotRelay(slot, true, ack, now);
      if !ok {
        AbortDispense(now);
        return;
      }
      CompleteSale(now);
    }

    /**
     * The failure path of step 1 of processDispenseJob: the relay fault is shown, the job
     * dropped, the bill acceptor re-enabled and the display reset.
     */
    method AbortDispense(now: nat)
      requires Consistent()
      modifies this`dispenseJob, this`billInhibit, this`errors, this`selectedSlot, this`keypadInputBuffer,
               this`currentSystemState, this`displayNeedsUpdate, this`lastUserInteractionTime
      ensures Valid()
      ensures dispenseJob == old(dispenseJob).(active := false) && !billInhibit
      ensures errors == old(errors) + [RelayFault]
      ensures selectedSlot == -1 && keypadInputBuffer == "" && currentSystemState == Idle && displayNeedsUpdate
    {
      DisplayErrorMessage(RelayFault, now);
      dispenseJob := dispenseJob.(active := false);
      billInhibit := false;
      ResetDisplayToDefault(now);
    }

    /**
     * The rest of step 1 once the job's relay is on: the price is debited with the credit
     * clamped at zero, the slot marked empty, the sale reported if enabled, the stock level
     * checked, and the job marked activated with its on-timer started now.
     */
    method CompleteSale(now: nat)
      requires Valid() && dispenseJob.active
      modifies this`credit, slotAvailable, this`almostEmptyNotificationSent, this`emptyNotificationSent, this`notices,
               this`dispenseJob, this`displayNeedsUpdate
      ensures Valid()
      ensures credit == if old(credit) - slotPrices[old(dispenseJob.slot)] < 0 then 0
                        else old(credit) - slotPrices[old(dispenseJob.slot)]
      ensures slotAvailable[..] == old(slotAvailable[..])[old(dispenseJob.slot) := false]
      ensures SaleRecorded(old(StockLatches()), old(notices), old(slotAvailable[..]), old(slotLocked[..]),
        old(activeSlots), old(dispenseJob.slot), old(Alerts()), old(notifyOnSale), StockLatches(), notices)
      ensures dispenseJob == old(dispenseJob).(relayActivated := true, startTime := now) && displayNeedsUpdate
    {
      var s := dispenseJob.slot;
      ghost var stocked, locked := slotAvailable[..], slotLocked[..];
      dispenseJob := dispenseJob.(relayActivated := true, startTime := now);
      displayNeedsUpdate := true;
      credit := credit - slotPrices[s];
      if credit < 0 {
        credit := 0;
      }
      slotAvailable[s] := false;
      assert Available() == AvailableCount(stocked[s := false], locked, activeSlots) by {
        assert slotAvailable[..] == stocked[s := false] && slotLocked[..] == locked;
      }
      if notifyOnSale {
        notices := notices + [Sale(s)];
      }
      CheckOverallStockLevel();
    }

    /** Step 2 of processDispenseJob: the relay is switched off, the job ends, the bill acceptor is re-enabled and the display reset. */
    method FinishDispense(now: nat, ack: bool)
      requires Valid() && dispenseJob.active
      modifies this`dispenseJob, this`billInhibit, this`relayMask, this`lastRelayChangeTime, this`busWrites,
               this`selectedSlot, this`keypadInputBuffer, this`currentSystemState, this`displayNeedsUpdate,
               this`lastUserInteractionTime
      ensures Valid()
      ensures var off := Command(old(relayMask), old(dispenseJob.slot), false, ack);
        relayMask == off.mask && busWrites == old(busWrites) + Listed(off.write)
        && lastRelayChangeTime == if ack then now else old(lastRelayChangeTime)
      ensures dispenseJob == old(dispenseJob).(active := false) && !billInhibit
      ensures selectedSlot == -1 && keypadInputBuffer == "" && currentSystemState == Idle && displayNeedsUpdate
    {
      var _ := ControlSlotRelay(dispenseJob.slot, false, ack, now);
      dispenseJob := dispenseJob.(active := false);
      billInhibit := false;
      ResetDisplayToDefault(now);
    }

    /**
     * processDispenseJob: with no active job nothing happens. Otherwise the activation step runs
     * once per job (it is guarded by relayActivated), and the job ends on the first call at
     * which the relay has been on for dispenseRelayOnTime.
     */
    method ProcessDispenseJob(now: nat, activateAck: bool, deactivateAck: bool)
      requires Valid()
      modifies this`dispenseJob, this`currentSystemState, this`billInhibit, this`relayMask,
               this`lastRelayChangeTime, this`busWrites, this`credit, slotAvailable,
               this`almostEmptyNotificationSent, this`emptyNotificationSent, this`notices,
               this`errors, this`selectedSlot, this`keypadInputBuffer, this`displayNeedsUpdate,
               this`lastUserInteractionTime
      ensures Valid()
      ensures !old(dispenseJob.active) ==>
        && dispenseJob == old(dispenseJob) && credit == old(credit) && slotAvailable[..] == old(slotAvailable[..])
        && relayMask == old(relayMask) && busWrites == old(busWrites) && lastRelayChangeTime == old(lastRelayChangeTime)
        && errors == old(errors) && notices == old(notices) && StockLatches() == old(StockLatches())
        && selectedSlot == old(selectedSlot) && keypadInputBuffer == old(keypadInputBuffer)
        && currentSystemState == old(currentSystemState) && billInhibit == old(billInhibit)
        && displayNeedsUpdate == old(displayNeedsUpdate) && lastUserInteractionTime == old(lastUserInteractionTime)
      ensures old(dispenseJob.active) && !old(dispenseJob.relayActivated) && !activateAck ==>
        var on := Command(old(relayMask), old(dispenseJob.slot), true, false);
        && !dispenseJob.active && credit == old(credit) && slotAvailable[..] == old(slotAvailable[..])
        && errors == old(errors) + [RelayFault] && notices == old(notices) && StockLatches() == old(StockLatches())
        && relayMask == on.mask && busWrites == old(busWrites) + Listed(on.write)
      ensures old(dispenseJob.active) && !old(dispenseJob.relayActivated) && activateAck ==>
        var s := old(dispenseJob.slot);
        && credit == (if old(credit) - slotPrices[s] < 0 then 0 else old(credit) - slotPrices[s])
        && slotAvailable[..] == old(slotAvailable[..])[s := false]
        && dispenseJob.relayActivated && dispenseJob.slot == s && dispenseJob.startTime == now
        && dispenseJob.active == (timing.dispenseRelayOnTime > 0)
      ensures old(dispenseJob.active) && !old(dispenseJob.relayActivated) && activateAck ==>
        SaleRecorded(old(StockLatches()), old(notices), old(slotAvailable[..]), old(slotLocked[..]),
          old(activeSlots), old(dispenseJob.slot), old(Alerts()), old(notifyOnSale), StockLatches(), notices)
      ensures old(dispenseJob.active) && !old(dispenseJob.relayActivated) && activateAck ==>
        var s := old(dispenseJob.slot);
        var on := Command(old(relayMask), s, true, true);
        var off := Command(on.mask, s, false, deactivateAck);
        if timing.dispenseRelayOnTime > 0 then relayMask == on.mask && busWrites == old(busWrites) + Listed(on.write)
        else relayMask == off.mask && busWrites == old(busWrites) + Listed(on.write) + Listed(off.write)
      ensures old(dispenseJob.active) && old(dispenseJob.relayActivated) ==>
        && credit == old(credit) && slotAvailable[..] == old(slotAvailable[..])
        && notices == old(notices) && StockLatches() == old(StockLatches())
        && (now - old(dispenseJob.startTime) >= timing.dispenseRelayOnTime <==> !dispenseJob.active)
        && (dispenseJob.active ==> dispenseJob == old(dispenseJob))
      ensures old(dispenseJob.active) && old(dispenseJob.relayActivated) ==>
        var off := Command(old(relayMask), old(dispenseJob.slot), false, deactivateAck);
        if dispenseJob.active then relayMask == old(relayMask) && busWrites == old(busWrites)
        else relayMask == off.mask && busWrites == old(busWrites) + Listed(off.write)
      ensures old(dispenseJob.active) && (activateAck || old(dispenseJob.relayActivated)) ==> errors == old(errors)
      ensures old(dispenseJob.active) ==>
        && lastRelayChangeTime == (if (!old(dispenseJob.relayActivated) && activateAck)
                                      || (old(dispenseJob.relayActivated) && !dispenseJob.active && deactivateAck)
                                   then now else old(lastRelayChangeTime))
        && displayNeedsUpdate == (if old(dispenseJob.relayActivated) && dispenseJob.active then old(displayNeedsUpdate)
                                  else true)
      ensures old(dispenseJob.active) && dispenseJob.active ==>
        && selectedSlot == old(selectedSlot) && keypadInputBuffer == old(keypadInputBuffer)
        && currentSystemState == UserInteraction && lastUserInteractionTime == old(lastUserInteractionTime)
        && (if old(dispenseJob.relayActivated) then billInhibit == old(billInhibit) else billInhibit)
      ensures old(dispenseJob.active) && !dispenseJob.active ==>
        selectedSlot == -1 && keypadInputBuffer == "" && currentSystemState == Idle && !billInhibit
    {
      if !dispenseJob.active {
        return;
      }
      var currentTime := now;
      currentSystemState := UserInteraction;
      if !dispenseJob.relayActivated {
        var ok := ActivateDispense(currentTime, activateAck);
        if !ok {
          return;
        }
      }
      if dispenseJob.relayActivated && currentTime - dispenseJob.startTime >= timing.dispenseRelayOnTime {
        FinishDispense(currentTime, deactivateAck);
      }
    }

    // ---------------------------------------------------------------------------------------
    // Payment
    // ---------------------------------------------------------------------------------------

    /** coinAcceptorISR: every edge is counted and time-stamped. */
    method CoinAcceptorIsr(now: nat)
      requires Valid()
      modifies this`coinPulseCount, this`lastCoinPulseTime
      ensures Valid()
      ensures CoinChannel() == Edge(old(CoinChannel()), now)
    {
      coinPulseCount := coinPulseCount + 1;
      lastCoinPulseTime := now;
    }

    /**
     * billAcceptorISR: edges in the first STARTUP_IGNORE_BILL_TIME after boot, and edges within
     * billIsrDebounceMs of the last counted one, are not counted.
     */
    method BillAcceptorIsr(now: nat)
      requires Valid()
      modifies this`billPulseCount, this`lastBillPulseEdgeTime, this`lastBillDebounceEdgeTime
      ensures Valid()
      ensures now < STARTUP_IGNORE_BILL_TIME || now - old(lastBillDebounceEdgeTime) <= timing.billIsrDebounceMs ==>
        BillChannel() == old(BillChannel()) && lastBillDebounceEdgeTime == old(lastBillDebounceEdgeTime)
      ensures now >= STARTUP_IGNORE_BILL_TIME && now - old(lastBillDebounceEdgeTime) > timing.billIsrDebounceMs ==>
        BillChannel() == Edge(old(BillChannel()), now) && lastBillDebounceEdgeTime == now
    {
      if now < STARTUP_IGNORE_BILL_TIME {
        return;
      }
      if now - lastBillDebounceEdgeTime > timing.billIsrDebounceMs {
        billPulseCount := billPulseCount + 1;
        lastBillPulseEdgeTime := now;
        lastBillDebounceEdgeTime := now;
      }
    }

    /**
     * processAcceptedCoin: a pulse group that has been quiet for coinProcessingDelay is drained;
     * its table value, if any, is added to the credit.
     */
    method ProcessAcceptedCoin(now: nat)
      requires Valid()
      modifies this`coinPulseCount, this`credit, this`displayNeedsUpdate, this`lastUserInteractionTime,
               this`currentSystemState
      ensures Valid()
      ensures var (c, cents) := Drain(old(CoinChannel()), now, timing.coinProcessingDelay, PULSE_VALUES, 1);
        && CoinChannel() == c && credit == old(credit) + cents
        && (cents > 0 ==> displayNeedsUpdate && lastUserInteractionTime == now && currentSystemState == UserInteraction)
        && (cents == 0 ==>
              && displayNeedsUpdate == old(displayNeedsUpdate)
              && lastUserInteractionTime == old(lastUserInteractionTime)
              && currentSystemState == old(currentSystemState))
    {
      if coinPulseCount > 0 && now - lastCoinPulseTime > timing.coinProcessingDelay {
        var pulsesToProcess := coinPulseCount;
        coinPulseCount := 0;
        if 0 < pulsesToProcess < |PULSE_VALUES| {
          var coinValueCents := PULSE_VALUES[pulsesToProcess];
          if coinValueCents > 0 {
            credit := credit + coinValueCents;
            displayNeedsUpdate := true;
            lastUserInteractionTime := now;
            currentSystemState := UserInteraction;
          }
        }
      }
    }

    /**
     * processBillAcceptorPulses: within RELAY_NOISE_WINDOW of a relay change pending pulses are
     * discarded; otherwise a group quiet for billGroupTimeoutMs is drained and its value (whole
     * euros) credited, and the acceptor stays inhibited while pulses remain pending.
     */
    method ProcessBillAcceptorPulses(now: nat)
      requires Valid()
      modifies this`billPulseCount, this`credit, this`displayNeedsUpdate, this`lastUserInteractionTime,
               this`currentSystemState, this`billInhibit
      ensures Valid()
      ensures now - lastRelayChangeTime < RELAY_NOISE_WINDOW ==>
        && billPulseCount == 0 && credit == old(credit) && billInhibit == old(billInhibit)
        && displayNeedsUpdate == old(displayNeedsUpdate) && lastUserInteractionTime == old(lastUserInteractionTime)
        && currentSystemState == old(currentSystemState)
      ensures now - lastRelayChangeTime >= RELAY_NOISE_WINDOW ==>
        var (c, cents) := Drain(old(BillChannel()), now, timing.billGroupTimeoutMs, BILL_VALUES, 100);
        && BillChannel() == c && credit == old(credit) + cents && billInhibit == (c.pulses > 0)
        && (cents > 0 ==> displayNeedsUpdate && lastUserInteractionTime == now && currentSystemState == UserInteraction)
        && (cents == 0 ==>
              && displayNeedsUpdate == old(displayNeedsUpdate)
              && lastUserInteractionTime == old(lastUserInteractionTime)
              && currentSystemState == old(currentSystemState))
    {
      if now - lastRelayChangeTime < RELAY_NOISE_WINDOW {
        if billPulseCount > 0 {
          billPulseCount := 0;
        }
        return;
      }
      if billPulseCount > 0 && now - lastBillPulseEdgeTime > timing.billGroupTimeoutMs {
        var pulsesToProcess := billPulseCount;
        billPulseCount := 0;
        if 0 < pulsesToProcess < |BILL_VALUES| {
          var billValueEuros := BILL_VALUES[pulsesToProcess];
          if billValueEuros > 0 {
            credit := credit + billValueEuros * 100;
            displayNeedsUpdate := true;
            lastUserInteractionTime := now;
            currentSystemState := UserInteraction;
          }
        }
      }
      billInhibit := billPulseCount > 0;
    }

    // ---------------------------------------------------------------------------------------
    // Slot ledger and stock alerts
    // ---------------------------------------------------------------------------------------

    /** countAvailableSlots: stocked, unlocked slots among those in use. */
    method CountAvailableSlots() returns (count: nat)
      requires Ledger()
      ensures count == AvailableCount(slotAvailable[..], slotLocked[..], activeSlots)
    {
      count := 0;
      var i := 0;
      while i < activeSlots
        invariant 0 <= i <= activeSlots
        invariant count == AvailableCount(slotAvailable[..], slotLocked[..], i)
      {
        if slotAvailable[i] && !slotLocked[i] {
          count := count + 1;
        }
        i := i + 1;
      }
    }

    /** countEmptySlots: empty, unlocked slots among those in use. */
    method CountEmptySlots() returns (count: nat)
      requires Ledger()
      ensures count == EmptyCount(slotAvailable[..], slotLocked[..], activeSlots)
    {
      count := 0;
      var i := 0;
      while i < activeSlots
        invariant 0 <= i <= activeSlots
        invariant count == EmptyCount(slotAvailable[..], slotLocked[..], i)
      {
        if !slotAvailable[i] && !slotLocked[i] {
          count := count + 1;
        }
        i := i + 1;
      }
    }

    /** checkOverallStockLevel: the latched alert rules applied to the current available count. */
    method CheckOverallStockLevel()
      requires Valid()
      modifies this`almostEmptyNotificationSent, this`emptyNotificationSent, this`notices
      ensures Valid()
      ensures var (latches, notice) := CheckLevel(old(StockLatches()), Available(), Alerts());
        StockLatches() == latches && notices == old(notices) + Listed(notice)
    {
      var totalAvailable := CountAvailableSlots();
      if notifyAlmostEmpty && totalAvailable > 0 && totalAvailable <= almostEmptyThreshold && !almostEmptyNotificationSent {
        notices := notices + [AlmostEmpty(totalAvailable)];
        almostEmptyNotificationSent := true;
        emptyNotificationSent := false;
      } else if notifyEmpty && totalAvailable == 0 && !emptyNotificationSent {
        notices := notices + [SoldOut];
        emptyNotificationSent := true;
        almostEmptyNotificationSent := true;
      } else if totalAvailable > almostEmptyThreshold {
        almostEmptyNotificationSent := false;
        emptyNotificationSent := false;
      }
    }

    /** handleUpdatePriceWeb: a slot in use gets a new non-negative price. */
    method UpdatePrice(slot: int, price: int) returns (reply: Reply)
      requires Valid()
      modifies slotPrices, this`displayNeedsUpdate
      ensures Valid()
      ensures reply == Done <==> 0 <= slot < activeSlots && price >= 0
      ensures reply == Done ==> slotPrices[..] == old(slotPrices[..])[slot := price] && displayNeedsUpdate
      ensures reply != Done ==>
        reply == InvalidInput && slotPrices[..] == old(slotPrices[..]) && displayNeedsUpdate == old(displayNeedsUpdate)
    {
      if 0 <= slot < activeSlots && price >= 0 {
        slotPrices[slot] := price;
        displayNeedsUpdate := true;
        reply := Done;
      } else {
        reply := InvalidInput;
      }
    }

    /** handleRefillWeb: an unlocked slot in use is marked stocked and the stock level re-checked; a locked slot is refused. */
    method Refill(slot: int) returns (reply: Reply)
      requires Valid()
      modifies slotAvailable, this`almostEmptyNotificationSent, this`emptyNotificationSent, this`notices,
               this`displayNeedsUpdate
      ensures Valid()
      ensures reply == Done <==> 0 <= slot < activeSlots && !slotLocked[slot]
      ensures reply == SlotIsLocked <==> 0 <= slot < activeSlots && slotLocked[slot]
      ensures reply == Done ==>
        var (latches, notice) := CheckLevel(old(StockLatches()), Available(), Alerts());
        && slotAvailable[..] == old(slotAvailable[..])[slot := true]
        && StockLatches() == latches && notices == old(notices) + Listed(notice) && displayNeedsUpdate
      ensures reply != Done ==>
        && slotAvailable[..] == old(slotAvailable[..]) && StockLatches() == old(StockLatches())
        && notices == old(notices) && displayNeedsUpdate == old(displayNeedsUpdate)
    {
      if 0 <= slot < activeSlots {
        if !slotLocked[slot] {
          slotAvailable[slot] := true;
          CheckOverallStockLevel();
          displayNeedsUpdate := true;
          reply := Done;
        } else {
          reply := SlotIsLocked;
        }
      } else {
        reply := InvalidInput;
      }
    }

    /**
     * handleRefillAllWeb: every unlocked slot in use is marked stocked (locked slots and slots
     * beyond the active count keep their flag), then the stock level is re-checked.
     */
    method RefillAll()
      requires Valid()
      modifies slotAvailable, this`almostEmptyNotificationSent, this`emptyNotificationSent, this`notices,
               this`displayNeedsUpdate
      ensures Valid() && displayNeedsUpdate
      ensures forall i :: 0 <= i < MAX_SLOTS ==>
        slotAvailable[i] == if i < activeSlots && !slotLocked[i] then true else old(slotAvailable[i])
      ensures Available() == UnlockedCount(slotLocked[..], activeSlots)
      ensures EmptyCount(slotAvailable[..], slotLocked[..], activeSlots) == 0
      ensures var (latches, notice) := CheckLevel(old(StockLatches()), Available(), Alerts());
        StockLatches() == latches && notices == old(notices) + Listed(notice)
    {
      var i := 0;
      while i < activeSlots
        invariant 0 <= i <= activeSlots
        invariant forall k :: 0 <= k < MAX_SLOTS ==>
          slotAvailable[k] == if k < i && !slotLocked[k] then true else old(slotAvailable[k])
        modifies slotAvailable
      {
        if !slotLocked[i] {
          slotAvailable[i] := true;
        }
        i := i + 1;
      }
      AllStockedCounts(slotAvailable[..], slotLocked[..], activeSlots);
      CheckOverallStockLevel();
      displayNeedsUpdate := true;
    }

    /** handleAddCreditWeb: any non-zero amount, positive or negative, is added without a clamp. */
    method AddCredit(amount: int) returns (reply: Reply)
      requires Valid()
      modifies this`credit, this`displayNeedsUpdate
      ensures Valid()
      ensures reply == Done <==> amount != 0
      ensures reply == Done ==> credit == old(credit) + amount && displayNeedsUpdate
      ensures reply != Done ==>
        reply == InvalidInput && credit == old(credit) && displayNeedsUpdate == old(displayNeedsUpdate)
    {
      if amount != 0 {
        credit := credit + amount;
        displayNeedsUpdate := true;
        reply := Done;
      } else {
        reply := InvalidInput;
      }
    }

    /** handleResetCreditWeb: the credit becomes zero. */
    method ResetCredit()
      requires Valid()
      modifies this`credit, this`displayNeedsUpdate
      ensures Valid()
      ensures credit == 0 && displayNeedsUpdate
    {
      credit := 0;
      displayNeedsUpdate := true;
    }

    /**
     * handleUpdateSlotsWeb: a count in 1..MAX_SLOTS becomes the number of slots in use; each slot
     * in use whose availability or price was never stored (`availStored[i]`, `priceStored[i]`
     * false) is set to stocked or to NEW_SLOT_PRICE. Other counts are refused.
     */
    method UpdateActiveSlots(n: int, availStored: seq<bool>, priceStored: seq<bool>) returns (reply: Reply)
      requires Valid() && |availStored| == MAX_SLOTS && |priceStored| == MAX_SLOTS
      modifies this`activeSlots, slotAvailable, slotPrices, this`displayNeedsUpdate
      ensures Valid()
      ensures reply == Done <==> 1 <= n <= MAX_SLOTS
      ensures reply == Done ==>
        && activeSlots == n && displayNeedsUpdate
        && (forall i :: 0 <= i < MAX_SLOTS ==>
              slotAvailable[i] == if i < n && !availStored[i] then true else old(slotAvailable[i]))
        && (forall i :: 0 <= i < MAX_SLOTS ==>
              slotPrices[i] == if i < n && !priceStored[i] then NEW_SLOT_PRICE else old(slotPrices[i]))
      ensures reply != Done ==>
        && reply == InvalidInput && activeSlots == old(activeSlots)
        && slotAvailable[..] == old(slotAvailable[..]) && slotPrices[..] == old(slotPrices[..])
        && displayNeedsUpdate == old(displayNeedsUpdate)
    {
      if !(0 < n <= MAX_SLOTS) {
        return InvalidInput;
      }
      activeSlots := n;
      var i := 0;
      while i < activeSlots
        invariant 0 <= i <= activeSlots == n
        invariant forall k :: 0 <= k < MAX_SLOTS ==>
          slotAvailable[k] == if k < i && !availStored[k] then true else old(slotAvailable[k])
        invariant forall k :: 0 <= k < MAX_SLOTS ==>
          slotPrices[k] == if k < i && !priceStored[k] then NEW_SLOT_PRICE else old(slotPrices[k])
      {
        if !availStored[i] {
          slotAvailable[i] := true;
        }
        if !priceStored[i] {
          slotPrices[i] := NEW_SLOT_PRICE;
        }
        i := i + 1;
      }
      displayNeedsUpdate := true;
      reply := Done;
    }

    /** handleToggleSlotLockWeb: the lock flag of a slot in use is inverted. */
    method ToggleSlotLock(slot: int) returns (reply: Reply)
      requires Valid()
      modifies slotLocked, this`displayNeedsUpdate
      ensures Valid()
      ensures reply == Done <==> 0 <= slot < activeSlots
      ensures reply == Done ==> slotLocked[..] == old(slotLocked[..])[slot := !old(slotLocked[slot])] && displayNeedsUpdate
      ensures reply != Done ==>
        reply == InvalidInput && slotLocked[..] == old(slotLocked[..]) && displayNeedsUpdate == old(displayNeedsUpdate)
    {
      if 0 <= slot < activeSlots {
        slotLocked[slot] := !slotLocked[slot];
        displayNeedsUpdate := true;
        reply := Done;
      } else {
        reply := InvalidInput;
      }
    }

    /** handleSaveTelegramConfig, as far as the stock alerts go: the switches and the threshold are replaced. */
    method SaveAlertSettings(onSale: bool, almostEmpty: bool, empty: bool, threshold: int)
      requires Valid()
      modifies this`notifyOnSale, this`notifyAlmostEmpty, this`notifyEmpty, this`almostEmptyThreshold
      ensures Valid()
      ensures Alerts() == AlertConfig(threshold, almostEmpty, empty) && notifyOnSale == onSale
    {
      notifyOnSale := onSale;
      notifyAlmostEmpty := almostEmpty;
      notifyEmpty := empty;
      almostEmptyThreshold := threshold;
    }
  }
}
