# Vending-machine transaction engine (Hanimat firmware) in Dafny

This project models the transaction core of the Hanimat vending-machine firmware (`src/main.cpp`):

- the keypad debounce;
- the digit-to-slot selection;
- the purchase gate behind `#`;
- the dispense-job state machine and the relay driver;
- coin and bill pulse grouping;
- the slot ledger with its admin mutations;
- the latched stock alerts;
- the diagnostic log ring.

The firmware keeps all of this in globals that its routines change in place. The model does the same: `Vending.Machine` is one class whose fields are those globals, and each routine is a method that updates them. The value-level rules that the methods are proved against live in their own modules:

- `Keypad`: the debounce step and the selection rules;
- `Payment`: the pulse tables, pulse channels and grouping;
- `Relay`: the 16-bit relay mask and the bank bytes;
- `Stock`: the slot counts and the alert latches;
- `EventLog`: the log ring buffer;
- `Types`: constants and shared datatypes.

Inputs from outside the program are parameters:

- `millis()` becomes `now: nat`;
- the key sensed by the row/column scan becomes `physical`;
- the answer of the relay-board probe (`checkRelayBoardOnline`) becomes `boardOnline`;
- the acknowledgement of each I2C relay write becomes `ack`.

Some effects are recorded in ghost traces on the machine instead:

- the error messages shown to the customer (`errors`);
- the messages handed to the notification service (`notices`);
- the bytes written to the relay expander (`busWrites`).

Money is integer cents:

- a coin group adds `pulseValues[n]` cents;
- a bill group adds `billValues[n] * 100` cents;
- prices are cents.

The firmware uses `float` euros. The change is deliberate.

Where the design description and the code disagree, the model follows the code:

- Credit is not always non-negative. The admin credit adjustment adds any non-zero amount, negative ones included, without a clamp. Only the purchase debit clamps at zero.
- Typing "9" then "9" with 16 slots does not produce an invalid-slot error. The first 9 is already a final selection, so the buffer is empty when the second 9 arrives, and slot 9 is selected again (`Keypad.NineThenNineSelectsNine`). An invalid two-digit entry arises from any first digit that waits in the buffer: one that can start a valid number, such as "17" with 16 slots (`Keypad.OneThenSevenRejected`), or an invalid single digit, which is never final, such as "73" with 5 slots (`Keypad.SevenThenThreeRejected`).
- `selectedSlot` is kept in `-1` or `0..MAX_SLOTS-1`, not `0..activeSlots-1`. Lowering the active slot count does not clear an existing selection in the firmware.
- The keypad input timeout (`KEYPAD_INPUT_TIMEOUT`, `lastKeypadInputTime`) is written but never checked. The model records the time and nothing else.

## Model

| member | source | states |
|---|---|---|
| Types.BootActiveSlots | src/main.cpp:539-540 | the stored active slot count is used when it lies in 1..MAX_SLOTS, otherwise the default 16; the result always lies in 1..MAX_SLOTS |
| Keypad.ScanReportsStableKeyOnce | src/main.cpp:791-808 | a debounce step reports a key only if it is the key already sensed, stable for longer than 50 ms, and not yet reported; a change of key reports nothing and restarts the timer; a released key stays re-armed |
| Keypad.HeldKeyReportedAtMostOnce | src/main.cpp:800-808 | however long one key stays sensed, and whatever the scanner remembered, it is reported at most once |
| Keypad.HeldKeyReportedOnce | src/main.cpp:800-808 | a held key not yet reported is reported exactly once, if and only if some scan comes more than the debounce period after the press was first sensed |
| Keypad.RepressReportedAgain | src/main.cpp:791-797 | a release clears the returned key, so pressing the same key again is reported again once held past the debounce period |
| Keypad.BufferValue | src/main.cpp:1026 | `toInt` on the buffer: its digits are the decimal digits of the value (last digit = value mod 10, first of two = value div 10), so a leading '0' reads as the second digit alone ("05" is 5); at most 9 for one digit, 99 for two |
| Keypad.AppendDigit | src/main.cpp:984-987 | after a digit the buffer holds one or two digits and ends with the new digit |
| Keypad.AppendDigitExtends | src/main.cpp:984-987 | a buffer of fewer than two digits is extended by the digit; a full buffer is cleared first |
| Keypad.SingleDigitFinalIffNoExtension | src/main.cpp:1035-1041 | the early-finalisation rule on a valid single digit is exact: it closes the entry if and only if no second digit makes a valid slot number |
| Keypad.Resolve | src/main.cpp:1028-1057 | a valid number 1..activeSlots chooses slot number-1; the buffer is kept exactly when the entry is not final; an invalid two-digit entry is rejected; an invalid single digit waits |
| Keypad.ResolveWaitsOnlyForExtension | src/main.cpp:1035-1048 | after a valid entry the digit stays in the buffer exactly when some second digit would still name a valid slot |
| Keypad.Select | src/main.cpp:1023-1060 | processKeypadSelection on values: an empty buffer changes nothing, a rejection clears selection and buffer, otherwise the selection is the old one or the valid number's slot; afterwards at most one digit is left |
| Keypad.OneThenSix | src/main.cpp:1023-1060 | with 16 slots, "1" selects slot 1 and waits, then "16" selects slot 16 and clears the buffer |
| Keypad.OneThenSevenRejected | src/main.cpp:1050-1055 | with 16 slots, "17" is rejected with an error and the selection is cleared |
| Keypad.SevenThenThreeRejected | src/main.cpp:1028-1055 | with 5 slots, the invalid single digit "7" waits in the buffer with no error, and "73" is then rejected with the selection and buffer cleared |
| Keypad.NineThenNineSelectsNine | src/main.cpp:1035-1045 | with 16 slots, "9" then "9" selects slot 9 twice and never forms "99" |
| Payment.CoinTableAccepts | src/main.cpp:98 | coin groups of 2 to 6 pulses, and only those, credit 10, 20, 50, 100 and 200 cents |
| Payment.BillTableAccepts | src/main.cpp:101-104 | bill groups of 4, 8 and 16 pulses, and only those, credit 5, 10 and 20 euros |
| Payment.BurstAccumulates | src/main.cpp:1210 | while every poll falls inside the grouping window, every edge is counted and nothing is credited |
| Payment.OneCreditPerGroup | src/main.cpp:1209-1240 | a burst of N edges followed by a poll after the grouping window credits the table value for N exactly once and empties the counter |
| Relay.WithRelay | src/main.cpp:1075-1079 | setting or clearing relay r changes bit r and no other bit of the mask |
| Relay.BankByte | src/main.cpp:1081-1083 | the byte sent holds, bit for bit, the eight relays of the slot's bank: the low byte for slots 0-7, the high byte for 8-15 |
| Relay.CommandAsWritten | src/main.cpp:1068-1099 | controlSlotRelay as written: success if and only if the slot is 0..15 and acknowledged; an out-of-range slot writes nothing and keeps the mask; otherwise bit `slot` takes the new state whether or not the write was acknowledged, and the byte written is that new mask's bank byte, sent to the slot's bank register |
| Relay.Command | src/main.cpp:1068-1099 | controlSlotRelay as corrected (see Findings): success if and only if the slot is 0..15 and acknowledged; the write goes to register 0x02 or 0x03 with the bank byte; only bit `slot` may change; a refused or failed command leaves the mask unchanged |
| Relay.MaskMirrorsAcknowledged | src/main.cpp:1068-1099 | with the corrected driver (`Relay.Command`, see Findings), after any sequence of commands each mask bit is the state its relay was last successfully commanded to; the firmware's driver does not have this property |
| Relay.AsWrittenEnergisesAbortedRelay | src/main.cpp:1074-1092 | as written, an unacknowledged activation of slot 1 (index 0) followed by a successful activation of slot 2 sends byte 0x03 to GPIOB, switching slot 1's relay on as well |
| Relay.CorrectedKeepsAbortedRelayOff | src/main.cpp:1074-1092 | with the corrected driver the same two requests send 0x02, so slot 1's relay stays off |
| Stock.CountsPartitionUnlocked | src/main.cpp:2035-2053 | every unlocked slot in use is counted by exactly one of countAvailableSlots and countEmptySlots |
| Stock.AvailableCountFrame | src/main.cpp:2035-2041 | the available count depends only on the availability of unlocked slots in use |
| Stock.AllStockedCounts | src/main.cpp:1468-1473 | once every unlocked slot in use is stocked, all unlocked slots count as available and none as empty |
| Stock.SaleLowersAvailable | src/main.cpp:1160 | emptying one stocked, unlocked slot in use lowers the available count by exactly one |
| Stock.CheckLevelRules | src/main.cpp:2058-2084 | "almost empty" is sent if and only if its switch is on, 0 < available <= threshold and its latch is clear, and it sets its latch and clears the empty latch; "sold out" is sent if and only if its switch is on, available is 0 and its latch is clear, and it sets both latches; set latches are cleared together only when available exceeds the threshold |
| Stock.AlertsAtMostOnceBelowThreshold | src/main.cpp:2058-2084 | while stock stays at or below the threshold, "almost empty" is sent at most once, and never if its latch was set; "sold out" at most once, and never if both latches were set |
| EventLog.LogLine | src/main.cpp:298 | a stored line is never blank: it starts with the `[` of its seconds-since-boot stamp, so blank ring slots are exactly the slots not yet written |
| EventLog.RotatedWrite | src/main.cpp:298-299 | writing at the index and advancing it drops the oldest line from the read-back order and appends the new one |
| EventLog.RingOldestFirst | src/main.cpp:1588-1597 | reading the ring from logIndex round gives the last 50 lines logged, oldest first, after blank slots while fewer were written |
| EventLog.PaddedLines | src/main.cpp:1591-1595 | blank slots add nothing to the log page |
| EventLog.RotatedAt | src/main.cpp:1591-1592 | position i of the ring read from logIndex is buffer slot (logIndex + i) mod 50 |
| EventLog.LogPage | src/main.cpp:1588-1597 | the log page read from logIndex shows exactly the last 50 lines logged, oldest first |
| Vending.PurchaseVerdict | src/main.cpp:997-1011 | `#` schedules a job if and only if a slot is selected, it is unlocked, stocked and affordable, no job is active and the board answers; with a job active the request is dropped silently; otherwise the error follows the firmware's order of checks |
| Vending.Machine.Boot | src/main.cpp:515-545 | the settings are loaded, with an out-of-range slot count replaced by the default; all relays are off; the machine starts idle with empty selection, log and traces |
| Vending.Machine.LogMessage | src/main.cpp:296-300 | the stamped line overwrites the slot at logIndex, logIndex advances modulo 50, and the ring keeps matching the history |
| Vending.Machine.LogData | src/main.cpp:1583-1598 | the log page is the non-blank lines of the last 50 logged, oldest first, each followed by a newline |
| Vending.Machine.ResetDisplayToDefault | src/main.cpp:858-864 | selection cleared, buffer emptied, state IDLE, display marked dirty, interaction time restarted |
| Vending.Machine.DisplayErrorMessage | src/main.cpp:1295-1326 | the error is recorded, then the display is reset as resetDisplayToDefault does |
| Vending.Machine.ScanKey | src/main.cpp:788-808 | the debounce tail updates the three debounce fields and returns exactly what `Keypad.Scan` prescribes |
| Vending.Machine.ProcessKeypadSelection | src/main.cpp:1023-1060 | selection, buffer and error trace become what `Keypad.Select` prescribes; a valid entry stamps the selection time and sets USER_INTERACTION; a rejection resets to IDLE |
| Vending.Machine.EnterDigit | src/main.cpp:980-990 | the digit is appended (a full buffer is cleared first) and the result resolved as `Keypad.Select` prescribes, leaving at most one digit; the state becomes IDLE after a rejected entry, USER_INTERACTION after a valid one, and is otherwise kept |
| Vending.Machine.RequestPurchase | src/main.cpp:998-1011 | the error trace and the dispense job change exactly as `PurchaseVerdict` decides; an error resets selection and buffer; credit and the slot ledger are not modified |
| Vending.Machine.ConfirmSelection | src/main.cpp:991-1012 | a pending digit is resolved first, then the purchase is decided on the resolved selection; the buffer is empty afterwards |
| Vending.Machine.DispatchKey | src/main.cpp:975-1018 | a reported key stamps the interaction and marks the display; a digit appends to the buffer (a full buffer is cleared first), stamps the keypad-input time, and leaves selection, buffer and errors as `Keypad.Select` decides on the new buffer, the state IDLE after a rejected entry and USER_INTERACTION otherwise, with the job untouched; `#` empties the buffer and leaves errors, job and selection as the purchase verdict on the resolved selection decides; `*` clears selection and buffer and returns to IDLE; any other key leaves selection, buffer, job and errors alone |
| Vending.Machine.ProcessKeypad | src/main.cpp:971-1018 | one debounce step; when no key is reported, nothing but the debounce fields changes (selection, buffer, state, job, errors, display flag and the three timestamps stay); a reported digit, `#` or `*` has the effect stated for `DispatchKey`, and any other reported key that is not a digit or `#` leaves the job and the errors alone |
| Vending.Machine.ControlSlotRelay | src/main.cpp:1068-1099 | result, mask and bus write follow `Relay.Command`; the relay-change time is stamped only on success |
| Vending.Machine.ScheduleDispense | src/main.cpp:1105-1133 | with a job active nothing changes; an offline board shows an error and changes no job; otherwise a job for the slot starts now with the relay not yet activated |
| Vending.Machine.ActivateDispense | src/main.cpp:1145-1190 | the relay-on command and its bus write follow `Relay.Command`; a failed write drops the job with credit, availability, notices and alert latches unchanged, the relay fault shown and the display reset and marked; success keeps the bill acceptor inhibited, debits the price clamped at zero, marks the slot empty, records the sale as `Stock.SaleRecorded` prescribes, sets relayActivated, restarts the timer at now, stamps the relay-change time and marks the display, leaving errors, selection, buffer, state and interaction time unchanged |
| Vending.Machine.AbortDispense | src/main.cpp:1148-1154 | the relay fault is shown, the job made inactive, the bill acceptor re-enabled, the selection and buffer reset to IDLE and the display marked |
| Vending.Machine.CompleteSale | src/main.cpp:1158-1190 | credit becomes max(0, credit - price), the slot becomes empty, the latches and notices change as `Stock.SaleRecorded` prescribes (sale notice if enabled, then the alert rules on the count with the slot emptied), and the job is marked activated with its timer restarted at now |
| Vending.Machine.FinishDispense | src/main.cpp:1193-1202 | the relay-off command and its bus write follow `Relay.Command`, stamping the relay-change time only when acknowledged; the job ends, the bill acceptor is re-enabled, selection, buffer and state are reset and the display marked |
| Vending.Machine.ProcessDispenseJob | src/main.cpp:1138-1204 | no job changes none of the ledger, relay, bus, notices, latches, errors, selection, buffer, state, inhibit or display fields; activation runs once per job, its on command follows `Relay.Command`, and it debits and records the sale only on success; no error is added unless the activation write fails; an activated job ends, with its off command on the bus, exactly on the first call with now - startTime >= the on-time; when activation and timeout fall in one call both commands are written; the relay-change time becomes now exactly when this call's on or off command is acknowledged, and is kept otherwise; the display is marked unless an activated job keeps running, which leaves the flag alone; while the job stays open the selection, buffer and interaction time are kept, the state is USER_INTERACTION, and the bill inhibit is set by this call's activation or else kept; a finished job leaves selection, buffer and state reset and the bill acceptor enabled |
| Vending.Machine.CoinAcceptorIsr | src/main.cpp:424-427 | every coin edge is counted and time-stamped |
| Vending.Machine.BillAcceptorIsr | src/main.cpp:432-441 | a bill edge before 5000 ms or within the debounce interval of the last counted edge is ignored; otherwise it is counted and stamped |
| Vending.Machine.ProcessAcceptedCoin | src/main.cpp:1209-1240 | a coin group quiet for the processing delay is drained to zero and its table value added; an invalid count drains without credit |
| Vending.Machine.ProcessBillAcceptorPulses | src/main.cpp:1245-1288 | within 1000 ms of a relay change, pending pulses are discarded without credit; otherwise a quiet group is drained and its value in cents credited, and the acceptor is inhibited exactly while pulses remain pending |
| Vending.Machine.CountAvailableSlots | src/main.cpp:2035-2041 | the loop returns the number of available, unlocked slots in use |
| Vending.Machine.CountEmptySlots | src/main.cpp:2047-2053 | the loop returns the number of empty, unlocked slots in use |
| Vending.Machine.CheckOverallStockLevel | src/main.cpp:2058-2084 | the latches and notices change as `Stock.CheckLevel` prescribes on the current available count |
| Vending.Machine.UpdatePrice | src/main.cpp:1385-1400 | the price is set if and only if slot < activeSlots and price >= 0; otherwise the request is refused and prices are unchanged |
| Vending.Machine.Refill | src/main.cpp:1406-1423 | an unlocked slot in use is marked stocked and the alerts re-checked; a locked slot is refused with nothing changed |
| Vending.Machine.RefillAll | src/main.cpp:1464-1478 | exactly the unlocked slots in use become stocked; after that none of them counts as empty; the alerts are re-checked |
| Vending.Machine.AddCredit | src/main.cpp:1429-1443 | any non-zero amount, including a negative one, is added without a clamp; zero is refused |
| Vending.Machine.ResetCredit | src/main.cpp:1449-1458 | the credit becomes zero |
| Vending.Machine.UpdateActiveSlots | src/main.cpp:1532-1557 | a count in 1..MAX_SLOTS is accepted; slots in use with no stored value get stocked or priced 5.00; any other count is refused with nothing changed |
| Vending.Machine.ToggleSlotLock | src/main.cpp:1563-1577 | the lock flag of a slot in use is inverted and nothing else in the ledger changes |
| Vending.Machine.SaveAlertSettings | src/main.cpp:1699-1709 | the three notification switches and the threshold are replaced |

## Findings

| source | as written | input that shows it | evidently intended | confidence | as-written member | corrected member |
|---|---|---|---|---|---|---|
| src/main.cpp:1074-1092 | controlSlotRelay changes the mask bit before the I2C write and never restores it when the write fails. processDispenseJob's abort path never switches that relay off. | The activation write for slot 1 is not acknowledged, so the purchase is aborted with no debit. A later paid activation of slot 2 sends byte 0x03 to register 0x02, which switches slot 1's relay on too. | The mask mirrors what the relays were last successfully told, so an aborted activation leaves its relay off. | medium, not executed | Relay.AsWrittenEnergisesAbortedRelay | Relay.CorrectedKeepsAbortedRelayOff |

`Vending.Machine.ControlSlotRelay` uses the corrected `Relay.Command`. `Relay.MaskMirrorsAcknowledged` proves that the corrected mask always equals the last acknowledged command for each relay.

## Left out

- Relay.Command: models the corrected driver, not the firmware's: a failed write leaves the mask unchanged, whereas the firmware keeps the changed bit (see Findings). The firmware's behaviour is `Relay.CommandAsWritten`.
- Relay.MaskMirrorsAcknowledged: proved for the corrected driver only; under the firmware's driver a failed write leaves the mask disagreeing with the relays (see Findings).
- Vending.Machine.ControlSlotRelay: keeps the new mask bit only when the write is acknowledged, unlike the firmware (see Findings).
- Keypad scanning over GPIO rows and columns: the sensed key is a parameter.
- I2C transport: the probe answer and each write acknowledgement are parameters. The configuration writes at boot are recorded as bus writes.
- TFT rendering: only the `displayNeedsUpdate` flag is kept. This includes `updateDisplayScreen` and the screens drawn inside `scheduleDispense` and `processDispenseJob`.
- Buzzer tones and all `delay()` busy-waits, including the 3 s error dwell: they are timing side effects with no state. During the dwell, web requests are still serviced; the model does not represent that.
- Telegram delivery, WiFi, static-IP setup, OTA upload and the factory-reset button: these are network, foreign libraries and reboots. Notifications are ghost events in `notices`, recorded whenever the core would call the sender, whether or not Telegram is enabled.
- Preferences persistence: each mutation's write to the store is not modelled. The boot constructor takes the stored values as parameters.
- Web routing, HTML pages, argument parsing, authentication and the web-session timeout: these are I/O glue. The admin handlers' guarded state updates are methods with parameters. Whether a slot has a stored value (`isKey`) is passed to `UpdateActiveSlots` as a parameter.
- `handleTriggerRelayWeb`, `handleTriggerAllRelaysWeb` and `handleSaveTimingConfig`: not modelled. The first two are relay tests built from busy-waits. The third writes only the store; timing settings take effect at the next boot, so `timing` is a constant of the machine.
- The main loop's display-inactivity and slot-selection timeouts, and the OTA state that suspends the loop: the tick scheduler is not part of this model. Each routine it calls is modelled on its own.
- Interrupt masking and true ISR/main-loop concurrency: the ISR bodies are ordinary sequential methods, and the drains read and zero the counter in one step.
- `float` credit and prices: the model uses integer cents.
- 32-bit wrap-around of `millis()`: each routine takes the current reading as an unconstrained `now: nat`, and its contract holds for any reading. No ordering between successive readings is assumed or modelled. Within one routine every `millis()` call reads as that same `now`, although the firmware reads the clock again, for example inside controlSlotRelay when it stamps the relay-change time.
- The diagnostic lines that each operation writes to the log: only the ring mechanics of `logMessage` and its read-back are modelled, so operations do not append lines.
