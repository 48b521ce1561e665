/** Constants and value types shared by the components of the vending-machine firmware. */
module Types {

  /** Number of slot entries the firmware keeps (also the number of relay outputs). */
  const MAX_SLOTS: int := 16
  /** Active slot count used when the stored value is missing or out of range. */
  const DEFAULT_MAX_SLOTS: int := 16

  /** Default timing settings (milliseconds), used when the store holds none. */
  const DEFAULT_COIN_PROCESSING_DELAY: nat := 150
  const DEFAULT_BILL_ISR_DEBOUNCE_MS: nat := 75
  const DEFAULT_BILL_GROUP_PROCESSING_TIMEOUT_MS: nat := 1500
  const DEFAULT_DISPENSE_RELAY_ON_TIME: nat := 5000

  /** Bill edges before this many milliseconds after power-on are ignored. */
  const STARTUP_IGNORE_BILL_TIME: nat := 5000
  /** Bill pulses drained within this many milliseconds of a relay change are treated as noise. */
  const RELAY_NOISE_WINDOW: nat := 1000
  /** A key must be sensed for longer than this before it is reported. */
  const KEYPAD_DEBOUNCE_PERIOD: nat := 50

  datatype Option<T> = None | Some(value: T)

  /** The value of an option as a sequence of zero or one element, for appending to an event trace. */
  function Listed<T>(o: Option<T>): (s: seq<T>)
    ensures |s| <= 1 && (o.Some? <==> |s| == 1) && (o.Some? ==> s[0] == o.value)
  {
    if o.Some? then [o.value] else []
  }

  /** The firmware's CurrentSystemState. */
  datatype SystemState = Idle | UserInteraction | ErrorDisplay | OtaUpdate

  /** The single dispense job: `active`, the slot index, the timer start and whether the relay was switched on. */
  datatype DispenseJob = DispenseJob(active: bool, slot: int, startTime: nat, relayActivated: bool)

  /** The error messages the machine shows to the customer (displayErrorMessage). */
  datatype UserError =
    | SlotLocked(slot: int)
    | SlotEmpty(slot: int)
    | InsufficientCredit
    | NoSlotSelected
    | InvalidSlotNumber(entry: string)
    | RelayBoardOffline
    | RelayFault

  /** Messages handed to the notification sink (sendTelegramMessage). */
  datatype Notice = Sale(slot: int) | AlmostEmpty(available: int) | SoldOut

  /** Timing settings read from the store at boot; they take effect only after a restart. */
  datatype Timing = Timing(
    coinProcessingDelay: nat,
    billIsrDebounceMs: nat,
    billGroupTimeoutMs: nat,
    dispenseRelayOnTime: nat)

  const DEFAULT_TIMING: Timing := Timing(
    DEFAULT_COIN_PROCESSING_DELAY,
    DEFAULT_BILL_ISR_DEBOUNCE_MS,
    DEFAULT_BILL_GROUP_PROCESSING_TIMEOUT_MS,
    DEFAULT_DISPENSE_RELAY_ON_TIME)

  /** The active slot count taken at boot from the stored value: out-of-range values fall back to the default. */
  function BootActiveSlots(stored: int): (n: int)
    ensures 1 <= n <= MAX_SLOTS
    ensures 1 <= stored <= MAX_SLOTS ==> n == stored
    ensures !(1 <= stored <= MAX_SLOTS) ==> n == DEFAULT_MAX_SLOTS
  {
    if stored <= 0 || stored > MAX_SLOTS then DEFAULT_MAX_SLOTS else stored
  }
}
