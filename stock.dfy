/**
 * The slot ledger's aggregate queries (countAvailableSlots, countEmptySlots) and the latched
 * stock alerts of checkOverallStockLevel.
 */
module Stock {
  import opened Types

  /** Slots among the first `n` that are available and unlocked. */
  function AvailableCount(avail: seq<bool>, locked: seq<bool>, n: nat): nat
    requires n <= |avail| && n <= |locked|
  {
    if n == 0 then 0
    else AvailableCount(avail, locked, n - 1) + (if avail[n - 1] && !locked[n - 1] then 1 else 0)
  }

  /** Slots among the first `n` that are empty and unlocked. */
  function EmptyCount(avail: seq<bool>, locked: seq<bool>, n: nat): nat
    requires n <= |avail| && n <= |locked|
  {
    if n == 0 then 0
    else EmptyCount(avail, locked, n - 1) + (if !avail[n - 1] && !locked[n - 1] then 1 else 0)
  }

  /** Slots among the first `n` that are unlocked. */
  function UnlockedCount(locked: seq<bool>, n: nat): (c: nat)
    requires n <= |locked|
    ensures c <= n
  {
    if n == 0 then 0 else UnlockedCount(locked, n - 1) + (if !locked[n - 1] then 1 else 0)
  }

  /** Every unlocked slot is counted either as available or as empty, never both. */
  lemma {:induction false} CountsPartitionUnlocked(avail: seq<bool>, locked: seq<bool>, n: nat)
    requires n <= |avail| && n <= |locked|
    ensures AvailableCount(avail, locked, n) + EmptyCount(avail, locked, n) == UnlockedCount(locked, n)
  {
    if n > 0 {
      CountsPartitionUnlocked(avail, locked, n - 1);
    }
  }

  /** The counts only look at the first `n` slots and at availability of unlocked ones. */
  lemma {:induction false} AvailableCountFrame(avail: seq<bool>, avail': seq<bool>, locked: seq<bool>, n: nat)
    requires n <= |avail| && n <= |avail'| && n <= |locked|
    requires forall i :: 0 <= i < n && !locked[i] ==> avail[i] == avail'[i]
    ensures AvailableCount(avail, locked, n) == AvailableCount(avail', locked, n)
  {
    if n > 0 {
      AvailableCountFrame(avail, avail', locked, n - 1);
    }
  }

  /** With every unlocked slot stocked, all unlocked slots count as available and none as empty. */
  lemma {:induction false} AllStockedCounts(avail: seq<bool>, locked: seq<bool>, n: nat)
    requires n <= |avail| && n <= |locked|
    requires forall i :: 0 <= i < n && !locked[i] ==> avail[i]
    ensures AvailableCount(avail, locked, n) == UnlockedCount(locked, n)
    ensures EmptyCount(avail, locked, n) == 0
  {
    if n > 0 {
      AllStockedCounts(avail, locked, n - 1);
    }
  }

  /** Emptying one unlocked, stocked slot lowers the available count by exactly one. */
  lemma {:induction false} SaleLowersAvailable(avail: seq<bool>, locked: seq<bool>, n: nat, k: nat)
    requires n <= |avail| && n <= |locked| && k < |avail| && k < |locked|
    requires avail[k] && !locked[k]
    ensures AvailableCount(avail[k := false], locked, n)
         == AvailableCount(avail, locked, n) - (if k < n then 1 else 0)
  {
    if n > 0 {
      SaleLowersAvailable(avail, locked, n - 1, k);
    }
  }

  /** The two "already notified" flags: almostEmptyNotificationSent and emptyNotificationSent. */
  datatype Latches = Latches(almostEmptySent: bool, emptySent: bool)

  /** The stock alert settings: almostEmptyThreshold and the two notify switches. */
  datatype AlertConfig = AlertConfig(threshold: int, notifyAlmostEmpty: bool, notifyEmpty: bool)

  /** One checkOverallStockLevel with `available` stocked unlocked slots: the new latches and the notice sent, if any. */
  function CheckLevel(l: Latches, available: int, c: AlertConfig): (Latches, Option<Notice>)
  {
    if c.notifyAlmostEmpty && available > 0 && available <= c.threshold && !l.almostEmptySent then
      (Latches(true, false), Some(AlmostEmpty(available)))
    else if c.notifyEmpty && available == 0 && !l.emptySent then
      (Latches(true, true), Some(SoldOut))
    else if available > c.threshold then
      (Latches(false, false), None)
    else
      (l, None)
  }

  /**
   * What completeSale leaves in the alert latches and the notice queue once slot `s` is sold:
   * the sale notice if notifyOnSale is set, then one stock check over the ledger with `s`
   * marked empty.
   */
  predicate SaleRecorded(l: Latches, sent: seq<Notice>, avail: seq<bool>, locked: seq<bool>, n: nat,
                         s: int, c: AlertConfig, notifyOnSale: bool, l': Latches, sent': seq<Notice>)
    requires n <= |avail| && n <= |locked| && 0 <= s < |avail|
  {
    var (latches, notice) := CheckLevel(l, AvailableCount(avail[s := false], locked, n), c);
    l' == latches && sent' == sent + (if notifyOnSale then [Sale(s)] else []) + Listed(notice)
  }

  /**
   * The latch rules: "almost empty" is sent only for 0 < available <= threshold with its latch
   * clear, "sold out" only for available == 0 with its latch clear, and both latches are
   * cleared together only when available exceeds the threshold.
   */
  lemma CheckLevelRules(l: Latches, available: int, c: AlertConfig)
    ensures var (l', notice) := CheckLevel(l, available, c);
      && (notice == Some(AlmostEmpty(available)) <==>
            c.notifyAlmostEmpty && 0 < available <= c.threshold && !l.almostEmptySent)
      && (notice == Some(SoldOut) <==> c.notifyEmpty && available == 0 && !l.emptySent)
      && (notice == Some(SoldOut) ==> l' == Latches(true, true))
      && (notice == Some(AlmostEmpty(available)) ==> l' == Latches(true, false))
      && (notice.Some? ==> l'.almostEmptySent)
      && ((l.almostEmptySent || l.emptySent) && l' == Latches(false, false) <==>
            (l.almostEmptySent || l.emptySent) && notice == None && available > c.threshold)
  { }

  /** The notices produced by checking the levels in `levels` one after another. */
  function CheckLevels(l: Latches, levels: seq<int>, c: AlertConfig): (Latches, seq<Notice>)
    decreases |levels|
  {
    if levels == [] then (l, [])
    else
      var (l', n) := CheckLevel(l, levels[0], c);
      var (l'', ns) := CheckLevels(l', levels[1..], c);
      (l'', (if n.Some? then [n.value] else []) + ns)
  }

  function CountAlmostEmpty(ns: seq<Notice>): nat
  {
    if ns == [] then 0 else (if ns[0].AlmostEmpty? then 1 else 0) + CountAlmostEmpty(ns[1..])
  }

  function CountSoldOut(ns: seq<Notice>): nat
  {
    if ns == [] then 0 else (if ns[0].SoldOut? then 1 else 0) + CountSoldOut(ns[1..])
  }

  lemma {:induction false} CountsDistribute(a: seq<Notice>, b: seq<Notice>)
    ensures CountAlmostEmpty(a + b) == CountAlmostEmpty(a) + CountAlmostEmpty(b)
    ensures CountSoldOut(a + b) == CountSoldOut(a) + CountSoldOut(b)
  {
    if a == [] {
      assert a + b == b;
    } else {
      assert (a + b)[1..] == a[1..] + b;
      CountsDistribute(a[1..], b);
    }
  }

  /**
   * Hysteresis: while the stock stays at or below the threshold, "almost empty" is sent at most
   * once (never, if its latch is already set) and "sold out" at most once (never, once both
   * latches are set).
   */
  lemma {:induction false} AlertsAtMostOnceBelowThreshold(l: Latches, levels: seq<int>, c: AlertConfig)
    requires forall i :: 0 <= i < |levels| ==> levels[i] <= c.threshold
    ensures var (_, ns) := CheckLevels(l, levels, c);
      && CountAlmostEmpty(ns) <= (if l.almostEmptySent then 0 else 1)
      && CountSoldOut(ns) <= (if l.almostEmptySent && l.emptySent then 0 else 1)
    decreases |levels|
  {
    if levels != [] {
      var (l', n) := CheckLevel(l, levels[0], c);
      var (_, ns) := CheckLevels(l', levels[1..], c);
      AlertsAtMostOnceBelowThreshold(l', levels[1..], c);
      CountsDistribute(if n.Some? then [n.value] else [], ns);
    }
  }
}
