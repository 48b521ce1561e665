/**
 * The pulse accumulator: coin and bill validators report a payment as a burst of pulses; the
 * interrupt routines count them and the main loop drains a finished group into credit through
 * a pulse-count lookup table.
 */
module Payment {
  import opened Types

  /** Coin value in cents by pulse count (pulseValues). */
  const PULSE_VALUES: seq<nat> := [0, 0, 10, 20, 50, 100, 200]

  /** Bill value in whole euros by pulse count (billValues). */
  const BILL_VALUES: seq<nat> := [0, 0, 0, 0, 5, 0, 0, 0, 10, 0, 0, 0, 0, 0, 0, 0, 20]

  /**
   * The table value of a finished group of `n` pulses; 0 when the count is outside
   * 1..|table|-1 or maps to 0, both of which are rejected without credit.
   */
  function GroupValue(table: seq<nat>, n: nat): nat
  {
    if 0 < n < |table| then table[n] else 0
  }

  /** Cents credited for a coin group of `n` pulses. */
  function CoinCents(n: nat): nat { GroupValue(PULSE_VALUES, n) }

  /** Cents credited for a bill group of `n` pulses. */
  function BillCents(n: nat): nat { GroupValue(BILL_VALUES, n) * 100 }

  /** The coin table accepts exactly 2 to 6 pulses, as 0.10, 0.20, 0.50, 1.00 and 2.00. */
  lemma CoinTableAccepts(n: nat)
    ensures CoinCents(n) > 0 <==> 2 <= n <= 6
    ensures CoinCents(n) > 0 ==> CoinCents(n) == [10, 20, 50, 100, 200][n - 2]
  { }

  /** The bill table accepts exactly 4, 8 and 16 pulses, as 5, 10 and 20 euros. */
  lemma BillTableAccepts(n: nat)
    ensures BillCents(n) > 0 <==> n == 4 || n == 8 || n == 16
    ensures n == 4 ==> BillCents(n) == 500
    ensures n == 8 ==> BillCents(n) == 1000
    ensures n == 16 ==> BillCents(n) == 2000
  { }

  /** A pulse channel: the interrupt-written counter and the time of the last counted edge. */
  datatype Channel = Channel(pulses: nat, lastEdge: nat)

  /** An edge counted by the interrupt routine at time `now`. */
  function Edge(c: Channel, now: nat): Channel { Channel(c.pulses + 1, now) }

  /**
   * The drain in processAcceptedCoin / processBillAcceptorPulses: once pulses are pending and the
   * channel has been quiet for longer than `quiet`, the counter is read and zeroed and the group's
   * value in cents is returned; otherwise nothing happens.
   */
  function Drain(c: Channel, now: nat, quiet: nat, table: seq<nat>, scale: nat): (Channel, nat)
  {
    if c.pulses > 0 && now - c.lastEdge > quiet then
      (c.(pulses := 0), GroupValue(table, c.pulses) * scale)
    else
      (c, 0)
  }

  /** What reaches a channel: an edge from the validator, or a poll by the main loop. */
  datatype Event = PulseAt(t: nat) | PollAt(t: nat)

  /** The channel after `evs`, and the cents credited along the way. */
  function Feed(c: Channel, evs: seq<Event>, quiet: nat, table: seq<nat>, scale: nat): (Channel, nat)
    decreases |evs|
  {
    if evs == [] then (c, 0)
    else
      var (c', v) := match evs[0]
        case PulseAt(t) => (Edge(c, t), 0)
        case PollAt(t) => Drain(c, t, quiet, table, scale);
      var (c'', w) := Feed(c', evs[1..], quiet, table, scale);
      (c'', v + w)
  }

  function PulseCount(evs: seq<Event>): nat
    decreases |evs|
  {
    if evs == [] then 0 else (if evs[0].PulseAt? then 1 else 0) + PulseCount(evs[1..])
  }

  /** Every poll in `evs` comes no later than `quiet` after the latest edge before it. */
  predicate WithinGroup(c: Channel, evs: seq<Event>, quiet: nat)
    decreases |evs|
  {
    evs == [] ||
    match evs[0]
      case PulseAt(t) => WithinGroup(Edge(c, t), evs[1..], quiet)
      case PollAt(t) => t - c.lastEdge <= quiet && WithinGroup(c, evs[1..], quiet)
  }

  /** While the burst lasts every edge is counted and nothing is credited. */
  lemma {:induction false} BurstAccumulates(c: Channel, evs: seq<Event>, quiet: nat, table: seq<nat>, scale: nat)
    requires WithinGroup(c, evs, quiet)
    ensures var (c', v) := Feed(c, evs, quiet, table, scale);
            c'.pulses == c.pulses + PulseCount(evs) && v == 0
    decreases |evs|
  {
    if evs != [] {
      match evs[0]
      case PulseAt(t) => BurstAccumulates(Edge(c, t), evs[1..], quiet, table, scale);
      case PollAt(t) => BurstAccumulates(c, evs[1..], quiet, table, scale);
    }
  }

  /**
   * Pulse grouping: a burst of N edges, with every poll inside the grouping window, followed by
   * a poll after the window has elapsed, credits the table value of N once and empties the counter.
   */
  lemma OneCreditPerGroup(evs: seq<Event>, t0: nat, quiet: nat, table: seq<nat>, scale: nat, done: nat)
    requires WithinGroup(Channel(0, t0), evs, quiet)
    requires PulseCount(evs) > 0
    requires done - Feed(Channel(0, t0), evs, quiet, table, scale).0.lastEdge > quiet
    ensures var (c', v) := Feed(Channel(0, t0), evs + [PollAt(done)], quiet, table, scale);
            c'.pulses == 0 && v == GroupValue(table, PulseCount(evs)) * scale
  {
    var c := Channel(0, t0);
    BurstAccumulates(c, evs, quiet, table, scale);
    FeedAppend(c, evs, PollAt(done), quiet, table, scale);
  }

  /** Feeding one more event continues from where `evs` left the channel. */
  lemma {:induction false} FeedAppend(c: Channel, evs: seq<Event>, e: Event, quiet: nat, table: seq<nat>, scale: nat)
    ensures var (c1, v1) := Feed(c, evs, quiet, table, scale);
            var (c2, v2) := Feed(c1, [e], quiet, table, scale);
            Feed(c, evs + [e], quiet, table, scale) == (c2, v1 + v2)
    decreases |evs|
  {
    if evs == [] {
      assert evs + [e] == [e];
    } else {
      assert (evs + [e])[1..] == evs[1..] + [e];
      FeedAppend(match evs[0] case PulseAt(t) => Edge(c, t) case PollAt(t) => Drain(c, t, quiet, table, scale).0,
                 evs[1..], e, quiet, table, scale);
    }
  }
}
