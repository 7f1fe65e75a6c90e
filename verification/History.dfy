// The bounded probe history of one hop (history.rs), against the unbounded log it is a window of.
module Histories {
  import opened Common
  import opened Mpls
  import opened Responses

  datatype Sample = Pending(sentAt: real) | Rtt(us: u32) | Lost

  /** One probe in full; `seqNo` is the hop's send counter, starting at 1. */
  datatype HistoryEntry = HistoryEntry(seqNo: int, sent: real, sample: Sample, result: Option<ProbeResult>,
                                       mpls: seq<MplsLabel>)

  datatype HistoryState = HistoryState(samples: seq<HistoryEntry>, baseSeq: int, capacity: nat)

  function Fresh(seqNo: int, now: real): HistoryEntry {
    HistoryEntry(seqNo, now, Pending(now), None, [])
  }

  function Settle(e: HistoryEntry, sample: Sample, result: Option<ProbeResult>, mpls: seq<MplsLabel>): HistoryEntry {
    e.(sample := sample, result := result, mpls := mpls)
  }

  /** Position of send number `savedSeq` in the ring, unless it was evicted. */
  function Index(h: HistoryState, savedSeq: int): (r: Option<nat>)
    ensures r.Some? ==> r.value < |h.samples|
  {
    var i := savedSeq - h.baseSeq;
    if 0 <= i < |h.samples| then Some(i) else None
  }

  function AfterPush(h: HistoryState, savedSeq: int, now: real): HistoryState {
    var base := if h.samples == [] then savedSeq else h.baseSeq;
    if |h.samples| == h.capacity && h.samples != [] then
      HistoryState(h.samples[1..] + [Fresh(savedSeq, now)], base + 1, h.capacity)
    else HistoryState(h.samples + [Fresh(savedSeq, now)], base, h.capacity)
  }

  function AfterOutcome(h: HistoryState, savedSeq: int, sample: Sample, result: Option<ProbeResult>,
                        mpls: seq<MplsLabel>): HistoryState {
    match Index(h, savedSeq)
    case None => h
    case Some(i) => h.(samples := h.samples[i := Settle(h.samples[i], sample, result, mpls)])
  }

  class History {
    var samples: seq<HistoryEntry>
    var baseSeq: int
    const capacity: nat

    function View(): HistoryState
      reads this
    {
      HistoryState(samples, baseSeq, capacity)
    }

    constructor (capacity: nat)
      ensures View() == HistoryState([], 1, Max(capacity, 1))
    {
      samples, baseSeq := [], 1;
      this.capacity := Max(capacity, 1);
    }

    method PushSent(savedSeq: int, now: real)
      requires capacity > 0
      modifies this
      ensures View() == AfterPush(old(View()), savedSeq, now)
    {
      if samples == [] {
        baseSeq := savedSeq;
      }
      if |samples| == capacity {
        samples := samples[1..];
        baseSeq := baseSeq + 1;
      }
      samples := samples + [Fresh(savedSeq, now)];
    }

    method RecordOutcome(savedSeq: int, sample: Sample, result: Option<ProbeResult>, mpls: seq<MplsLabel>)
      modifies this
      ensures View() == AfterOutcome(old(View()), savedSeq, sample, result, mpls)
    {
      var i := Index(View(), savedSeq);
      if i.Some? {
        samples := samples[i.value := Settle(samples[i.value], sample, result, mpls)];
      }
    }

    method Clear()
      modifies this
      ensures View() == HistoryState([], 1, capacity)
    {
      samples, baseSeq := [], 1;
    }
  }

  // ----- The window of a log -----

  /** The ring that shows the last `capacity` entries of `log`. */
  function RingOf(log: seq<HistoryEntry>, capacity: nat): (r: HistoryState)
    ensures |r.samples| == Min(|log|, capacity)
    ensures r.baseSeq == |log| - |r.samples| + 1
  {
    var n := Min(|log|, capacity);
    HistoryState(log[|log| - n..], |log| - n + 1, capacity)
  }

  /** Pushing onto the ring is pushing onto the log. */
  lemma PushIsLogPush(log: seq<HistoryEntry>, capacity: nat, now: real)
    requires capacity > 0
    ensures AfterPush(RingOf(log, capacity), |log| + 1, now) == RingOf(log + [Fresh(|log| + 1, now)], capacity)
  {
    var n := Min(|log|, capacity);
    var all := log + [Fresh(|log| + 1, now)];
    if |log| >= capacity {
      assert all[|all| - capacity..] == log[|log| - n..][1..] + [Fresh(|log| + 1, now)];
    } else {
      assert log[0..] == log && all[0..] == all;
    }
  }

  /** Settling entry `k` of the ring is settling it in the log; once evicted, only the log knows. */
  lemma OutcomeIsLogOutcome(log: seq<HistoryEntry>, capacity: nat, k: nat, sample: Sample,
                            result: Option<ProbeResult>, mpls: seq<MplsLabel>)
    requires 1 <= k <= |log|
    ensures AfterOutcome(RingOf(log, capacity), k, sample, result, mpls)
            == RingOf(log[k - 1 := Settle(log[k - 1], sample, result, mpls)], capacity)
  {
    var n := Min(|log|, capacity);
    var settled := log[k - 1 := Settle(log[k - 1], sample, result, mpls)];
    var start := |log| - n;
    if k - 1 < start {
      assert settled[start..] == log[start..];
    } else {
      assert settled[start..] == log[start..][k - 1 - start := Settle(log[k - 1], sample, result, mpls)];
    }
  }
}
