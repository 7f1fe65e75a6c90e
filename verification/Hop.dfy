// A hop (hop.rs): responders, counters and history, updated together.
module Hops {
  import opened Common
  import opened Mpls
  import opened Responses
  import opened Stats
  import opened Histories

  const MAX_PATH := 128

  datatype HopError = ErrNetworkDown | ErrHostDown | ErrNoRouteNetwork | ErrNoRouteHost

  /** A responder and what it was last heard with. */
  datatype HopAddr = HopAddr(addr: IpAddr, mpls: seq<MplsLabel>, firstSeen: real, lastSeen: real, count: nat,
                             lastRtt: u32)

  datatype ReplyInfo = ReplyInfo(savedSeq: int, from: IpAddr, rtt: u32, mpls: seq<MplsLabel>, result: ProbeResult,
                                 err: Option<HopError>, now: real, overwriteAddr: bool, cache: bool)

  datatype HopState = HopState(addr: Option<IpAddr>, addrs: seq<HopAddr>, mpls: seq<MplsLabel>,
                               err: Option<HopError>, outstanding: bool, up: bool, seen: Option<real>,
                               stats: Statistics, history: HistoryState)

  function NewHop(capacity: nat): HopState {
    HopState(None, [], [], None, false, false, None, NO_STATS, HistoryState([], 1, Max(capacity, 1)))
  }

  // ----- Responders -----

  function FindAddr(addrs: seq<HopAddr>, from: IpAddr): (r: Option<nat>)
    ensures r.Some? ==> r.value < |addrs| && addrs[r.value].addr == from
    ensures r.None? ==> forall i :: 0 <= i < |addrs| ==> addrs[i].addr != from
  {
    if addrs == [] then None
    else if addrs[0].addr == from then Some(0)
    else match FindAddr(addrs[1..], from) case Some(i) => Some(i + 1) case None => None
  }

  function AfterResponder(addrs: seq<HopAddr>, r: ReplyInfo): seq<HopAddr> {
    match FindAddr(addrs, r.from)
    case Some(i) => addrs[i := addrs[i].(count := addrs[i].count + 1, lastSeen := r.now, lastRtt := r.rtt)]
    case None =>
      if |addrs| < MAX_PATH then addrs + [HopAddr(r.from, r.mpls, r.now, r.now, 1, r.rtt)] else addrs
  }

  /** A reply asks for name resolution exactly when its sender is new and is remembered. */
  function IsNewResponder(addrs: seq<HopAddr>, from: IpAddr): bool {
    FindAddr(addrs, from).None? && |addrs| < MAX_PATH
  }

  predicate DistinctResponders(addrs: seq<HopAddr>) {
    |addrs| <= MAX_PATH && forall i, j :: 0 <= i < j < |addrs| ==> addrs[i].addr != addrs[j].addr
  }

  function TotalCount(addrs: seq<HopAddr>): nat {
    if addrs == [] then 0 else TotalCount(addrs[..|addrs| - 1]) + addrs[|addrs| - 1].count
  }

  lemma {:induction false} TotalCountUpdate(addrs: seq<HopAddr>, i: nat, a: HopAddr)
    requires i < |addrs|
    ensures TotalCount(addrs[i := a]) == TotalCount(addrs) - addrs[i].count + a.count
  {
    var n := |addrs| - 1;
    if i == n {
      assert addrs[i := a][..n] == addrs[..n];
    } else {
      TotalCountUpdate(addrs[..n], i, a);
      assert addrs[i := a][..n] == addrs[..n][i := a];
    }
  }

  lemma CountAgain(addrs: seq<HopAddr>, i: nat, a: HopAddr)
    requires DistinctResponders(addrs) && i < |addrs| && a.addr == addrs[i].addr && a.count == addrs[i].count + 1
    ensures DistinctResponders(addrs[i := a]) && TotalCount(addrs[i := a]) == TotalCount(addrs) + 1
  {
    TotalCountUpdate(addrs, i, a);
  }

  lemma CountFirst(addrs: seq<HopAddr>, a: HopAddr)
    requires DistinctResponders(addrs) && FindAddr(addrs, a.addr).None? && |addrs| < MAX_PATH && a.count == 1
    ensures DistinctResponders(addrs + [a]) && TotalCount(addrs + [a]) == TotalCount(addrs) + 1
  {
    hide FindAddr, TotalCount;
    TotalCountPush(addrs, a);
    assert forall i :: 0 <= i < |addrs| ==> addrs[i].addr != a.addr;
  }

  lemma TotalCountPush(addrs: seq<HopAddr>, a: HopAddr)
    ensures TotalCount(addrs + [a]) == TotalCount(addrs) + a.count
  {
    assert (addrs + [a])[..|addrs|] == addrs;
  }

  /** Responders stay distinct and at most 128; every reply is counted under its sender unless the
      table is full of others. */
  lemma ResponderIsCounted(addrs: seq<HopAddr>, r: ReplyInfo)
    requires DistinctResponders(addrs)
    ensures DistinctResponders(AfterResponder(addrs, r))
    ensures TotalCount(AfterResponder(addrs, r))
            == TotalCount(addrs) + if FindAddr(addrs, r.from).Some? || |addrs| < 128 then 1 else 0
  {
    hide TotalCount, DistinctResponders, FindAddr;
    match FindAddr(addrs, r.from) {
      case Some(i) =>
        CountAgain(addrs, i, addrs[i].(count := addrs[i].count + 1, lastSeen := r.now, lastRtt := r.rtt));
      case None =>
        if |addrs| < MAX_PATH {
          CountFirst(addrs, HopAddr(r.from, r.mpls, r.now, r.now, 1, r.rtt));
        }
    }
  }

  // ----- Specification of the updates -----

  function HopAfterSend(h: HopState, now: real): HopState {
    h.(stats := AfterSend(h.stats),
       up := if h.outstanding then false else h.up,
       outstanding := true,
       history := AfterPush(h.history, h.stats.xmit + 1, now))
  }

  function HopAfterReply(h: HopState, r: ReplyInfo): HopState
    requires h.stats.rtts.returned >= 0
  {
    var overwrite := h.addr != Some(r.from) && r.overwriteAddr;
    HopState(if overwrite then Some(r.from) else h.addr,
             AfterResponder(h.addrs, r),
             if overwrite then r.mpls else h.mpls,
             r.err, false, true,
             if r.cache then Some(r.now) else h.seen,
             AfterReply(h.stats, WrapI32(r.rtt)),
             AfterOutcome(h.history, r.savedSeq, Rtt(r.rtt), Some(r.result), r.mpls))
  }

  function HopAfterNoReply(h: HopState, savedSeq: int): HopState {
    h.(history := AfterOutcome(h.history, savedSeq, Lost, None, []))
  }

  function HopAfterSendError(h: HopState, err: HopError, savedSeq: int): HopState {
    h.(err := Some(err), outstanding := false, stats := h.stats.(transit := 0),
       history := AfterOutcome(h.history, savedSeq, Lost, None, []))
  }

  function HopAfterEndTransit(h: HopState): HopState {
    h.(stats := h.stats.(transit := 0))
  }

  // ----- The class -----

  class Hop {
    var addr: Option<IpAddr>
    var addrs: seq<HopAddr>
    var mpls: seq<MplsLabel>
    var err: Option<HopError>
    var outstanding: bool
    var up: bool
    var seen: Option<real>
    const stats: RttStats
    const history: History

    function View(): HopState
      reads this, stats, history
    {
      HopState(addr, addrs, mpls, err, outstanding, up, seen, stats.View(), history.View())
    }

    constructor (historyLen: nat)
      ensures View() == NewHop(historyLen) && fresh(stats) && fresh(history)
    {
      addr, addrs, mpls, err := None, [], [], None;
      outstanding, up, seen := false, false, None;
      stats := new RttStats();
      history := new History(historyLen);
    }

    method RecordSend(now: real) returns (savedSeq: int)
      requires history.capacity > 0
      modifies this, stats, history
      ensures View() == HopAfterSend(old(View()), now)
      ensures savedSeq == View().stats.xmit
    {
      stats.RecordSend();
      if outstanding {
        up := false;
      }
      outstanding := true;
      savedSeq := stats.xmit;
      history.PushSent(savedSeq, now);
    }

    method NoteResponder(r: ReplyInfo) returns (isNew: bool)
      modifies `addrs
      ensures addrs == AfterResponder(old(addrs), r) && isNew == IsNewResponder(old(addrs), r.from)
    {
      isNew := false;
      var found := FindAddr(addrs, r.from);
      match found {
        case Some(i) =>
          addrs := addrs[i := addrs[i].(count := addrs[i].count + 1, lastSeen := r.now, lastRtt := r.rtt)];
        case None =>
          if |addrs| < MAX_PATH {
            addrs := addrs + [HopAddr(r.from, r.mpls, r.now, r.now, 1, r.rtt)];
            isNew := true;
          }
      }
    }

    method RecordReply(r: ReplyInfo) returns (isNew: bool)
      requires stats.returned >= 0
      modifies this, stats, history
      ensures View() == HopAfterReply(old(View()), r)
      ensures isNew == IsNewResponder(old(addrs), r.from)
    {
      hide AfterRtt, AfterOutcome, AfterResponder, IsNewResponder;
      err := r.err;
      isNew := NoteResponder(r);
      if addr != Some(r.from) && r.overwriteAddr {
        addr := Some(r.from);
        mpls := r.mpls;
      }
      stats.RecordReply(WrapI32(r.rtt));
      outstanding := false;
      up := true;
      if r.cache {
        seen := Some(r.now);
      }
      history.RecordOutcome(r.savedSeq, Rtt(r.rtt), Some(r.result), r.mpls);
    }

    method RecordNoReply(savedSeq: int)
      modifies history
      ensures View() == HopAfterNoReply(old(View()), savedSeq)
    {
      history.RecordOutcome(savedSeq, Lost, None, []);
    }

    method RecordSendError(e: HopError, savedSeq: int)
      modifies this, stats, history
      ensures View() == HopAfterSendError(old(View()), e, savedSeq)
    {
      err := Some(e);
      outstanding := false;
      stats.transit := 0;
      history.RecordOutcome(savedSeq, Lost, None, []);
    }

    method EndTransit()
      modifies stats
      ensures View() == HopAfterEndTransit(old(View()))
    {
      stats.transit := 0;
    }

    /** Afterwards nothing of the past is left but the capacity. */
    method Reset()
      requires history.capacity > 0
      modifies this, stats, history
      ensures View() == NewHop(history.capacity)
    {
      addr, addrs, mpls, err := None, [], [], None;
      outstanding, up, seen := false, false, None;
      stats.Clear();
      history.Clear();
    }
  }
}
