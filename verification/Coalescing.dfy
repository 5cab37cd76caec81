/** Power-aware coalescing (kernel/netfs.c, kernel/power.c): key presses and outgoing packets are
    queued and handed on in batches, by policies that depend on the power mode. */
module Coalescing {
  import opened Bytes

  const PERFORMANCE: nat := 0
  const BALANCED: nat := 1
  const ENERGY_SAVER: nat := 2

  const MAX_PAYLOAD: nat := 256
  const QUEUE_CAP: nat := 32
  const KEY_CAP: nat := 256

  datatype Packet = Packet(id: nat, ticks: nat, data: seq<byte>)

  const NO_PACKET: Packet := Packet(0, 0, [])

  /** The state of netfs.c, queues in order. `sent` and `received` are what has passed through
      transmit_now and enqueue_rx_packet so far. */
  datatype Net = Net(rx: seq<Packet>, tx: seq<Packet>, txPendingBytes: nat, nextId: nat, loopback: bool,
                     txPackets: nat, txBytes: nat, rxPackets: nat, rxBytes: nat, dropped: nat, lastId: nat,
                     sent: seq<seq<byte>>, received: seq<Packet>)

  /** The state of power.c. `delivered` is what has been passed to keyboard_buffer_put so far. */
  datatype Power = Power(mode: nat, keys: seq<char>, ticksSinceFlush: nat, pendingKeys: nat,
                         pendingTxPackets: nat, pendingTxBytes: nat, wakeups: nat, keyboardEvents: nat,
                         coalesced: nat, keyboardFlushes: nat, enqueued: nat, flushed: nat, netFlushes: nat,
                         switches: nat, delivered: seq<char>)

  datatype System = System(net: Net, power: Power)

  // ---- Packets ----

  function Clamp(data: seq<byte>): seq<byte>
  {
    if |data| > MAX_PAYLOAD then data[..MAX_PAYLOAD] else data
  }

  /** The last `cap` elements, or all of them. */
  function Last<T>(s: seq<T>, cap: nat): seq<T>
  {
    if |s| <= cap then s else s[|s| - cap..]
  }

  function Payloads(ps: seq<Packet>): (ds: seq<seq<byte>>)
    ensures |ds| == |ps|
  {
    if |ps| == 0 then [] else [ps[0].data] + Payloads(ps[1..])
  }

  function TotalLength(ds: seq<seq<byte>>): nat
  {
    if |ds| == 0 then 0 else |ds[0]| + TotalLength(ds[1..])
  }

  lemma {:induction false} PayloadsAppend(ps: seq<Packet>, qs: seq<Packet>)
    ensures Payloads(ps + qs) == Payloads(ps) + Payloads(qs)
  {
    if |ps| == 0 {
      assert ps + qs == qs;
    } else {
      assert (ps + qs)[1..] == ps[1..] + qs;
      PayloadsAppend(ps[1..], qs);
    }
  }

  lemma {:induction false} TotalAppend(a: seq<seq<byte>>, b: seq<seq<byte>>)
    ensures TotalLength(a + b) == TotalLength(a) + TotalLength(b)
  {
    if |a| == 0 {
      assert a + b == b;
    } else {
      assert (a + b)[1..] == a[1..] + b;
      TotalAppend(a[1..], b);
    }
  }

  /** A full receive queue loses its oldest packet. */
  function MakeRoom(n: Net): Net
  {
    if |n.rx| == QUEUE_CAP then n.(rx := n.rx[1..], dropped := n.dropped + 1) else n
  }

  function EnqueueRx(n: Net, data: seq<byte>, now: nat): Net
  {
    var m := MakeRoom(n);
    var pkt := Packet(m.nextId, now, Clamp(data));
    m.(rx := m.rx + [pkt], nextId := m.nextId + 1, rxPackets := m.rxPackets + 1, rxBytes := m.rxBytes + |pkt.data|,
       lastId := pkt.id, received := m.received + [pkt])
  }

  function TransmitNow(n: Net, data: seq<byte>, now: nat): Net
  {
    var n1 := n.(txPackets := n.txPackets + 1, txBytes := n.txBytes + |data|, sent := n.sent + [data]);
    if n.loopback then EnqueueRx(n1, data, now) else n1
  }

  function SetPending(p: Power, packets: nat, bytes: nat): Power
  {
    p.(pendingTxPackets := packets, pendingTxBytes := bytes)
  }

  function NoteEnqueued(p: Power, bytes: nat): Power
  {
    p.(enqueued := p.enqueued + 1, pendingTxPackets := p.pendingTxPackets + 1, pendingTxBytes := p.pendingTxBytes + bytes)
  }

  function NoteFlushed(p: Power, packets: nat, bytes: nat): Power
  {
    if packets == 0 then p
    else p.(wakeups := p.wakeups + 1, netFlushes := p.netFlushes + 1, flushed := p.flushed + packets,
            pendingTxPackets := if p.pendingTxPackets >= packets then p.pendingTxPackets - packets else 0,
            pendingTxBytes := if p.pendingTxBytes >= bytes then p.pendingTxBytes - bytes else 0)
  }

  function EnqueueTx(s: System, data: seq<byte>, now: nat): (bool, System)
  {
    var n, d := s.net, Clamp(data);
    if |n.tx| == QUEUE_CAP then (false, s)
    else
      var n1 := n.(tx := n.tx + [Packet(n.nextId, now, d)], nextId := n.nextId + 1, txPendingBytes := n.txPendingBytes + |d|);
      (true, System(n1, SetPending(NoteEnqueued(s.power, |d|), |n1.tx|, n1.txPendingBytes)))
  }

  /** The loop of flush_tx_queue. */
  function Drain(n: Net, now: nat): Net
    decreases |n.tx|
  {
    if |n.tx| == 0 then n else Drain(TransmitNow(n, n.tx[0].data, now).(tx := n.tx[1..]), now)
  }

  function FlushTx(s: System, now: nat): System
  {
    System(Drain(s.net, now).(txPendingBytes := 0),
           NoteFlushed(SetPending(s.power, 0, 0), |s.net.tx|, TotalLength(Payloads(s.net.tx))))
  }

  function BatchLimit(mode: nat): nat
  {
    if mode == PERFORMANCE then 1 else if mode == BALANCED then 4 else if mode == ENERGY_SAVER then 16 else 4
  }

  function FlushInterval(mode: nat): nat
  {
    if mode == PERFORMANCE then 1 else if mode == BALANCED then 3 else if mode == ENERGY_SAVER then 12 else 3
  }

  /** A write to /net/tx. */
  function WriteTx(s: System, data: seq<byte>, now: nat): System
  {
    if s.power.mode == PERFORMANCE then s.(net := TransmitNow(s.net, data, now))
    else
      var (ok, s1) := EnqueueTx(s, data, now);
      var s2 := if ok then s1 else EnqueueTx(FlushTx(s, now), data, now).1;
      if |s2.net.tx| >= BatchLimit(s2.power.mode) then FlushTx(s2, now) else s2
  }

  // ---- Keys, modes and ticks ----

  function KeyboardChar(p: Power, ch: char): Power
  {
    var p1 := p.(keyboardEvents := p.keyboardEvents + 1);
    if p.mode == PERFORMANCE || |p.keys| >= KEY_CAP then p1.(wakeups := p.wakeups + 1, delivered := p.delivered + [ch])
    else p1.(keys := p.keys + [ch], pendingKeys := |p.keys| + 1, coalesced := p.coalesced + 1)
  }

  function FlushKeys(p: Power): Power
  {
    if |p.keys| == 0 then p
    else p.(wakeups := p.wakeups + 1, keyboardFlushes := p.keyboardFlushes + 1, delivered := p.delivered + p.keys,
            keys := [], pendingKeys := 0)
  }

  function SetMode(p: Power, mode: nat): Power
  {
    if mode > ENERGY_SAVER then p else p.(mode := mode, switches := p.switches + 1)
  }

  function NetTick(s: System, now: nat): System
  {
    if s.power.mode != PERFORMANCE && |s.net.tx| > 0 then FlushTx(s, now) else s
  }

  function TickHook(s: System, now: nat): System
  {
    var p := s.power.(ticksSinceFlush := s.power.ticksSinceFlush + 1);
    if p.ticksSinceFlush < FlushInterval(p.mode) then s.(power := p)
    else
      var t := NetTick(s.(power := FlushKeys(p)), now);
      t.(power := t.power.(ticksSinceFlush := 0))
  }

  /** Everything that can happen, each with the time it happens at. */
  datatype Op =
    | Write(data: seq<byte>, now: nat)
    | Inject(data: seq<byte>, now: nat)
    | Loopback(on: bool)
    | Flush(now: nat)
    | Tick(now: nat)
    | Mode(mode: nat)
    | Key(ch: char)

  function Apply(s: System, op: Op): System
  {
    match op
    case Write(data, now) => WriteTx(s, data, now)
    case Inject(data, now) => s.(net := EnqueueRx(s.net, data, now))
    case Loopback(on) => s.(net := s.net.(loopback := on))
    case Flush(now) => FlushTx(s, now)
    case Tick(now) => TickHook(s, now)
    case Mode(mode) => s.(power := SetMode(s.power, mode))
    case Key(ch) => s.(power := KeyboardChar(s.power, ch))
  }

  function Run(s: System, ops: seq<Op>): System
    decreases |ops|
  {
    if |ops| == 0 then s else Run(Apply(s, ops[0]), ops[1..])
  }

  // ---- What every operation keeps ----

  /** The receive ring holds exactly the last 32 packets received, and the counters say so. */
  ghost predicate RxInv(n: Net)
  {
    n.rx == Last(n.received, QUEUE_CAP) && n.rxPackets == |n.received| && n.rxPackets == |n.rx| + n.dropped &&
    n.rxBytes == TotalLength(Payloads(n.received)) &&
    IdsInOrder(n.received, n.lastId, n.nextId)
  }

  /** Packets are received under increasing ids, and the last one is remembered. */
  ghost predicate IdsInOrder(received: seq<Packet>, lastId: nat, nextId: nat)
  {
    (forall i, j :: 0 <= i < j < |received| ==> received[i].id < received[j].id) &&
    (|received| > 0 ==> lastId == received[|received| - 1].id < nextId)
  }

  lemma NextIdInOrder(received: seq<Packet>, lastId: nat, nextId: nat, pkt: Packet)
    requires IdsInOrder(received, lastId, nextId) && pkt.id == nextId
    ensures IdsInOrder(received + [pkt], pkt.id, nextId + 1) && IdsInOrder(received, lastId, nextId + 1)
  {
  }

  lemma LastPush<T>(s: seq<T>, cap: nat, x: T)
    requires cap > 0
    ensures Last(s + [x], cap) == (if |Last(s, cap)| == cap then Last(s, cap)[1..] else Last(s, cap)) + [x]
  {
  }

  /** The transmit counters, and the pending ones on both sides of the module boundary. */
  ghost predicate TxInv(s: System)
  {
    s.net.txPackets == |s.net.sent| && s.net.txBytes == TotalLength(s.net.sent) && |s.net.tx| <= 15 &&
    s.power.pendingTxPackets == |s.net.tx| && s.power.pendingTxBytes == TotalLength(Payloads(s.net.tx)) &&
    s.net.txPendingBytes == s.power.pendingTxBytes && s.power.enqueued == s.power.flushed + |s.net.tx|
  }

  /** Keys are delivered or pending, never lost; wakeups are accounted for. */
  ghost predicate PowerInv(p: Power)
  {
    p.mode <= ENERGY_SAVER && p.ticksSinceFlush <= 11 && |p.keys| <= KEY_CAP && p.pendingKeys == |p.keys| &&
    |p.delivered| + |p.keys| == p.keyboardEvents && p.keyboardFlushes + |p.keys| <= p.coalesced <= p.keyboardEvents &&
    p.netFlushes <= p.flushed &&
    p.wakeups == (p.keyboardEvents - p.coalesced) + p.keyboardFlushes + p.netFlushes
  }

  ghost predicate Inv(s: System)
  {
    RxInv(s.net) && TxInv(s) && PowerInv(s.power)
  }

  /** netfs_init and power_init. */
  function Init(): System
  {
    System(Net([], [], 0, 1, true, 0, 0, 0, 0, 0, 0, [], []), Power(BALANCED, [], 0, 0, 0, 0, 0, 0, 0, 0, 0, 0, 0, 0, []))
  }

  lemma InitInv()
    ensures Inv(Init())
  {
    var s := Init();
    assert RxInv(s.net) && TxInv(s);
    assert PowerInv(s.power);
  }

  lemma EnqueueRxInv(n: Net, data: seq<byte>, now: nat)
    requires RxInv(n)
    ensures RxInv(EnqueueRx(n, data, now))
  {
    var pkt := Packet(n.nextId, now, Clamp(data));
    NextIdInOrder(n.received, n.lastId, n.nextId, pkt);
    LastPush(n.received, QUEUE_CAP, pkt);
    hide IdsInOrder, Clamp;
    PayloadsAppend(n.received, [pkt]);
    TotalAppend(Payloads(n.received), [pkt.data]);
    assert Payloads([pkt]) == [pkt.data];
    assert TotalLength([pkt.data]) == |pkt.data|;
  }

  ghost predicate SentInv(n: Net)
  {
    n.txPackets == |n.sent| && n.txBytes == TotalLength(n.sent)
  }

  lemma TransmitInv(n: Net, data: seq<byte>, now: nat)
    requires RxInv(n) && SentInv(n)
    ensures RxInv(TransmitNow(n, data, now)) && SentInv(TransmitNow(n, data, now))
  {
    hide IdsInOrder, Last;
    TotalAppend(n.sent, [data]);
    assert TotalLength([data]) == |data|;
    var n1 := n.(txPackets := n.txPackets + 1, txBytes := n.txBytes + |data|, sent := n.sent + [data]);
    EnqueueRxInv(n1, data, now);
  }

  /** A flush sends everything that was queued, in order. */
  lemma {:induction false} DrainSends(n: Net, now: nat)
    requires RxInv(n) && SentInv(n)
    ensures var m := Drain(n, now);
            RxInv(m) && SentInv(m) && m.tx == [] && m.sent == n.sent + Payloads(n.tx) && m.loopback == n.loopback
    decreases |n.tx|
  {
    hide IdsInOrder, Last, Clamp;
    if |n.tx| > 0 {
      TransmitInv(n, n.tx[0].data, now);
      var n1 := TransmitNow(n, n.tx[0].data, now).(tx := n.tx[1..]);
      assert RxInv(n1) && SentInv(n1);
      DrainSends(n1, now);
    }
  }

  lemma FlushInv(s: System, now: nat)
    requires RxInv(s.net) && SentInv(s.net) && PowerInv(s.power) && s.power.enqueued == s.power.flushed + |s.net.tx|
    ensures Inv(FlushTx(s, now)) && FlushTx(s, now).net.tx == [] &&
            FlushTx(s, now).net.sent == s.net.sent + Payloads(s.net.tx)
  {
    DrainSends(s.net, now);
  }

  lemma EnqueueTxInv(s: System, data: seq<byte>, now: nat)
    requires Inv(s)
    ensures var t := EnqueueTx(s, data, now).1;
            RxInv(t.net) && SentInv(t.net) && PowerInv(t.power) && t.power.enqueued == t.power.flushed + |t.net.tx| &&
            t.net.tx == s.net.tx + [Packet(s.net.nextId, now, Clamp(data))] &&
            Payloads(t.net.tx) == Payloads(s.net.tx) + [Clamp(data)] &&
            t.power.pendingTxPackets == |t.net.tx| && t.power.pendingTxBytes == TotalLength(Payloads(t.net.tx)) &&
            t.net.txPendingBytes == t.power.pendingTxBytes
  {
    var pkt := Packet(s.net.nextId, now, Clamp(data));
    NextIdInOrder(s.net.received, s.net.lastId, s.net.nextId, pkt);
    hide IdsInOrder, Last, Clamp;
    PayloadsAppend(s.net.tx, [pkt]);
    assert Payloads([pkt]) == [pkt.data];
    TotalAppend(Payloads(s.net.tx), [pkt.data]);
    assert TotalLength([pkt.data]) == |pkt.data|;
  }

  lemma WriteInv(s: System, data: seq<byte>, now: nat)
    requires Inv(s)
    ensures Inv(WriteTx(s, data, now))
  {
    if s.power.mode == PERFORMANCE {
      TransmitInv(s.net, data, now);
    } else {
      EnqueueTxInv(s, data, now);
      FlushInv(EnqueueTx(s, data, now).1, now);
    }
  }

  lemma FlushKeysInv(p: Power)
    requires PowerInv(p.(ticksSinceFlush := 0))
    ensures PowerInv(FlushKeys(p).(ticksSinceFlush := 0)) && FlushKeys(p).keys == []
    ensures FlushKeys(p).delivered == p.delivered + p.keys
  {
  }

  lemma TickInv(s: System, now: nat)
    requires Inv(s)
    ensures Inv(TickHook(s, now))
  {
    var p := s.power.(ticksSinceFlush := s.power.ticksSinceFlush + 1);
    if p.ticksSinceFlush >= FlushInterval(p.mode) {
      var t := s.(power := FlushKeys(p));
      FlushKeysInv(p);
      NetTickApart(t, now);
      hide FlushKeys, NetTick, FlushTx;
      NetTickInv(t.(power := t.power.(ticksSinceFlush := 0)), now);
    }
  }

  /** The network's part of a tick does not touch the tick counter. */
  lemma NetTickApart(s: System, now: nat)
    ensures NetTick(s.(power := s.power.(ticksSinceFlush := 0)), now) ==
            var t := NetTick(s, now); t.(power := t.power.(ticksSinceFlush := 0))
  {
    hide Drain;
  }

  lemma NetTickInv(s: System, now: nat)
    requires Inv(s)
    ensures Inv(NetTick(s, now))
  {
    hide RxInv;
    FlushInv(s, now);
  }

  lemma ApplyInv(s: System, op: Op)
    requires Inv(s)
    ensures Inv(Apply(s, op))
  {
    match op
    case Write(data, now) => WriteInv(s, data, now);
    case Inject(data, now) => EnqueueRxInv(s.net, data, now);
    case Loopback(_) =>
    case Flush(now) => FlushInv(s, now);
    case Tick(now) => TickInv(s, now);
    case Mode(_) =>
    case Key(_) =>
  }

  /** Whatever happens: the receive ring is the last 32 packets, every counter obeys its law, at most 15
      packets wait, and the tick counter stays below 12. */
  lemma {:induction false} RunInv(s: System, ops: seq<Op>)
    requires Inv(s)
    ensures Inv(Run(s, ops))
    decreases |ops|
  {
    if |ops| > 0 {
      ApplyInv(s, ops[0]);
      RunInv(Apply(s, ops[0]), ops[1..]);
    }
  }

  /** Coalescing never costs more wakeups than there were key presses and queued writes. */
  lemma WakeupsBounded(ops: seq<Op>)
    ensures var p := Run(Init(), ops).power; p.wakeups <= p.keyboardEvents + p.enqueued
  {
    InitInv();
    RunInv(Init(), ops);
  }

  /** "wakeups saved" in the shell's power status. */
  function WakeupsSaved(p: Power): nat
  {
    var total := p.keyboardEvents + p.enqueued;
    if total > 0 && total >= p.wakeups then (total - p.wakeups) * 100 / total else 0
  }

  /** In every reachable state it is the share of avoided wakeups, rounded down, in 0..100. */
  lemma SavedIsPercentage(ops: seq<Op>)
    ensures var p := Run(Init(), ops).power;
            var total := p.keyboardEvents + p.enqueued;
            WakeupsSaved(p) <= 100 &&
            (total > 0 ==> WakeupsSaved(p) * total <= 100 * (total - p.wakeups) < (WakeupsSaved(p) + 1) * total)
  {
    WakeupsBounded(ops);
    hide Run, Init;
    var p := Run(Init(), ops).power;
    var total := p.keyboardEvents + p.enqueued;
    if total > 0 {
      Percentage(total - p.wakeups, total);
    }
  }

  lemma Percentage(part: nat, total: nat)
    requires part <= total && total > 0
    ensures var q := part * 100 / total; 0 <= q <= 100 && q * total <= 100 * part < (q + 1) * total
  {
    var q := part * 100 / total;
    var rest := part * 100 % total;
    assert part * 100 == q * total + rest;
    if q > 100 {
      MulMonotone(total, 101, q);
    }
  }

  // ---- Batching refines immediate transmission ----

  /** What can be seen of the network: the counters and the payloads in the receive queue. */
  datatype Obs = Obs(txPackets: nat, txBytes: nat, rxPackets: nat, rxBytes: nat, dropped: nat, rx: seq<seq<byte>>)

  function Observe(n: Net): Obs
  {
    Obs(n.txPackets, n.txBytes, n.rxPackets, n.rxBytes, n.dropped, Payloads(n.rx))
  }

  /** The simple form: one payload sent at once. */
  function Send(o: Obs, loopback: bool, data: seq<byte>): Obs
  {
    var o1 := o.(txPackets := o.txPackets + 1, txBytes := o.txBytes + |data|);
    if !loopback then o1
    else
      var full := |o.rx| == QUEUE_CAP;
      o1.(rx := (if full then o.rx[1..] else o.rx) + [Clamp(data)], dropped := if full then o.dropped + 1 else o.dropped,
          rxPackets := o.rxPackets + 1, rxBytes := o.rxBytes + |Clamp(data)|)
  }

  function SendAll(o: Obs, loopback: bool, ds: seq<seq<byte>>): Obs
    decreases |ds|
  {
    if |ds| == 0 then o else SendAll(Send(o, loopback, ds[0]), loopback, ds[1..])
  }

  lemma {:induction false} SendAllAppend(o: Obs, loopback: bool, ds: seq<seq<byte>>, d: seq<byte>)
    ensures SendAll(o, loopback, ds + [d]) == Send(SendAll(o, loopback, ds), loopback, d)
    decreases |ds|
  {
    if |ds| == 0 {
      assert ds + [d] == [d];
    } else {
      assert (ds + [d])[1..] == ds[1..] + [d];
      SendAllAppend(Send(o, loopback, ds[0]), loopback, ds[1..], d);
    }
  }

  lemma TransmitObserved(n: Net, data: seq<byte>, now: nat)
    ensures Observe(TransmitNow(n, data, now)) == Send(Observe(n), n.loopback, data)
  {
    var pkt := Packet(n.nextId, now, Clamp(data));
    var kept := if |n.rx| == QUEUE_CAP then n.rx[1..] else n.rx;
    PayloadsAppend(kept, [pkt]);
    assert Payloads([pkt]) == [pkt.data];
  }

  lemma {:induction false} DrainObserved(n: Net, now: nat)
    ensures Observe(Drain(n, now)) == SendAll(Observe(n), n.loopback, Payloads(n.tx))
    decreases |n.tx|
  {
    if |n.tx| > 0 {
      TransmitObserved(n, n.tx[0].data, now);
      DrainObserved(TransmitNow(n, n.tx[0].data, now).(tx := n.tx[1..]), now);
    }
  }

  /** What would be seen if the queue were sent now. */
  function Settled(n: Net): Obs
  {
    SendAll(Observe(n), n.loopback, Payloads(n.tx))
  }

  /** Operations that keep batching on. */
  predicate Batches(op: Op)
  {
    op != Mode(PERFORMANCE)
  }

  /** Operations of a run to which the comparison applies: loopback fixed, nothing injected. */
  predicate Calm(op: Op)
  {
    Batches(op) && !op.Inject? && !op.Loopback?
  }

  function Writes(ops: seq<Op>): seq<seq<byte>>
  {
    if |ops| == 0 then [] else (if ops[0].Write? then [ops[0].data] else []) + Writes(ops[1..])
  }

  lemma WritesCons(ops: seq<Op>)
    requires |ops| > 0
    ensures var ds := Writes(ops);
            if ops[0].Write?
            then |ds| > 0 && ds[0] == ops[0].data && ds[1..] == Writes(ops[1..]) &&
                 Clamped(ds) == [Clamp(ops[0].data)] + Clamped(Writes(ops[1..])) &&
                 Clamped(ds)[1..] == Clamped(Writes(ops[1..]))
            else ds == Writes(ops[1..])
  {
  }

  function Clamped(ds: seq<seq<byte>>): (cs: seq<seq<byte>>)
    ensures |cs| == |ds|
  {
    if |ds| == 0 then [] else [Clamp(ds[0])] + Clamped(ds[1..])
  }

  lemma FlushSettles(s: System, now: nat)
    requires RxInv(s.net) && SentInv(s.net)
    ensures var n := FlushTx(s, now).net;
            Observe(n) == Settled(s.net) && Settled(n) == Settled(s.net) && n.loopback == s.net.loopback && n.tx == []
  {
    DrainObserved(s.net, now);
    DrainSends(s.net, now);
  }

  lemma EnqueueSettles(s: System, data: seq<byte>, now: nat)
    requires Inv(s)
    ensures var n := EnqueueTx(s, data, now).1.net;
            Settled(n) == Send(Settled(s.net), s.net.loopback, Clamp(data)) && n.loopback == s.net.loopback
  {
    EnqueueTxInv(s, data, now);
    SendAllAppend(Observe(s.net), s.net.loopback, Payloads(s.net.tx), Clamp(data));
  }

  /** Each step of a batching run, seen with its queue sent, is a step of immediate transmission. */
  lemma SettledStep(s: System, op: Op)
    requires Inv(s) && s.power.mode != PERFORMANCE && Calm(op)
    ensures var t := Apply(s, op);
            t.power.mode != PERFORMANCE && t.net.loopback == s.net.loopback &&
            Settled(t.net) == if op.Write? then Send(Settled(s.net), s.net.loopback, Clamp(op.data)) else Settled(s.net)
  {
    match op
    case Write(data, now) =>
      EnqueueTxInv(s, data, now);
      EnqueueSettles(s, data, now);
      FlushSettles(EnqueueTx(s, data, now).1, now);
    case Flush(now) => FlushSettles(s, now);
    case Tick(now) => FlushSettles(s, now);
    case _ =>
  }

  lemma {:induction false} BatchedSettles(s: System, ops: seq<Op>)
    requires Inv(s) && s.power.mode != PERFORMANCE && forall k :: 0 <= k < |ops| ==> Calm(ops[k])
    ensures Settled(Run(s, ops).net) == SendAll(Settled(s.net), s.net.loopback, Clamped(Writes(ops)))
    decreases |ops|
  {
    if |ops| > 0 {
      ApplyInv(s, ops[0]);
      SettledStep(s, ops[0]);
      WritesCons(ops);
      hide Writes, Clamped, Apply, Settled, Send;
      BatchedSettles(Apply(s, ops[0]), ops[1..]);
    }
  }

  /** The same run in performance mode: every write goes out at once. */
  lemma {:induction false} ImmediateSends(s: System, ops: seq<Op>)
    requires s.power.mode == PERFORMANCE && s.net.tx == []
    requires forall k :: 0 <= k < |ops| ==> Calm(ops[k]) && !ops[k].Mode?
    ensures Observe(Run(s, ops).net) == SendAll(Observe(s.net), s.net.loopback, Writes(ops))
    decreases |ops|
  {
    if |ops| > 0 {
      ImmediateStep(s, ops[0]);
      WritesCons(ops);
      hide Writes, Apply, Observe, Send;
      ImmediateSends(Apply(s, ops[0]), ops[1..]);
    }
  }

  lemma ImmediateStep(s: System, op: Op)
    requires s.power.mode == PERFORMANCE && s.net.tx == [] && Calm(op) && !op.Mode?
    ensures var t := Apply(s, op);
            t.power.mode == PERFORMANCE && t.net.tx == [] && t.net.loopback == s.net.loopback &&
            Observe(t.net) == if op.Write? then Send(Observe(s.net), s.net.loopback, op.data) else Observe(s.net)
  {
    if op.Write? {
      TransmitObserved(s.net, op.data, op.now);
    }
  }

  /** A run with its mode switches left out. */
  function WithoutSwitches(ops: seq<Op>): seq<Op>
  {
    if |ops| == 0 then []
    else if ops[0].Mode? then WithoutSwitches(ops[1..]) else [ops[0]] + WithoutSwitches(ops[1..])
  }

  lemma {:induction false} WithoutSwitchesSame(ops: seq<Op>)
    requires forall k :: 0 <= k < |ops| ==> Calm(ops[k])
    ensures forall k :: 0 <= k < |WithoutSwitches(ops)| ==> Calm(WithoutSwitches(ops)[k]) && !WithoutSwitches(ops)[k].Mode?
    ensures Writes(WithoutSwitches(ops)) == Writes(ops)
  {
    if |ops| > 0 {
      WithoutSwitchesSame(ops[1..]);
    }
  }

  predicate AllSmall(ds: seq<seq<byte>>)
  {
    forall k :: 0 <= k < |ds| ==> |ds[k]| <= MAX_PAYLOAD
  }

  lemma {:induction false} ClampedExact(ds: seq<seq<byte>>)
    ensures TotalLength(Clamped(ds)) <= TotalLength(ds)
    ensures AllSmall(ds) ==> Clamped(ds) == ds
    ensures !AllSmall(ds) ==> TotalLength(Clamped(ds)) < TotalLength(ds)
  {
    if |ds| > 0 {
      ClampedExact(ds[1..]);
      if AllSmall(ds) {
        assert |ds[0]| <= MAX_PAYLOAD;
        assert forall k :: 0 <= k < |ds| - 1 ==> ds[1..][k] == ds[k + 1];
        assert AllSmall(ds[1..]);
      } else if |ds[0]| <= MAX_PAYLOAD {
        var k :| 0 <= k < |ds| && |ds[k]| > MAX_PAYLOAD;
        assert ds[1..][k - 1] == ds[k];
      }
    }
  }

  lemma {:induction false} SendAllBytes(o: Obs, loopback: bool, ds: seq<seq<byte>>)
    ensures SendAll(o, loopback, ds).txBytes == o.txBytes + TotalLength(ds)
    decreases |ds|
  {
    if |ds| > 0 {
      SendAllBytes(Send(o, loopback, ds[0]), loopback, ds[1..]);
    }
  }

  /** After a flush, a batching run cannot be told from the same run in performance mode, exactly when
      no payload was longer than a packet: immediate transmission counts the bytes it does not carry. */
  lemma BatchingRefinesImmediate(s: System, ops: seq<Op>, now: nat)
    requires Inv(s) && s.power.mode != PERFORMANCE && s.net.tx == []
    requires forall k :: 0 <= k < |ops| ==> Calm(ops[k])
    ensures var batched := FlushTx(Run(s, ops), now).net;
            var immediate := Run(s.(power := s.power.(mode := PERFORMANCE)), WithoutSwitches(ops)).net;
            Observe(batched) == Observe(immediate) <==> AllSmall(Writes(ops))
  {
    var ds, o, lb := Writes(ops), Observe(s.net), s.net.loopback;
    RunInv(s, ops);
    FlushSettles(Run(s, ops), now);
    BatchedSettles(s, ops);
    WithoutSwitchesSame(ops);
    ImmediateSends(s.(power := s.power.(mode := PERFORMANCE)), WithoutSwitches(ops));
    ClampedExact(ds);
    SendAllBytes(o, lb, ds);
    SendAllBytes(o, lb, Clamped(ds));
  }

  /** One byte too many is enough: after a flush, batching has counted 256 bytes and performance mode 257. */
  lemma LongPayloadDiffers()
    ensures var ops := [Write(Zeros(MAX_PAYLOAD + 1), 0)];
            Observe(FlushTx(Run(Init(), ops), 0).net) !=
            Observe(Run(Init().(power := Init().power.(mode := PERFORMANCE)), WithoutSwitches(ops)).net)
  {
    var d := Zeros(MAX_PAYLOAD + 1);
    var ops := [Write(d, 0)];
    InitInv();
    var ds: seq<seq<byte>> := [d];
    assert Writes(ops) == ds by {
      assert ops[1..] == [];
    }
    assert !AllSmall(ds) by {
      assert |ds[0]| > MAX_PAYLOAD;
    }
    hide Run, Init, FlushTx, Observe, WithoutSwitches, Inv, Writes, AllSmall;
    InitBatches();
    BatchingRefinesImmediate(Init(), ops, 0);
  }

  lemma InitBatches()
    ensures Init().power.mode != PERFORMANCE && Init().net.tx == []
  {
  }

  // ---- Order and latency ----

  /** Everything submitted and not lost: sent, then waiting. */
  function Stream(n: Net): seq<seq<byte>>
  {
    n.sent + Payloads(n.tx)
  }

  lemma StreamStep(s: System, op: Op)
    requires Inv(s) && s.power.mode != PERFORMANCE && Batches(op)
    ensures var t := Apply(s, op);
            t.power.mode != PERFORMANCE && s.net.sent <= t.net.sent &&
            Stream(t.net) == Stream(s.net) + if op.Write? then [Clamp(op.data)] else []
  {
    match op
    case Write(data, now) => WriteStream(s, data, now);
    case Flush(now) => FlushInv(s, now);
    case Tick(now) => TickStream(s, now);
    case _ =>
  }

  lemma WriteStream(s: System, data: seq<byte>, now: nat)
    requires Inv(s) && s.power.mode != PERFORMANCE
    ensures var t := WriteTx(s, data, now);
            t.power.mode == s.power.mode && s.net.sent <= t.net.sent && Stream(t.net) == Stream(s.net) + [Clamp(data)]
  {
    EnqueueTxInv(s, data, now);
    FlushInv(EnqueueTx(s, data, now).1, now);
    hide RxInv, Drain, Clamp;
  }

  lemma TickStream(s: System, now: nat)
    requires Inv(s) && s.power.mode != PERFORMANCE
    ensures var t := TickHook(s, now);
            Stream(t.net) == Stream(s.net) && s.net.sent <= t.net.sent && t.power.mode == s.power.mode
    ensures s.power.ticksSinceFlush + 1 >= FlushInterval(s.power.mode) ==> TickHook(s, now).net.sent == Stream(s.net)
  {
    DrainSends(s.net, now);
  }

  /** Transmitted then pending is always what was submitted, in order. */
  lemma {:induction false} FifoOrder(s: System, ops: seq<Op>)
    requires Inv(s) && s.power.mode != PERFORMANCE && forall k :: 0 <= k < |ops| ==> Batches(ops[k])
    ensures Stream(Run(s, ops).net) == Stream(s.net) + Clamped(Writes(ops))
    decreases |ops|
  {
    if |ops| > 0 {
      ApplyInv(s, ops[0]);
      StreamStep(s, ops[0]);
      WritesAppend(Stream(s.net), ops);
      assert Run(s, ops) == Run(Apply(s, ops[0]), ops[1..]);
      hide Writes, Clamped, Clamp, Apply, Run, Stream, Inv;
      FifoOrder(Apply(s, ops[0]), ops[1..]);
    }
  }

  lemma {:induction false} WritesAppend(before: seq<seq<byte>>, ops: seq<Op>)
    requires |ops| > 0
    ensures before + (if ops[0].Write? then [Clamp(ops[0].data)] else []) + Clamped(Writes(ops[1..])) ==
            before + Clamped(Writes(ops))
  {
    WritesCons(ops);
    hide Writes, Clamped, Clamp;
    var rest := Clamped(Writes(ops[1..]));
    if ops[0].Write? {
      var x := [Clamp(ops[0].data)];
      assert before + x + rest == before + (x + rest);
    }
  }

  lemma {:induction false} SentGrows(s: System, ops: seq<Op>)
    requires Inv(s) && s.power.mode != PERFORMANCE && forall k :: 0 <= k < |ops| ==> Batches(ops[k])
    ensures s.net.sent <= Run(s, ops).net.sent
    decreases |ops|
  {
    if |ops| > 0 {
      ApplyInv(s, ops[0]);
      StreamStep(s, ops[0]);
      hide Apply, Stream, Inv;
      SentGrows(Apply(s, ops[0]), ops[1..]);
    }
  }

  function Ticks(ops: seq<Op>): nat
  {
    if |ops| == 0 then 0 else (if ops[0].Tick? then 1 else 0) + Ticks(ops[1..])
  }

  /** Every packet that waits is on its way after at most 12 ticks without performance mode. */
  lemma {:induction false} PacketsSentInTime(s: System, ops: seq<Op>)
    requires Inv(s) && s.power.mode != PERFORMANCE && forall k :: 0 <= k < |ops| ==> Batches(ops[k])
    requires Ticks(ops) >= 12 - s.power.ticksSinceFlush
    ensures Stream(s.net) <= Run(s, ops).net.sent
    decreases |ops|
  {
    var t := Apply(s, ops[0]);
    ApplyInv(s, ops[0]);
    StreamStep(s, ops[0]);
    SentGrows(t, ops[1..]);
    if ops[0].Tick? {
      TickStream(s, ops[0].now);
    }
    if ops[0].Tick? && s.power.ticksSinceFlush + 1 >= FlushInterval(s.power.mode) {
      assert t.net.sent == Stream(s.net);
    } else {
      TickCount(s, ops[0]);
      hide Apply, Stream, Inv;
      PacketsSentInTime(t, ops[1..]);
    }
  }

  /** The tick counter moves only with ticks that do not flush. */
  lemma TickCount(s: System, op: Op)
    requires Inv(s) && !(op.Tick? && s.power.ticksSinceFlush + 1 >= FlushInterval(s.power.mode))
    ensures Apply(s, op).power.ticksSinceFlush == s.power.ticksSinceFlush + if op.Tick? then 1 else 0
  {
  }

  lemma KeysStep(s: System, op: Op)
    ensures var p, q := s.power, Apply(s, op).power;
            p.delivered <= q.delivered &&
            (p.keys <= q.keys || (q.keys == [] && q.delivered == p.delivered + p.keys))
    ensures op.Tick? && s.power.ticksSinceFlush + 1 >= FlushInterval(s.power.mode) ==>
              Apply(s, op).power.delivered == s.power.delivered + s.power.keys
  {
  }

  lemma {:induction false} DeliveredGrows(s: System, ops: seq<Op>)
    ensures s.power.delivered <= Run(s, ops).power.delivered
    decreases |ops|
  {
    if |ops| > 0 {
      KeysStep(s, ops[0]);
      hide Apply;
      DeliveredGrows(Apply(s, ops[0]), ops[1..]);
    }
  }

  /** `after` extends `before` and contains, further on, all of `keys` in one piece. */
  ghost predicate DeliveredSince(before: seq<char>, keys: seq<char>, after: seq<char>)
  {
    before <= after && exists n :: |before| <= n && HoldsAt(after, n, keys)
  }

  ghost predicate HoldsAt(after: seq<char>, n: nat, keys: seq<char>)
  {
    n + |keys| <= |after| && after[n..n + |keys|] == keys
  }

  /** Every key that waits is delivered within 12 ticks, whatever else happens and whichever the modes. */
  lemma {:induction false} KeysDeliveredInTime(s: System, ops: seq<Op>, keys: seq<char>)
    requires Inv(s) && keys <= s.power.keys && Ticks(ops) >= 12 - s.power.ticksSinceFlush
    ensures DeliveredSince(s.power.delivered, keys, Run(s, ops).power.delivered)
    decreases |ops|
  {
    var p, q := s.power, Apply(s, ops[0]).power;
    var after := Run(s, ops).power.delivered;
    ApplyInv(s, ops[0]);
    KeysStep(s, ops[0]);
    DeliveredGrows(Apply(s, ops[0]), ops[1..]);
    if q.delivered == p.delivered + p.keys {
      assert HoldsAt(after, |p.delivered|, keys);
    } else {
      TickCount(s, ops[0]);
      hide Apply, Inv;
      KeysDeliveredInTime(Apply(s, ops[0]), ops[1..], keys);
      var n :| |q.delivered| <= n && HoldsAt(after, n, keys);
    }
  }

  function Typed(ops: seq<Op>): seq<char>
  {
    if |ops| == 0 then [] else (if ops[0].Key? then [ops[0].ch] else []) + Typed(ops[1..])
  }

  /** Keys come out in the order typed, as long as batching stays on and the queue cannot overflow. */
  lemma {:induction false} KeysInOrder(s: System, ops: seq<Op>)
    requires Inv(s) && s.power.mode != PERFORMANCE && forall k :: 0 <= k < |ops| ==> Batches(ops[k])
    requires |s.power.keys| + |Typed(ops)| <= KEY_CAP
    ensures var p := Run(s, ops).power; p.delivered + p.keys == s.power.delivered + s.power.keys + Typed(ops)
    decreases |ops|
  {
    if |ops| > 0 {
      ApplyInv(s, ops[0]);
      KeyOrderStep(s, ops[0]);
      TypedAppend(s.power.delivered + s.power.keys, ops);
      assert Run(s, ops) == Run(Apply(s, ops[0]), ops[1..]);
      hide Apply, Run, Inv, Typed;
      KeysInOrder(Apply(s, ops[0]), ops[1..]);
    }
  }

  lemma {:induction false} TypedAppend(before: seq<char>, ops: seq<Op>)
    requires |ops| > 0
    ensures before + (if ops[0].Key? then [ops[0].ch] else []) + Typed(ops[1..]) == before + Typed(ops)
    ensures |Typed(ops)| == |Typed(ops[1..])| + if ops[0].Key? then 1 else 0
  {
    if ops[0].Key? {
      var x, rest := [ops[0].ch], Typed(ops[1..]);
      assert before + x + rest == before + (x + rest);
    }
  }

  lemma KeyOrderStep(s: System, op: Op)
    requires Inv(s) && s.power.mode != PERFORMANCE && Batches(op) && (op.Key? ==> |s.power.keys| < KEY_CAP)
    ensures var p, q := s.power, Apply(s, op).power;
            q.mode != PERFORMANCE && |q.keys| <= |p.keys| + (if op.Key? then 1 else 0) &&
            q.delivered + q.keys == p.delivered + p.keys + if op.Key? then [op.ch] else []
  {
  }

  /** The keys after an operation: unchanged, all delivered, or with the new one at either end. */
  ghost predicate KeysMoved(p: Power, q: Power, typed: seq<char>)
  {
    (q.delivered == p.delivered + typed && q.keys == p.keys) ||
    (q.delivered == p.delivered && q.keys == p.keys + typed) ||
    (q.delivered == p.delivered + p.keys && q.keys == [] && typed == [])
  }

  lemma KeysMove(s: System, op: Op)
    ensures KeysMoved(s.power, Apply(s, op).power, if op.Key? then [op.ch] else [])
  {
    hide RxInv, Drain;
    if !op.Key? {
      KeysStep(s, op);
    }
  }

  lemma MovedKept(p: Power, q: Power, typed: seq<char>)
    requires KeysMoved(p, q, typed)
    ensures multiset(q.delivered + q.keys) == multiset(p.delivered + p.keys) + multiset(typed)
  {
    if q.delivered == p.delivered + typed && q.keys == p.keys {
      MultisetsAdd(p.delivered + typed, p.keys);
      MultisetsAdd(p.delivered, typed);
      MultisetsAdd(p.delivered, p.keys);
    } else if q.keys == p.keys + typed {
      assert q.delivered + q.keys == (p.delivered + p.keys) + typed;
      MultisetsAdd(p.delivered + p.keys, typed);
    } else {
      assert q.delivered + q.keys == p.delivered + p.keys;
    }
  }

  lemma MultisetsAdd(a: seq<char>, b: seq<char>)
    ensures multiset(a + b) == multiset(a) + multiset(b)
  {
  }

  /** Whatever happens: the keys delivered and pending are exactly those typed, each as often as it was typed. */
  lemma {:induction false} KeysConserved(s: System, ops: seq<Op>)
    ensures var p := Run(s, ops).power;
            multiset(p.delivered + p.keys) == multiset(s.power.delivered + s.power.keys) + multiset(Typed(ops))
    decreases |ops|
  {
    hide Apply;
    if |ops| > 0 {
      var typed := if ops[0].Key? then [ops[0].ch] else [];
      KeysMove(s, ops[0]);
      MovedKept(s.power, Apply(s, ops[0]).power, typed);
      KeysConserved(Apply(s, ops[0]), ops[1..]);
      MultisetsAdd(typed, Typed(ops[1..]));
    }
  }

  /** Operations that do not leave performance mode. */
  predicate StaysImmediate(op: Op)
  {
    op.Mode? ==> op.mode == PERFORMANCE || op.mode > ENERGY_SAVER
  }

  lemma ImmediateKey(s: System, op: Op)
    requires s.power.mode == PERFORMANCE && s.power.keys == [] && StaysImmediate(op)
    ensures var q := Apply(s, op).power;
            q.mode == PERFORMANCE && q.keys == [] && q.delivered == s.power.delivered + if op.Key? then [op.ch] else []
  {
  }

  /** In performance mode every key is delivered as it is typed. */
  lemma {:induction false} KeysImmediate(s: System, ops: seq<Op>)
    requires s.power.mode == PERFORMANCE && s.power.keys == [] && forall k :: 0 <= k < |ops| ==> StaysImmediate(ops[k])
    ensures var p := Run(s, ops).power; p.delivered == s.power.delivered + Typed(ops) && p.keys == []
    decreases |ops|
  {
    hide Apply, Typed;
    if |ops| > 0 {
      ImmediateKey(s, ops[0]);
      KeysImmediate(Apply(s, ops[0]), ops[1..]);
      TypedAppend(s.power.delivered, ops);
    } else {
      NothingTyped(ops);
    }
  }

  lemma NothingTyped(ops: seq<Op>)
    requires |ops| == 0
    ensures Typed(ops) == []
  {
  }

  // ---- What each mode means ----

  /** A write in balanced mode waits if at most two packets do, and sends all four otherwise; in energy saver mode the
      limit is 16; in performance mode nothing waits. */
  lemma BatchesOf(s: System, data: seq<byte>, now: nat)
    requires Inv(s)
    ensures var t, limit := WriteTx(s, data, now), if s.power.mode == BALANCED then 4 else 16;
            if s.power.mode == PERFORMANCE then t.net.sent == s.net.sent + [data] && t.net.tx == s.net.tx
            else if |s.net.tx| + 1 < limit then
              t.net.sent == s.net.sent && Payloads(t.net.tx) == Payloads(s.net.tx) + [Clamp(data)]
            else t.net.sent == Stream(s.net) + [Clamp(data)] && t.net.tx == []
  {
    if s.power.mode != PERFORMANCE {
      EnqueueTxInv(s, data, now);
      FlushInv(EnqueueTx(s, data, now).1, now);
    }
    hide RxInv, Drain, Clamp;
  }

  /** A tick delivers the waiting keys, and outside performance mode sends the waiting packets, if it is the first since
      the last flush in performance mode, the third in balanced mode and the twelfth in energy saver mode, or a later
      one; an earlier tick only counts. */
  lemma FlushesOf(s: System, now: nat)
    requires Inv(s)
    ensures var t := TickHook(s, now);
            var wait := if s.power.mode == PERFORMANCE then 1 else if s.power.mode == BALANCED then 3 else 12;
            if s.power.ticksSinceFlush + 1 >= wait then
              t.power.delivered == s.power.delivered + s.power.keys && t.power.keys == [] && t.power.ticksSinceFlush == 0 &&
              (if s.power.mode == PERFORMANCE then t.net == s.net else t.net.sent == Stream(s.net) && t.net.tx == [])
            else t == s.(power := s.power.(ticksSinceFlush := s.power.ticksSinceFlush + 1))
  {
    hide Drain, RxInv;
    FlushInv(s, now);
    DrainSends(s.net, now);
  }

  /** In balanced mode no key waits longer than three ticks. */
  lemma {:induction false} BalancedKeysInTime(s: System, ops: seq<Op>, keys: seq<char>)
    requires Inv(s) && s.power.mode == BALANCED && forall k :: 0 <= k < |ops| ==> !ops[k].Mode?
    requires keys <= s.power.keys && Ticks(ops) > 0 && Ticks(ops) + s.power.ticksSinceFlush >= 3
    ensures DeliveredSince(s.power.delivered, keys, Run(s, ops).power.delivered)
    decreases |ops|
  {
    hide Inv, Apply, HoldsAt;
    var t := Apply(s, ops[0]);
    ApplyInv(s, ops[0]);
    KeysStep(s, ops[0]);
    DeliveredGrows(t, ops[1..]);
    BalancedStep(s, ops[0]);
    if t.power.delivered == s.power.delivered + s.power.keys {
      HoldsNow(s.power.delivered, s.power.keys, keys, Run(s, ops).power.delivered);
    } else {
      BalancedKeysInTime(t, ops[1..], keys);
      assert DeliveredSince(t.power.delivered, keys, Run(s, ops).power.delivered);
    }
  }

  lemma HoldsNow(before: seq<char>, all: seq<char>, keys: seq<char>, after: seq<char>)
    requires keys <= all && before + all <= after
    ensures HoldsAt(after, |before|, keys)
  {
  }

  lemma BalancedStep(s: System, op: Op)
    requires Inv(s) && s.power.mode == BALANCED && !op.Mode?
    ensures var q := Apply(s, op).power;
            q.mode == BALANCED &&
            (q.delivered == s.power.delivered + s.power.keys ||
             (s.power.keys <= q.keys && q.ticksSinceFlush == s.power.ticksSinceFlush + if op.Tick? then 1 else 0))
    ensures op.Tick? && s.power.ticksSinceFlush >= 2 ==> Apply(s, op).power.delivered == s.power.delivered + s.power.keys
  {
    KeysStep(s, op);
    if op.Tick? {
      FlushesOf(s, op.now);
    }
  }

  // ---- Switches, loopback and injection ----

  function LastMode(mode: nat, ops: seq<Op>): nat
    decreases |ops|
  {
    if |ops| == 0 then mode
    else LastMode(if ops[0].Mode? && ops[0].mode <= ENERGY_SAVER then ops[0].mode else mode, ops[1..])
  }

  function ModeChanges(ops: seq<Op>): nat
  {
    if |ops| == 0 then 0 else (if ops[0].Mode? && ops[0].mode <= ENERGY_SAVER then 1 else 0) + ModeChanges(ops[1..])
  }

  function LastLoopback(on: bool, ops: seq<Op>): bool
    decreases |ops|
  {
    if |ops| == 0 then on else LastLoopback(if ops[0].Loopback? then ops[0].on else on, ops[1..])
  }

  lemma {:induction false} DrainKeepsLoopback(n: Net, now: nat)
    ensures Drain(n, now).loopback == n.loopback
    decreases |n.tx|
  {
    if |n.tx| > 0 {
      DrainKeepsLoopback(TransmitNow(n, n.tx[0].data, now).(tx := n.tx[1..]), now);
    }
  }

  lemma SettingsStep(s: System, op: Op)
    ensures var t := Apply(s, op);
            t.power.mode == (if op.Mode? && op.mode <= ENERGY_SAVER then op.mode else s.power.mode) &&
            t.power.switches == s.power.switches + (if op.Mode? && op.mode <= ENERGY_SAVER then 1 else 0) &&
            t.net.loopback == if op.Loopback? then op.on else s.net.loopback
  {
    hide Drain, RxInv;
    match op
    case Write(data, now) =>
      DrainKeepsLoopback(s.net, now);
      DrainKeepsLoopback(EnqueueTx(s, data, now).1.net, now);
      DrainKeepsLoopback(EnqueueTx(FlushTx(s, now), data, now).1.net, now);
    case Flush(now) => DrainKeepsLoopback(s.net, now);
    case Tick(now) => DrainKeepsLoopback(s.net, now);
    case _ =>
  }

  /** The mode and the loopback setting are those last asked for, and the switches are counted. */
  lemma {:induction false} SettingsAre(s: System, ops: seq<Op>)
    ensures var t := Run(s, ops);
            t.power.mode == LastMode(s.power.mode, ops) && t.power.switches == s.power.switches + ModeChanges(ops) &&
            t.net.loopback == LastLoopback(s.net.loopback, ops)
    decreases |ops|
  {
    hide Apply;
    if |ops| > 0 {
      SettingsStep(s, ops[0]);
      SettingsAre(Apply(s, ops[0]), ops[1..]);
    }
  }

  /** An injected packet is received with the time and the next id; a transmitted one exactly if loopback is on. */
  lemma Receives(s: System, data: seq<byte>, now: nat)
    ensures var t := Apply(s, Inject(data, now)).net;
            t.received == s.net.received + [Packet(s.net.nextId, now, Clamp(data))] && t.lastId == s.net.nextId &&
            t.sent == s.net.sent && t.tx == s.net.tx
    ensures var t := TransmitNow(s.net, data, now);
            t.received == s.net.received + (if s.net.loopback then [Packet(s.net.nextId, now, Clamp(data))] else []) &&
            t.nextId == s.net.nextId + (if s.net.loopback then 1 else 0) && t.tx == s.net.tx
  {
  }

  lemma EnqueuedStep(s: System, op: Op)
    requires Inv(s) && s.power.mode != PERFORMANCE && Batches(op)
    ensures Apply(s, op).power.enqueued == s.power.enqueued + (if op.Write? then 1 else 0)
    ensures Apply(s, op).power.mode != PERFORMANCE
  {
    hide Drain, RxInv;
  }

  /** net_tx_enqueued counts the writes made while batching. */
  lemma {:induction false} EnqueuedCounts(s: System, ops: seq<Op>)
    requires Inv(s) && s.power.mode != PERFORMANCE && forall k :: 0 <= k < |ops| ==> Batches(ops[k])
    ensures Run(s, ops).power.enqueued == s.power.enqueued + |Writes(ops)|
    decreases |ops|
  {
    hide Apply, Inv;
    if |ops| > 0 {
      ApplyInv(s, ops[0]);
      EnqueuedStep(s, ops[0]);
      EnqueuedCounts(Apply(s, ops[0]), ops[1..]);
    }
  }
}
