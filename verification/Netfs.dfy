/** The queues of kernel/netfs.c and kernel/power.c as the kernel keeps them: ring buffers with a head
    and a count, proved against the sequences of module Coalescing. */
module Netfs {
  import opened Bytes
  import opened Coalescing

  lemma Wraps(x: nat, n: nat)
    requires x < n + n
    ensures x % n == if x < n then x else x - n
  {
    assert x / n == if x < n then 0 else 1;
  }

  /** Position `i` of a ring of `n` slots. */
  function RingSlot(head: nat, i: nat, n: nat): (r: nat)
    requires head < n && i <= n
    ensures r < n && r == (head + i) % n
  {
    Wraps(head + i, n);
    if head + i < n then head + i else head + i - n
  }

  /** The contents of a ring, oldest first. */
  function Ring<T>(slots: seq<T>, head: nat, count: nat): (r: seq<T>)
    requires head < |slots| && count <= |slots|
    ensures |r| == count
  {
    seq(count, i requires 0 <= i < count => slots[RingSlot(head, i, |slots|)])
  }

  lemma RingPush<T>(slots: seq<T>, head: nat, count: nat, x: T, slot: nat)
    requires head < |slots| && count < |slots| && slot == (head + count) % |slots|
    ensures slot < |slots| && Ring(slots[slot := x], head, count + 1) == Ring(slots, head, count) + [x]
  {
    assert slot == RingSlot(head, count, |slots|);
    assert forall i :: 0 <= i < count ==> RingSlot(head, i, |slots|) != slot;
  }

  lemma RingPop<T>(slots: seq<T>, head: nat, count: nat, next: nat)
    requires head < |slots| && 0 < count <= |slots| && next == (head + 1) % |slots|
    ensures Ring(slots, head, count)[0] == slots[head]
    ensures next < |slots| && Ring(slots, next, count - 1) == Ring(slots, head, count)[1..]
  {
    assert next == RingSlot(head, 1, |slots|);
    assert forall i :: 0 <= i < count - 1 ==> RingSlot(next, i, |slots|) == RingSlot(head, i + 1, |slots|);
  }

  class PowerManager {
    const keyboardQ: array<char>
    var mode: nat
    var head: nat
    var count: nat
    var ticksSinceFlush: nat
    var pendingKeys: nat
    var pendingTxPackets: nat
    var pendingTxBytes: nat
    var wakeups: nat
    var keyboardEvents: nat
    var coalesced: nat
    var keyboardFlushes: nat
    var enqueued: nat
    var flushed: nat
    var netFlushes: nat
    var switches: nat
    /** What keyboard_buffer_put has been given. */
    var delivered: seq<char>

    ghost predicate Valid()
      reads this
    {
      keyboardQ.Length == KEY_CAP && head < KEY_CAP && count <= KEY_CAP
    }

    ghost function View(): Power
      reads this, keyboardQ
      requires Valid()
    {
      Power(mode, Ring(keyboardQ[..], head, count), ticksSinceFlush, pendingKeys, pendingTxPackets, pendingTxBytes,
            wakeups, keyboardEvents, coalesced, keyboardFlushes, enqueued, flushed, netFlushes, switches, delivered)
    }

    /** power_init. */
    constructor ()
      ensures Valid() && fresh(keyboardQ) && View() == Init().power
    {
      keyboardQ := new char[KEY_CAP](_ => '\0');
      mode, head, count, ticksSinceFlush := BALANCED, 0, 0, 0;
      pendingKeys, pendingTxPackets, pendingTxBytes, wakeups := 0, 0, 0, 0;
      keyboardEvents, coalesced, keyboardFlushes := 0, 0, 0;
      enqueued, flushed, netFlushes, switches, delivered := 0, 0, 0, 0, [];
    }

    /** keyboard_flush_now. */
    method FlushKeyboard()
      requires Valid()
      modifies this
      ensures Valid() && View() == FlushKeys(old(View()))
    {
      hide Ring;
      if count == 0 {
        return;
      }
      wakeups := wakeups + 1;
      keyboardFlushes := keyboardFlushes + 1;
      ghost var before := View();
      while count > 0
        invariant Valid() && View() == before.(keys := View().keys, delivered := delivered)
        invariant delivered + View().keys == before.delivered + before.keys
      {
        DeliverOldest();
      }
      pendingKeys := 0;
    }

    method DeliverOldest()
      requires Valid() && count > 0
      modifies this`head, this`count, this`delivered
      ensures Valid() && count == old(count) - 1
      ensures View() == old(View()).(keys := old(View()).keys[1..], delivered := old(delivered) + [old(View()).keys[0]])
    {
      hide Ring;
      RingPop(keyboardQ[..], head, count, (head + 1) % KEY_CAP);
      delivered := delivered + [keyboardQ[head]];
      head := (head + 1) % KEY_CAP;
      count := count - 1;
    }

    method SetPowerMode(newMode: nat)
      requires Valid()
      modifies this
      ensures Valid() && View() == SetMode(old(View()), newMode)
    {
      if newMode > ENERGY_SAVER {
        return;
      }
      mode := newMode;
      switches := switches + 1;
    }

    method KeyPressed(ch: char)
      requires Valid()
      modifies this, keyboardQ
      ensures Valid() && View() == KeyboardChar(old(View()), ch)
    {
      keyboardEvents := keyboardEvents + 1;
      if mode == PERFORMANCE {
        wakeups := wakeups + 1;
        delivered := delivered + [ch];
        return;
      }
      if count < KEY_CAP {
        var tail := (head + count) % KEY_CAP;
        RingPush(keyboardQ[..], head, count, ch, tail);
        ghost var slots := keyboardQ[..];
        keyboardQ[tail] := ch;
        assert keyboardQ[..] == slots[tail := ch];
        count := count + 1;
        pendingKeys := count;
        coalesced := coalesced + 1;
      } else {
        wakeups := wakeups + 1;
        delivered := delivered + [ch];
      }
    }

    method NoteNetEnqueued(bytes: nat)
      requires Valid()
      modifies this
      ensures Valid() && View() == NoteEnqueued(old(View()), bytes)
    {
      enqueued := enqueued + 1;
      pendingTxPackets := pendingTxPackets + 1;
      pendingTxBytes := pendingTxBytes + bytes;
    }

    method NoteNetFlushed(packets: nat, bytes: nat)
      requires Valid()
      modifies this
      ensures Valid() && View() == NoteFlushed(old(View()), packets, bytes)
    {
      if packets == 0 {
        return;
      }
      wakeups := wakeups + 1;
      netFlushes := netFlushes + 1;
      flushed := flushed + packets;
      if pendingTxPackets >= packets {
        pendingTxPackets := pendingTxPackets - packets;
      } else {
        pendingTxPackets := 0;
      }
      if pendingTxBytes >= bytes {
        pendingTxBytes := pendingTxBytes - bytes;
      } else {
        pendingTxBytes := 0;
      }
    }

    method SetPendingNet(packets: nat, bytes: nat)
      requires Valid()
      modifies this
      ensures Valid() && View() == SetPending(old(View()), packets, bytes)
    {
      pendingTxPackets := packets;
      pendingTxBytes := bytes;
    }
  }

  class NetDevice {
    const rxQueue: array<Packet>
    const txQueue: array<Packet>
    const power: PowerManager
    var rxHead: nat
    var rxCount: nat
    var txHead: nat
    var txCount: nat
    var txPendingBytes: nat
    var nextId: nat
    var loopback: bool
    var txPackets: nat
    var txBytes: nat
    var rxPackets: nat
    var rxBytes: nat
    var dropped: nat
    var lastId: nat
    ghost var sent: seq<seq<byte>>
    ghost var received: seq<Packet>

    ghost predicate Valid()
      reads this, power
    {
      power.Valid() && rxQueue != txQueue && rxQueue.Length == QUEUE_CAP && txQueue.Length == QUEUE_CAP &&
      rxHead < QUEUE_CAP && rxCount <= QUEUE_CAP && txHead < QUEUE_CAP && txCount <= QUEUE_CAP
    }

    ghost function NetView(): Net
      reads this, rxQueue, txQueue, power
      requires Valid()
    {
      Net(Ring(rxQueue[..], rxHead, rxCount), Ring(txQueue[..], txHead, txCount), txPendingBytes, nextId, loopback,
          txPackets, txBytes, rxPackets, rxBytes, dropped, lastId, sent, received)
    }

    ghost function View(): System
      reads this, rxQueue, txQueue, power, power.keyboardQ
      requires Valid()
    {
      System(NetView(), power.View())
    }

    /** netfs_init. */
    constructor (p: PowerManager)
      requires p.Valid()
      ensures Valid() && power == p && fresh(rxQueue) && fresh(txQueue) && NetView() == Init().net
    {
      rxQueue := new Packet[QUEUE_CAP](_ => NO_PACKET);
      txQueue := new Packet[QUEUE_CAP](_ => NO_PACKET);
      power := p;
      rxHead, rxCount, txHead, txCount, txPendingBytes, nextId, loopback := 0, 0, 0, 0, 0, 1, true;
      txPackets, txBytes, rxPackets, rxBytes, dropped, lastId := 0, 0, 0, 0, 0, 0;
      sent, received := [], [];
    }

    method DropOldest()
      requires Valid()
      modifies this
      ensures Valid() && rxCount < QUEUE_CAP && txCount == old(txCount) && txHead == old(txHead)
      ensures NetView() == MakeRoom(old(NetView()))
    {
      hide Ring;
      if rxCount == QUEUE_CAP {
        RingPop(rxQueue[..], rxHead, rxCount, (rxHead + 1) % QUEUE_CAP);
        rxHead := (rxHead + 1) % QUEUE_CAP;
        dropped := dropped + 1;
        rxCount := rxCount - 1;
      }
    }

    method StoreNewest(pkt: Packet)
      requires Valid() && rxCount < QUEUE_CAP
      modifies this, rxQueue
      ensures Valid() && txCount == old(txCount) && txHead == old(txHead)
      ensures NetView() == old(NetView()).(rx := old(NetView()).rx + [pkt])
    {
      hide Ring;
      var slot := (rxHead + rxCount) % QUEUE_CAP;
      RingPush(rxQueue[..], rxHead, rxCount, pkt, slot);
      ghost var slots := rxQueue[..];
      rxQueue[slot] := pkt;
      assert rxQueue[..] == slots[slot := pkt];
      rxCount := rxCount + 1;
    }

    /** enqueue_rx_packet. */
    method ReceivePacket(data: seq<byte>, now: nat)
      requires Valid()
      modifies this, rxQueue
      ensures Valid() && NetView() == EnqueueRx(old(NetView()), data, now)
      ensures txCount == old(txCount) && txHead == old(txHead)
    {
      hide Ring, MakeRoom;
      var payload := if |data| > MAX_PAYLOAD then data[..MAX_PAYLOAD] else data;
      DropOldest();
      var pkt := Packet(nextId, now, payload);
      StoreNewest(pkt);
      CountReceived(pkt);
    }

    method CountReceived(pkt: Packet)
      requires Valid()
      modifies this
      ensures Valid() && txCount == old(txCount) && txHead == old(txHead)
      ensures var n := old(NetView());
              NetView() == n.(nextId := n.nextId + 1, rxPackets := n.rxPackets + 1, rxBytes := n.rxBytes + |pkt.data|,
                              lastId := pkt.id, received := n.received + [pkt])
    {
      hide Ring;
      nextId, rxPackets, rxBytes, lastId := nextId + 1, rxPackets + 1, rxBytes + |pkt.data|, pkt.id;
      received := received + [pkt];
    }

    /** transmit_now. */
    method Transmit(data: seq<byte>, now: nat)
      requires Valid()
      modifies this, rxQueue
      ensures Valid() && NetView() == TransmitNow(old(NetView()), data, now)
      ensures txCount == old(txCount) && txHead == old(txHead)
    {
      txPackets := txPackets + 1;
      txBytes := txBytes + |data|;
      sent := sent + [data];
      if loopback {
        ReceivePacket(data, now);
      }
    }

    method StorePending(pkt: Packet)
      requires Valid() && txCount < QUEUE_CAP
      modifies this, txQueue
      ensures Valid() && txCount == old(txCount) + 1
      ensures NetView() == old(NetView()).(tx := old(NetView()).tx + [pkt])
    {
      hide Ring;
      var slot := (txHead + txCount) % QUEUE_CAP;
      RingPush(txQueue[..], txHead, txCount, pkt, slot);
      ghost var slots := txQueue[..];
      txQueue[slot] := pkt;
      assert txQueue[..] == slots[slot := pkt];
      txCount := txCount + 1;
    }

    /** enqueue_tx_packet. */
    method QueuePacket(data: seq<byte>, now: nat) returns (ok: bool)
      requires Valid()
      modifies this, txQueue, power
      ensures Valid() && (ok, View()) == EnqueueTx(old(View()), data, now)
    {
      hide Ring;
      var payload := if |data| > MAX_PAYLOAD then data[..MAX_PAYLOAD] else data;
      if txCount == QUEUE_CAP {
        return false;
      }
      StorePending(Packet(nextId, now, payload));
      nextId, txPendingBytes := nextId + 1, txPendingBytes + |payload|;
      power.NoteNetEnqueued(|payload|);
      power.SetPendingNet(txCount, txPendingBytes);
      ok := true;
    }

    method DropSent()
      requires Valid() && txCount > 0
      modifies this`txHead, this`txCount
      ensures Valid() && txCount == old(txCount) - 1
      ensures NetView() == old(NetView()).(tx := old(NetView()).tx[1..])
    {
      hide Ring;
      RingPop(txQueue[..], txHead, txCount, (txHead + 1) % QUEUE_CAP);
      txHead := (txHead + 1) % QUEUE_CAP;
      txCount := txCount - 1;
    }

    /** flush_tx_queue. */
    method FlushQueue(now: nat)
      requires Valid()
      modifies this, rxQueue, power
      ensures Valid() && View() == FlushTx(old(View()), now)
    {
      hide Ring, TransmitNow;
      var flushedPackets, flushedBytes := 0, 0;
      ghost var before := NetView();
      while txCount > 0
        invariant Valid() && power.View() == old(power.View())
        invariant Drain(NetView(), now) == Drain(before, now)
        invariant flushedPackets + txCount == |before.tx|
        invariant flushedBytes + TotalLength(Payloads(NetView().tx)) == TotalLength(Payloads(before.tx))
      {
        ghost var n := NetView();
        RingPop(txQueue[..], txHead, txCount, (txHead + 1) % QUEUE_CAP);
        var pkt := txQueue[txHead];
        Transmit(pkt.data, now);
        flushedPackets := flushedPackets + 1;
        flushedBytes := flushedBytes + |pkt.data|;
        DropSent();
        assert NetView() == TransmitNow(n, n.tx[0].data, now).(tx := n.tx[1..]);
      }
      txPendingBytes := 0;
      power.SetPendingNet(txCount, txPendingBytes);
      power.NoteNetFlushed(flushedPackets, flushedBytes);
    }

    /** netfs_write_path on /net/tx; the result is 0, or -1 for an error. */
    method WritePacket(data: seq<byte>, now: nat) returns (r: int)
      requires Valid()
      modifies this, rxQueue, txQueue, power
      ensures Valid() && View() == WriteTx(old(View()), data, now) && r == 0
    {
      if power.mode == PERFORMANCE {
        Transmit(data, now);
      } else {
        var ok := QueuePacket(data, now);
        if !ok {
          FlushQueue(now);
          DrainEmpties(old(View()).net, now);
          ok := QueuePacket(data, now);
          if !ok {
            return -1;
          }
        }
        if txCount >= BatchLimit(power.mode) {
          FlushQueue(now);
        }
      }
      r := 0;
    }

    /** netfs_write_path on /net/config/loopback, given the first character. */
    method WriteLoopback(first: char) returns (r: int)
      requires Valid()
      modifies this
      ensures Valid() && (r == 0 <==> first == '0' || first == '1')
      ensures View() == if r == 0 then Apply(old(View()), Loopback(first == '1')) else old(View())
    {
      if first == '0' {
        loopback := false;
      } else if first == '1' {
        loopback := true;
      } else {
        return -1;
      }
      r := 0;
    }

    /** netfs_power_tick. */
    method PowerTick(now: nat)
      requires Valid()
      modifies this, rxQueue, power
      ensures Valid() && View() == NetTick(old(View()), now)
    {
      if power.mode != PERFORMANCE && txCount > 0 {
        FlushQueue(now);
      }
    }

    /** power_tick_hook. */
    method Tick(now: nat)
      requires Valid()
      modifies this, rxQueue, power
      ensures Valid() && View() == TickHook(old(View()), now)
    {
      hide Ring, FlushKeys, NetTick;
      power.ticksSinceFlush := power.ticksSinceFlush + 1;
      if power.ticksSinceFlush >= FlushInterval(power.mode) {
        power.FlushKeyboard();
        PowerTick(now);
        power.ticksSinceFlush := 0;
      }
    }

    /** netfs_peek_last_rx: the most recent packet ever received, if any. */
    method PeekLast() returns (found: bool, pkt: Packet)
      requires Valid() && RxInv(NetView())
      ensures found <==> |received| > 0
      ensures found ==> pkt == received[|received| - 1]
    {
      if rxCount == 0 {
        return false, NO_PACKET;
      }
      var idx := (rxHead + rxCount - 1) % QUEUE_CAP;
      found, pkt := true, rxQueue[idx];
      assert idx == RingSlot(rxHead, rxCount - 1, QUEUE_CAP);
      assert pkt == NetView().rx[rxCount - 1];
    }
  }

  lemma {:induction false} DrainEmpties(n: Net, now: nat)
    ensures Drain(n, now).tx == []
    decreases |n.tx|
  {
    if |n.tx| > 0 {
      DrainEmpties(TransmitNow(n, n.tx[0].data, now).(tx := n.tx[1..]), now);
    }
  }
}
