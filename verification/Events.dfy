/** The 40-byte trace event (include/trace.h), its image in memory and on disk, and the
    running hash that a session is stored with (kernel/trace.c). */
module Events {
  import opened Bytes

  const EVENT_BYTES: nat := 40

  const IRQ: nat := 1
  const SCHED: nat := 3
  const WORKLOAD: nat := 6

  datatype Event = Event(eventId: nat, timestamp: nat, pid: nat, kind: nat, size: nat, data0: nat, data1: nat)

  /** What replay compares: everything but the id, the time and the size. */
  datatype Sig = Sig(pid: nat, kind: nat, data0: nat, data1: nat)

  function SigOf(e: Event): Sig
  {
    Sig(e.pid, e.kind, e.data0, e.data1)
  }

  function Sigs(es: seq<Event>): (ss: seq<Sig>)
    ensures |ss| == |es|
    ensures forall i :: 0 <= i < |es| ==> ss[i] == SigOf(es[i])
  {
    seq(|es|, i requires 0 <= i < |es| => SigOf(es[i]))
  }

  /** The C field widths: u64 id and time, u32 pid, u16 type and size, u64 data. */
  predicate Sized(e: Event)
  {
    e.eventId < TWO_64 && e.timestamp < TWO_64 && e.pid < TWO_32 &&
    e.kind < TWO_16 && e.size < TWO_16 && e.data0 < TWO_64 && e.data1 < TWO_64
  }

  predicate AllSized(es: seq<Event>)
  {
    forall i :: 0 <= i < |es| ==> Sized(es[i])
  }

  // ---- The image of an event log ----

  function EncodeEvent(e: Event): (bs: seq<byte>)
    ensures |bs| == EVENT_BYTES
  {
    Le(e.eventId, 8) + Le(e.timestamp, 8) + Le(e.pid, 4) + Le(e.kind, 2) +
    Le(e.size, 2) + Le(e.data0, 8) + Le(e.data1, 8)
  }

  function DecodeEvent(bs: seq<byte>): Event
    requires |bs| == EVENT_BYTES
  {
    Event(FromLe(bs[0..8]), FromLe(bs[8..16]), FromLe(bs[16..20]), FromLe(bs[20..22]),
          FromLe(bs[22..24]), FromLe(bs[24..32]), FromLe(bs[32..40]))
  }

  lemma EventRoundTrip(e: Event)
    requires Sized(e)
    ensures DecodeEvent(EncodeEvent(e)) == e
  {
    Powers();
    var bs := EncodeEvent(e);
    assert bs[0..8] == Le(e.eventId, 8);
    assert bs[8..16] == Le(e.timestamp, 8);
    assert bs[16..20] == Le(e.pid, 4);
    assert bs[20..22] == Le(e.kind, 2);
    assert bs[22..24] == Le(e.size, 2);
    assert bs[24..32] == Le(e.data0, 8);
    assert bs[32..40] == Le(e.data1, 8);
    LeRoundTrip(e.eventId, 8);
    LeRoundTrip(e.timestamp, 8);
    LeRoundTrip(e.pid, 4);
    LeRoundTrip(e.kind, 2);
    LeRoundTrip(e.size, 2);
    LeRoundTrip(e.data0, 8);
    LeRoundTrip(e.data1, 8);
  }

  function EncodeLog(es: seq<Event>): (bs: seq<byte>)
    ensures |bs| == EVENT_BYTES * |es|
  {
    if |es| == 0 then [] else EncodeEvent(es[0]) + EncodeLog(es[1..])
  }

  /** The events held by a buffer: `bytes / sizeof(struct trace_event)` of them. */
  function DecodeLog(bs: seq<byte>): (es: seq<Event>)
    ensures |es| == |bs| / EVENT_BYTES
  {
    if |bs| < EVENT_BYTES then [] else [DecodeEvent(bs[..EVENT_BYTES])] + DecodeLog(bs[EVENT_BYTES..])
  }

  lemma {:induction false} LogRoundTrip(es: seq<Event>)
    requires AllSized(es)
    ensures DecodeLog(EncodeLog(es)) == es
  {
    if |es| > 0 {
      LogRoundTrip(es[1..]);
      EventRoundTrip(es[0]);
      var bs := EncodeLog(es);
      assert bs[..EVENT_BYTES] == EncodeEvent(es[0]);
      assert bs[EVENT_BYTES..] == EncodeLog(es[1..]);
    }
  }

  // ---- The hash ----

  type u64 = x: int | 0 <= x < TWO_64

  const HASH_INIT: u64 := 1469598103934665603
  const HASH_PRIME: nat := 1099511628211

  function Pow2(n: nat): (p: nat)
    ensures p > 0
  {
    if n == 0 then 1 else 2 * Pow2(n - 1)
  }

  /** Bitwise exclusive or of the `bits` low bits. */
  function Xor(a: nat, b: nat, bits: nat): (r: nat)
    ensures r < Pow2(bits)
  {
    if bits == 0 then 0 else (a + b) % 2 + 2 * Xor(a / 2, b / 2, bits - 1)
  }

  lemma {:induction false} XorCommutes(a: nat, b: nat, bits: nat)
    ensures Xor(a, b, bits) == Xor(b, a, bits)
  {
    if bits > 0 {
      XorCommutes(a / 2, b / 2, bits - 1);
    }
  }

  lemma {:induction false} XorUndo(a: nat, c: nat, bits: nat)
    requires a < Pow2(bits)
    ensures Xor(Xor(a, c, bits), c, bits) == a
  {
    if bits > 0 {
      XorUndo(a / 2, c / 2, bits - 1);
      var half := Xor(a / 2, c / 2, bits - 1);
      var x := (a + c) % 2 + 2 * half;
      assert x / 2 == half;
      BitUndo(a, c, x);
    }
  }

  lemma BitUndo(a: nat, c: nat, x: nat)
    requires x % 2 == (a + c) % 2
    ensures (x + c) % 2 == a % 2
  {
  }

  lemma {:induction false} Pow2Add(m: nat, n: nat)
    ensures Pow2(m + n) == Pow2(m) * Pow2(n)
  {
    if m > 0 {
      Pow2Add(m - 1, n);
      assert Pow2(m + n) == 2 * (Pow2(m - 1) * Pow2(n));
    }
  }

  lemma Pow2Is()
    ensures Pow2(64) == TWO_64
  {
    assert Pow2(8) == 0x100;
    assert Pow2(16) == 0x1_0000;
    assert Pow2(24) == 0x100_0000;
    assert Pow2(32) == TWO_32;
    Pow2Add(32, 32);
  }

  /** One byte into the hash: exclusive or, then multiply by the prime modulo 2^64. */
  function Mix(h: u64, b: byte): u64
  {
    Xor(h, b, 64) * HASH_PRIME % TWO_64
  }

  function HashBytes(h: u64, bs: seq<byte>): u64
    decreases |bs|
  {
    if |bs| == 0 then h else HashBytes(Mix(h, bs[0]), bs[1..])
  }

  /** The bytes of one event that the hash sees: six 64-bit words, without the size. */
  function HashedEvent(e: Event): (bs: seq<byte>)
    ensures |bs| == 48
  {
    Le(e.eventId, 8) + Le(e.timestamp, 8) + Le(e.pid, 8) + Le(e.kind, 8) + Le(e.data0, 8) + Le(e.data1, 8)
  }

  function HashedLog(es: seq<Event>): (bs: seq<byte>)
    ensures |bs| == 48 * |es|
  {
    if |es| == 0 then [] else HashedEvent(es[0]) + HashedLog(es[1..])
  }

  function HashLog(es: seq<Event>): u64
  {
    HashBytes(HASH_INIT, HashedLog(es))
  }

  lemma {:induction false} HashConcat(h: u64, a: seq<byte>, b: seq<byte>)
    ensures HashBytes(h, a + b) == HashBytes(HashBytes(h, a), b)
    decreases |a|
  {
    if |a| == 0 {
      assert a + b == b;
    } else {
      assert (a + b)[1..] == a[1..] + b;
      HashConcat(Mix(h, a[0]), a[1..], b);
    }
  }

  /** Multiplication by the prime has the inverse 0xce965057aff6957b modulo 2^64. */
  lemma ScaleInjective(x: u64, y: u64)
    requires x * HASH_PRIME % TWO_64 == y * HASH_PRIME % TWO_64
    ensures x == y
  {
    var t := x * HASH_PRIME / TWO_64 - y * HASH_PRIME / TWO_64;
    assert (x - y) * HASH_PRIME == t * TWO_64;
    assert HASH_PRIME * 0xce965057aff6957b == 1 + 887285111055 * TWO_64;
    assert x - y == (t * 0xce965057aff6957b - (x - y) * 887285111055) * TWO_64;
  }

  lemma MixInjectiveInHash(h: u64, k: u64, b: byte)
    requires Mix(h, b) == Mix(k, b)
    ensures h == k
  {
    Pow2Is();
    ScaleInjective(Xor(h, b, 64), Xor(k, b, 64));
    XorUndo(h, b, 64);
    XorUndo(k, b, 64);
  }

  lemma MixInjectiveInByte(h: u64, a: byte, b: byte)
    requires Mix(h, a) == Mix(h, b)
    ensures a == b
  {
    Pow2Is();
    ScaleInjective(Xor(h, a, 64), Xor(h, b, 64));
    XorCommutes(h, a, 64);
    XorCommutes(h, b, 64);
    XorUndo(a, h, 64);
    XorUndo(b, h, 64);
  }

  lemma {:induction false} HashInjectiveInHash(h: u64, k: u64, bs: seq<byte>)
    requires HashBytes(h, bs) == HashBytes(k, bs)
    ensures h == k
    decreases |bs|
  {
    if |bs| > 0 {
      HashInjectiveInHash(Mix(h, bs[0]), Mix(k, bs[0]), bs[1..]);
      MixInjectiveInHash(h, k, bs[0]);
    }
  }

  ghost predicate DifferOnlyAt(a: seq<byte>, b: seq<byte>, j: nat)
  {
    j < |a| == |b| && a[j] != b[j] && forall i :: 0 <= i < |a| && i != j ==> a[i] == b[i]
  }

  /** A single changed byte, anywhere in the stream, always changes the hash. */
  lemma OneByteChangesHash(h: u64, a: seq<byte>, b: seq<byte>, j: nat)
    requires DifferOnlyAt(a, b, j)
    ensures HashBytes(h, a) != HashBytes(h, b)
  {
    assert a == a[..j] + ([a[j]] + a[j + 1..]);
    assert b == a[..j] + ([b[j]] + a[j + 1..]);
    HashConcat(h, a[..j], [a[j]] + a[j + 1..]);
    HashConcat(h, a[..j], [b[j]] + a[j + 1..]);
    var k := HashBytes(h, a[..j]);
    assert ([a[j]] + a[j + 1..])[1..] == a[j + 1..] == ([b[j]] + a[j + 1..])[1..];
    if HashBytes(h, a) == HashBytes(h, b) {
      HashInjectiveInHash(Mix(k, a[j]), Mix(k, b[j]), a[j + 1..]);
      MixInjectiveInByte(k, a[j], b[j]);
    }
  }

  /** Two equally long logs that differ in one byte of one hashed field have different hashes. */
  lemma OneFieldByteChangesLogHash(a: seq<Event>, b: seq<Event>, j: nat)
    requires DifferOnlyAt(HashedLog(a), HashedLog(b), j)
    ensures HashLog(a) != HashLog(b)
  {
    OneByteChangesHash(HASH_INIT, HashedLog(a), HashedLog(b), j);
  }

  lemma {:induction false} HashedLogSnoc(es: seq<Event>, e: Event)
    ensures HashedLog(es + [e]) == HashedLog(es) + HashedEvent(e)
  {
    if |es| == 0 {
      assert es + [e] == [e];
      assert HashedLog([e][1..]) == [];
    } else {
      assert (es + [e])[1..] == es[1..] + [e];
      HashedLogSnoc(es[1..], e);
    }
  }

  /** hash_mix: the eight bytes of `value`, low byte first. */
  method HashMix(hash: u64, value: nat) returns (h: u64)
    ensures h == HashBytes(hash, Le(value, 8))
  {
    h := hash;
    var rest := value;
    for i := 0 to 8
      invariant HashBytes(h, Le(rest, 8 - i)) == HashBytes(hash, Le(value, 8))
    {
      assert Le(rest, 8 - i)[1..] == Le(rest / 256, 8 - (i + 1));
      h := Mix(h, rest % 256);
      rest := rest / 256;
    }
  }

  lemma HashSixWords(h: u64, e: Event)
    ensures HashBytes(h, HashedEvent(e)) ==
            HashBytes(HashBytes(HashBytes(HashBytes(HashBytes(HashBytes(h,
              Le(e.eventId, 8)), Le(e.timestamp, 8)), Le(e.pid, 8)), Le(e.kind, 8)), Le(e.data0, 8)), Le(e.data1, 8))
  {
    var w1 := Le(e.eventId, 8);
    var w2 := w1 + Le(e.timestamp, 8);
    var w3 := w2 + Le(e.pid, 8);
    var w4 := w3 + Le(e.kind, 8);
    var w5 := w4 + Le(e.data0, 8);
    HashConcat(h, w5, Le(e.data1, 8));
    HashConcat(h, w4, Le(e.data0, 8));
    HashConcat(h, w3, Le(e.kind, 8));
    HashConcat(h, w2, Le(e.pid, 8));
    HashConcat(h, w1, Le(e.timestamp, 8));
  }

  /** trace_hash_events over the first `count` events of a buffer. */
  method HashEvents(events: array<Event>, count: nat) returns (hash: u64)
    requires count <= events.Length
    ensures hash == HashLog(events[..count])
  {
    hash := HASH_INIT;
    for i := 0 to count
      invariant hash == HashLog(events[..i])
    {
      ghost var before := hash;
      hash := HashMix(hash, events[i].eventId);
      hash := HashMix(hash, events[i].timestamp);
      hash := HashMix(hash, events[i].pid);
      hash := HashMix(hash, events[i].kind);
      hash := HashMix(hash, events[i].data0);
      hash := HashMix(hash, events[i].data1);
      HashSixWords(before, events[i]);
      HashConcat(HASH_INIT, HashedLog(events[..i]), HashedEvent(events[i]));
      HashedLogSnoc(events[..i], events[i]);
      assert events[..i + 1] == events[..i] + [events[i]];
    }
  }
}
