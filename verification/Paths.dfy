/** Printing and parsing the paths of trace sessions (kernel/vfs.c). */
module Paths {
  import opened Bytes

  datatype Kind = Invalid | NetNode | ProcTasks | ProcMeminfo | ProcAspace | TraceIndex | TraceSession | TraceMeta | Bin

  datatype Parsed = NotASession | Session(id: nat)

  const PREFIX: string := "/trace/session-"

  // ---- Decimal numbers ----

  function Digit(d: nat): char
    requires d < 10
  {
    '0' + d as char
  }

  predicate IsDigit(c: char)
  {
    '0' <= c <= '9'
  }

  function DigitValue(c: char): (d: nat)
    requires IsDigit(c)
    ensures d < 10 && Digit(d) == c
  {
    (c - '0') as nat
  }

  /** The usual decimal notation. */
  function Decimal(v: nat): (s: string)
    ensures |s| > 0 && forall k :: 0 <= k < |s| ==> IsDigit(s[k])
  {
    (if v < 10 then [] else Decimal(v / 10)) + [Digit(v % 10)]
  }

  /** The number that a string of digits stands for. */
  function Value(s: string): nat
    requires forall k :: 0 <= k < |s| ==> IsDigit(s[k])
  {
    if |s| == 0 then 0 else 10 * Value(s[..|s| - 1]) + DigitValue(s[|s| - 1])
  }

  lemma {:induction false} DecimalValue(v: nat)
    ensures Value(Decimal(v)) == v
  {
    if v >= 10 {
      DecimalValue(v / 10);
      assert Decimal(v)[..|Decimal(v)| - 1] == Decimal(v / 10);
    }
  }

  // ---- Printing into a buffer ----

  function Shown(cap: nat, text: string): nat
    requires cap > 0
  {
    if |text| < cap then |text| else cap - 1
  }

  /** The buffer holds as much of `text` as fits, with a NUL after it. */
  ghost predicate Shows(buf: seq<char>, text: string)
    requires |buf| > 0
  {
    var n := Shown(|buf|, text);
    buf[..n] == text[..n] && (n > 0 ==> buf[n] == '\0')
  }

  /** append_char: nothing is written past the end, but the position counts on. */
  method AppendChar(buf: array<char>, pos: nat, c: char, ghost text: string) returns (r: nat)
    requires buf.Length > 0 && pos == |text| && Shows(buf[..], text)
    modifies buf
    ensures r == pos + 1 && Shows(buf[..], text + [c])
  {
    ghost var before := buf[..];
    if pos + 1 < buf.Length {
      buf[pos] := c;
      buf[pos + 1] := '\0';
      assert buf[..pos + 1] == before[..pos] + [c];
    }
    assert (text + [c])[..Shown(buf.Length, text)] == text[..Shown(buf.Length, text)];
    r := pos + 1;
  }

  /** append_str. */
  method AppendString(buf: array<char>, pos: nat, s: string, ghost text: string) returns (r: nat)
    requires buf.Length > 0 && pos == |text| && Shows(buf[..], text)
    modifies buf
    ensures r == pos + |s| && Shows(buf[..], text + s)
  {
    r := pos;
    assert text + s[..0] == text;
    for i := 0 to |s|
      invariant r == pos + i && Shows(buf[..], text + s[..i])
    {
      r := AppendChar(buf, r, s[i], text + s[..i]);
      assert text + s[..i] + [s[i]] == text + s[..i + 1];
    }
    assert text + s[..|s|] == text + s;
  }

  function Pow10(n: nat): nat
  {
    if n == 0 then 1 else 10 * Pow10(n - 1)
  }

  function Reverse(s: string): (r: string)
    ensures |r| == |s|
  {
    if |s| == 0 then [] else [s[|s| - 1]] + Reverse(s[..|s| - 1])
  }

  lemma TwentyDigits()
    ensures TWO_64 < Pow10(20)
  {
    assert Pow10(5) == 100000;
    assert Pow10(10) == 100000 * Pow10(5);
    assert Pow10(15) == 100000 * Pow10(10);
    assert Pow10(20) == 100000 * Pow10(15);
  }

  lemma OneDigitLess(v: nat, n: nat, tail: string)
    requires 0 < v < Pow10(n)
    ensures n > 0 && v / 10 < Pow10(n - 1)
    ensures Decimal(v) + tail == (if v / 10 == 0 then [] else Decimal(v / 10)) + ([Digit(v % 10)] + tail)
  {
  }

  /** The first loop of append_u64: the digits, last first. 32 bytes are always enough for them. */
  method CollectDigits(tmp: array<char>, value: nat) returns (n: nat)
    requires tmp.Length == 32 && 0 < value < TWO_64
    modifies tmp
    ensures n <= 20 && Decimal(value) == Reverse(tmp[..n])
  {
    n := 0;
    var v: nat := value;
    TwentyDigits();
    assert Decimal(value) == Decimal(value) + Reverse(tmp[..0]);
    hide Pow10, Decimal;
    while v > 0 && n < tmp.Length
      invariant n <= 20 && v < Pow10(20 - n)
      invariant Decimal(value) == (if v == 0 then [] else Decimal(v)) + Reverse(tmp[..n])
      decreases v
    {
      OneDigitLess(v, 20 - n, Reverse(tmp[..n]));
      tmp[n] := Digit(v % 10);
      assert tmp[..n + 1][..n] == tmp[..n];
      n := n + 1;
      v := v / 10;
    }
  }

  /** append_u64. */
  method AppendNumber(buf: array<char>, pos: nat, value: nat, ghost text: string) returns (r: nat)
    requires buf.Length > 0 && pos == |text| && Shows(buf[..], text) && value < TWO_64
    modifies buf
    ensures r == pos + |Decimal(value)| && Shows(buf[..], text + Decimal(value))
  {
    if value == 0 {
      r := AppendChar(buf, pos, '0', text);
      assert Decimal(0) == "0";
      return;
    }
    hide Decimal, Shows;
    var tmp := new char[32];
    var n := CollectDigits(tmp, value);
    ghost var shown := text;
    r := pos;
    while n > 0
      invariant 0 <= n <= 20 && r == |shown| && Shows(buf[..], shown)
      invariant shown + Reverse(tmp[..n]) == text + Decimal(value)
    {
      n := n - 1;
      assert tmp[..n + 1][..n] == tmp[..n];
      assert shown + Reverse(tmp[..n + 1]) == shown + [tmp[n]] + Reverse(tmp[..n]);
      r := AppendChar(buf, r, tmp[n], shown);
      shown := shown + [tmp[n]];
    }
    assert shown + Reverse(tmp[..0]) == shown;
  }

  // ---- Classifying and parsing ----

  predicate StartsWith(s: string, p: string)
  {
    p <= s
  }

  predicate EndsWith(s: string, p: string)
  {
    |p| <= |s| && s[|s| - |p|..] == p
  }

  /** path_kind. */
  function PathKind(path: string): Kind
  {
    if |path| == 0 then Invalid
    else if StartsWith(path, "/net/") || path == "/net" then NetNode
    else if path == "/proc/tasks" then ProcTasks
    else if path == "/proc/meminfo" then ProcMeminfo
    else if path == "/proc/aspace" then ProcAspace
    else if path == "/trace" || path == "/trace/" || path == "/trace/index" then TraceIndex
    else if path == "/bin" || path == "/bin/" || path == "/bin/index" then Bin
    else if StartsWith(path, "/bin/") then Bin
    else if |path| > 11 && StartsWith(path, PREFIX) then
      if |path| > 4 && EndsWith(path, ".bin") then TraceSession
      else if |path| > 5 && EndsWith(path, ".meta") then TraceMeta
      else Invalid
    else Invalid
  }

  /** The digit loop of parse_trace_session_id, in 32-bit arithmetic. */
  function ScanDigits(s: string, value: nat): nat
    decreases |s|
  {
    if |s| == 0 || !IsDigit(s[0]) then value
    else ScanDigits(s[1..], (value * 10 + DigitValue(s[0])) % TWO_32)
  }

  function ParseSession(path: string): Parsed
  {
    if !StartsWith(path, PREFIX) then NotASession
    else
      var v := ScanDigits(path[|PREFIX|..], 0);
      if v == 0 then NotASession else Session(v)
  }

  /** parse_trace_session_id. */
  method ParseSessionId(path: string) returns (r: Parsed)
    ensures r == ParseSession(path)
  {
    if !StartsWith(path, PREFIX) {
      return NotASession;
    }
    var value: nat, i: nat := 0, |PREFIX|;
    while i < |path| && IsDigit(path[i])
      invariant |PREFIX| <= i <= |path|
      invariant ScanDigits(path[|PREFIX|..], 0) == ScanDigits(path[i..], value)
    {
      value := (value * 10 + DigitValue(path[i])) % TWO_32;
      assert path[i..][1..] == path[i + 1..];
      i := i + 1;
    }
    r := if value == 0 then NotASession else Session(value);
  }

  // ---- Round trip ----

  /** One digit more, with and without reduction modulo 2^32 on the way. */
  lemma ModStep(a: nat, b: nat, d: nat)
    requires a == b % TWO_32
    ensures (a * 10 + d) % TWO_32 == (b * 10 + d) % TWO_32
  {
    var q := b / TWO_32;
    assert b * 10 + d == a * 10 + d + q * 10 * TWO_32;
    ModAdd(a * 10 + d, q * 10);
  }

  lemma {:induction false} ModAdd(x: nat, k: nat)
    ensures (x + k * TWO_32) % TWO_32 == x % TWO_32
  {
    if k > 0 {
      ModAdd(x, k - 1);
      assert (x + k * TWO_32) - TWO_32 == x + (k - 1) * TWO_32;
    }
  }

  /** The loop computes the number that the leading digits stand for, modulo 2^32. */
  lemma {:induction false} ScanIsValue(done: string, ds: string, rest: string, value: nat)
    requires forall k :: 0 <= k < |done| ==> IsDigit(done[k])
    requires forall k :: 0 <= k < |ds| ==> IsDigit(ds[k])
    requires rest == [] || !IsDigit(rest[0])
    requires value == Value(done) % TWO_32
    ensures forall k :: 0 <= k < |done + ds| ==> IsDigit((done + ds)[k])
    ensures ScanDigits(ds + rest, value) == Value(done + ds) % TWO_32
    decreases |ds|
  {
    if |ds| == 0 {
      assert ds + rest == rest && done + ds == done;
    } else {
      var done1 := done + [ds[0]];
      assert done1[..|done1| - 1] == done && done1 + ds[1..] == done + ds;
      assert (ds + rest)[1..] == ds[1..] + rest;
      ModStep(value, Value(done), DigitValue(ds[0]));
      ScanIsValue(done1, ds[1..], rest, (value * 10 + DigitValue(ds[0])) % TWO_32);
    }
  }

  function SessionPath(id: nat, suffix: string): string
  {
    PREFIX + Decimal(id) + suffix
  }

  lemma ParsesPrinted(id: nat, suffix: string)
    requires suffix == [] || !IsDigit(suffix[0])
    ensures ParseSession(SessionPath(id, suffix)) ==
            if id % TWO_32 == 0 then NotASession else Session(id % TWO_32)
  {
    hide Decimal, ScanDigits;
    var path := SessionPath(id, suffix);
    assert path[..|PREFIX|] == PREFIX && path[|PREFIX|..] == Decimal(id) + suffix;
    ScanIsValue([], Decimal(id), suffix, 0);
    assert [] + Decimal(id) == Decimal(id);
    DecimalValue(id);
  }

  /** The path of a session is read back as that session, exactly for the ids that 32 bits can hold and
      that sessions have, and it is classified by its suffix. */
  lemma SessionPathRoundTrip(id: nat)
    ensures ParseSession(SessionPath(id, ".bin")) == Session(id) <==> 1 <= id < TWO_32
    ensures ParseSession(SessionPath(id, ".meta")) == Session(id) <==> 1 <= id < TWO_32
    ensures PathKind(SessionPath(id, ".bin")) == TraceSession
    ensures PathKind(SessionPath(id, ".meta")) == TraceMeta
  {
    ParsesPrinted(id, ".bin");
    ParsesPrinted(id, ".meta");
    KindOfPrinted(id, ".bin");
    KindOfPrinted(id, ".meta");
  }

  lemma KindOfPrinted(id: nat, suffix: string)
    requires suffix == ".bin" || suffix == ".meta"
    ensures PathKind(SessionPath(id, suffix)) == if suffix == ".bin" then TraceSession else TraceMeta
  {
    var path := SessionPath(id, suffix);
    assert path[..|PREFIX|] == PREFIX;
    assert path[1] == 't' && path[7] == 's';
    assert path[|path| - |suffix|..] == suffix;
    assert suffix == ".meta" ==> path[|path| - 1] == 'a';
  }

  /** Different sessions have different paths. */
  lemma SessionPathInjective(a: nat, b: nat)
    requires SessionPath(a, ".bin") == SessionPath(b, ".bin") || SessionPath(a, ".meta") == SessionPath(b, ".meta")
    ensures a == b
  {
    var suffix := if SessionPath(a, ".bin") == SessionPath(b, ".bin") then ".bin" else ".meta";
    DecimalOf(a, suffix);
    DecimalOf(b, suffix);
    DecimalValue(a);
    DecimalValue(b);
  }

  /** The fixed nodes. */
  lemma FixedPaths()
    ensures PathKind("/proc/tasks") == ProcTasks && PathKind("/proc/meminfo") == ProcMeminfo && PathKind("/proc/aspace") == ProcAspace
    ensures PathKind("/trace") == PathKind("/trace/") == PathKind("/trace/index") == TraceIndex
    ensures PathKind("") == PathKind("/") == PathKind("/proc") == Invalid
  {
    assert "/trace"[1] == "/trace/"[1] == "/trace/index"[1] == 't';
    assert "/proc/tasks"[1] == "/proc/meminfo"[1] == "/proc/aspace"[1] == "/proc"[1] == 'p';
    assert "/proc/tasks"[6] == 't' && "/proc/meminfo"[6] == 'm' && "/proc/aspace"[6] == 'a';
  }

  /** The two directories, with everything below them, and nothing that only begins like them. */
  lemma DirectoryPaths(rest: string)
    ensures PathKind("/net" + rest) == NetNode <==> rest == "" || rest[0] == '/'
    ensures PathKind("/bin" + rest) == Bin <==> rest == "" || rest[0] == '/'
  {
    NetPaths(rest);
    BinPaths(rest);
  }

  lemma NetPaths(rest: string)
    ensures PathKind("/net" + rest) == NetNode <==> rest == "" || rest[0] == '/'
  {
    var path := "/net" + rest;
    assert path[1] == 'n';
    if rest == "" {
      assert path == "/net";
    } else {
      assert path[4] == rest[0];
      assert rest[0] == '/' ==> path[..5] == "/net/";
    }
  }

  lemma BinPaths(rest: string)
    ensures PathKind("/bin" + rest) == Bin <==> rest == "" || rest[0] == '/'
  {
    var path := "/bin" + rest;
    assert path[1] == 'b';
    if rest == "" {
      assert path == "/bin";
    } else {
      assert path[4] == rest[0];
      assert rest[0] == '/' ==> path[..5] == "/bin/";
    }
  }

  lemma DecimalOf(id: nat, suffix: string)
    ensures var path := SessionPath(id, suffix);
            |path| >= |PREFIX| + |suffix| && Decimal(id) == path[|PREFIX|..|path| - |suffix|]
  {
  }

  /** Prints the path of a session; a buffer that is long enough holds all of it. */
  method PrintSessionPath(buf: array<char>, id: nat, suffix: string) returns (n: nat)
    requires buf.Length > 0 && id < TWO_32
    modifies buf
    ensures n == |SessionPath(id, suffix)|
    ensures n < buf.Length ==> buf[..n] == SessionPath(id, suffix) && buf[n] == '\0'
  {
    n := AppendString(buf, 0, PREFIX, []);
    n := AppendNumber(buf, n, id, PREFIX);
    n := AppendString(buf, n, suffix, PREFIX + Decimal(id));
    assert [] + PREFIX == PREFIX;
    assert PREFIX + Decimal(id) + suffix == SessionPath(id, suffix);
  }
}
