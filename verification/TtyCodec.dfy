/** The text of the tty control protocol: resize requests as the client writes them (pty.go) and as the
    handler's "%d %d %d" reads them (pty.c), and status lines in the other direction. */
module TtyCodec {
  import opened Basics

  type byte = b: int | 0 <= b < 256
  type Bytes = seq<byte>

  const NUL: byte := 0
  const NEWLINE: byte := 10
  const RETURN: byte := 13
  const SPACE: byte := 32
  const PLUS: byte := 43
  const MINUS: byte := 45
  const DIGIT0: byte := 48

  const OP_RESIZE := 1

  // ---------------------------------------------------------------- writing

  function Digits(n: nat): (s: Bytes)
    ensures |s| > 0
  {
    if n < 10 then [DIGIT0 + n] else Digits(n / 10) + [DIGIT0 + n % 10]
  }

  function Decimal(i: int): (s: Bytes)
    ensures |s| > 0
  {
    if i < 0 then [MINUS] + Digits(-i) else Digits(i)
  }

  /** A request line without its newline. */
  function RequestLine(width: int64, height: int64): Bytes {
    Decimal(OP_RESIZE) + [SPACE] + Decimal(width) + [SPACE] + Decimal(height)
  }

  function AppendResizeRequest(buf: Bytes, width: int64, height: int64): Bytes {
    buf + RequestLine(width, height) + [NEWLINE]
  }

  // ---------------------------------------------------------------- reading

  predicate IsDigit(b: byte) {
    DIGIT0 <= b <= DIGIT0 + 9
  }

  predicate IsSpace(b: byte) {
    b == SPACE || 9 <= b <= 13
  }

  /** The six white space characters of C. */
  lemma WhiteSpace(b: byte)
    ensures IsSpace(b) <==> b in {9, 10, 11, 12, 13, 32}
  {
  }

  function SkipSpaces(s: Bytes, i: nat): (j: nat)
    requires i <= |s|
    ensures i <= j <= |s|
    decreases |s| - i
  {
    if i < |s| && IsSpace(s[i]) then SkipSpaces(s, i + 1) else i
  }

  function DigitsEnd(s: Bytes, i: nat): (j: nat)
    requires i <= |s|
    ensures i <= j <= |s|
    decreases |s| - i
  {
    if i < |s| && IsDigit(s[i]) then DigitsEnd(s, i + 1) else i
  }

  /** The number a run of digits stands for. */
  function Value(ds: Bytes): int {
    if ds == [] then 0 else Value(ds[..|ds|-1]) * 10 + (ds[|ds|-1] - DIGIT0)
  }

  /** One "%d" at position i: leading white space, a sign, at least one digit. */
  function ScanInt(s: Bytes, i: nat): (r: Option<(int, nat)>)
    requires i <= |s|
    ensures r.Some? ==> i < r.value.1 <= |s|
  {
    var j := SkipSpaces(s, i);
    var negative := j < |s| && s[j] == MINUS;
    var k := if j < |s| && (s[j] == MINUS || s[j] == PLUS) then j + 1 else j;
    var e := DigitsEnd(s, k);
    if e == k then None else Some((if negative then -Value(s[k..e]) else Value(s[k..e]), e))
  }

  /** sscanf sees the line as a C string. */
  function CString(s: Bytes): Bytes {
    if s == [] || s[0] == NUL then [] else [s[0]] + CString(s[1..])
  }

  /** The C int a scanned number is stored as: the C library saturates it at 64 bits and keeps the low 32. */
  function ToCInt(v: int): int32 {
    var l := if v < -0x8000_0000_0000_0000 then -0x8000_0000_0000_0000
             else if v > 0x7fff_ffff_ffff_ffff then 0x7fff_ffff_ffff_ffff else v;
    var m := l % 0x1_0000_0000;
    if m < 0x8000_0000 then m else m - 0x1_0000_0000
  }

  /** What stands before the first NUL. */
  lemma {:induction false} CStringIs(s: Bytes)
    ensures var c := CString(s);
            c <= s && NUL !in c && (c != s ==> |c| < |s| && s[|c|] == NUL)
  {
    if s != [] && s[0] != NUL {
      CStringIs(s[1..]);
    }
  }

  datatype Request = Request(op: int32, width: int32, height: int32)

  function ParseRequest(line: Bytes): Option<Request> {
    var s := CString(line);
    var op := ScanInt(s, 0);
    if op.None? then None
    else
      var w := ScanInt(s, op.value.1);
      if w.None? then None
      else
        var h := ScanInt(s, w.value.1);
        if h.None? then None else Some(Request(ToCInt(op.value.0), ToCInt(w.value.0), ToCInt(h.value.0)))
  }

  // ---------------------------------------------------------------- round trip

  predicate AllDigits(s: Bytes) {
    forall i :: 0 <= i < |s| ==> IsDigit(s[i])
  }

  lemma {:induction false} DigitsStandFor(n: nat)
    ensures AllDigits(Digits(n)) && Value(Digits(n)) == n
  {
    if n >= 10 {
      DigitsStandFor(n / 10);
      assert Digits(n)[..|Digits(n)|-1] == Digits(n / 10);
    } else {
      assert Digits(n)[..0] == [];
    }
  }

  lemma {:induction false} RunEnds(s: Bytes, i: nat, ds: Bytes)
    requires i + |ds| <= |s| && s[i..i+|ds|] == ds && AllDigits(ds)
    requires i + |ds| == |s| || !IsDigit(s[i+|ds|])
    ensures DigitsEnd(s, i) == i + |ds|
    decreases |ds|
  {
    if ds != [] {
      assert s[i] == ds[0];
      assert s[i+1..i+|ds|] == ds[1..];
      RunEnds(s, i + 1, ds[1..]);
    }
  }

  lemma SkipOne(s: Bytes, i: nat, at: nat)
    requires i <= at < |s| && !IsSpace(s[at]) && (at == i || (at == i + 1 && s[i] == SPACE))
    ensures SkipSpaces(s, i) == at
  {
    assert SkipSpaces(s, at) == at;
  }

  /** A run of digits, behind a minus or not, read as a number. */
  lemma ScanDigits(s: Bytes, i: nat, at: nat, negative: bool, ds: Bytes)
    requires i <= at < |s| && SkipSpaces(s, i) == at && ds != [] && AllDigits(ds)
    requires var k := if negative then at + 1 else at;
             && k + |ds| <= |s| && s[k..k+|ds|] == ds
             && (k + |ds| == |s| || !IsDigit(s[k+|ds|]))
    requires if negative then s[at] == MINUS else s[at] == ds[0]
    ensures ScanInt(s, i) ==
            Some((if negative then -Value(ds) else Value(ds), (if negative then at + 1 else at) + |ds|))
  {
    hide Value, SkipSpaces, DigitsEnd;
    RunEnds(s, if negative then at + 1 else at, ds);
  }

  /** "%d" at a position where a decimal stands, after at most one space, reads it back. */
  lemma ScanDecimal(s: Bytes, i: nat, at: nat, v: int)
    requires i <= at && at + |Decimal(v)| <= |s| && s[at..at+|Decimal(v)|] == Decimal(v)
    requires at == i || (at == i + 1 && s[i] == SPACE)
    requires at + |Decimal(v)| == |s| || !IsDigit(s[at+|Decimal(v)|])
    ensures ScanInt(s, i) == Some((v, at + |Decimal(v)|))
  {
    hide Digits, ScanInt, SkipSpaces, Value;
    var n: nat := if v < 0 then -v else v;
    var d := Digits(n);
    DigitsStandFor(n);
    var t := Decimal(v);
    assert s[at] == t[0] && IsDigit(d[0]);
    SkipOne(s, i, at);
    if v < 0 {
      assert t[1..] == d;
      assert s[at+1..at+|t|] == s[at..at+|t|][1..];
    }
    ScanDigits(s, i, at, v < 0, d);
  }

  lemma {:induction false} NoNul(s: Bytes)
    requires NUL !in s
    ensures CString(s) == s
  {
    if s != [] {
      NoNul(s[1..]);
    }
  }

  lemma DecimalIsPlain(v: int)
    ensures NUL !in Decimal(v) && NEWLINE !in Decimal(v)
  {
    DigitsStandFor(if v < 0 then -v else v);
  }

  lemma LineIsPlain(w: int64, h: int64)
    ensures NUL !in RequestLine(w, h) && NEWLINE !in RequestLine(w, h)
  {
    DecimalIsPlain(1);
    DecimalIsPlain(w);
    DecimalIsPlain(h);
  }

  predicate FitsCInt(v: int) {
    -0x8000_0000 <= v < 0x8000_0000
  }

  /** The handler reads every request the client writes; it reads back the very size exactly when the
      size fits a C int, and always one that agrees in the low 16 bits, all a window size has. */
  lemma RequestRoundTrip(w: int64, h: int64)
    ensures var r := ParseRequest(RequestLine(w, h));
            && r.Some? && r.value.op == OP_RESIZE
            && (r.value.width == w && r.value.height == h <==> FitsCInt(w) && FitsCInt(h))
            && r.value.width % 0x1_0000 == w % 0x1_0000 && r.value.height % 0x1_0000 == h % 0x1_0000
  {
    hide ToCInt;
    ParsesLine(w, h);
    ToCIntIs(OP_RESIZE);
    ToCIntIs(w);
    ToCIntIs(h);
  }

  lemma ToCIntIs(v: int64)
    ensures ToCInt(v) == v <==> FitsCInt(v)
    ensures ToCInt(v) % 0x1_0000 == v % 0x1_0000
  {
  }

  lemma ParsesLine(w: int64, h: int64)
    ensures ParseRequest(RequestLine(w, h)) == Some(Request(ToCInt(OP_RESIZE), ToCInt(w), ToCInt(h)))
  {
    hide ScanInt, Digits, Decimal, CString, ToCInt;
    var s := RequestLine(w, h);
    var one, a, b := Decimal(OP_RESIZE), Decimal(w), Decimal(h);
    LineIsPlain(w, h);
    NoNul(s);
    var i := |one| + 1;
    var j := i + |a| + 1;
    assert s[0..|one|] == one && s[|one|] == SPACE;
    ScanDecimal(s, 0, 0, OP_RESIZE);
    assert s[i..i+|a|] == a && s[i+|a|] == SPACE;
    ScanDecimal(s, |one|, i, w);
    assert s[j..j+|b|] == b;
    ScanDecimal(s, i + |a|, j, h);
  }

  // ---------------------------------------------------------------- what is accepted at all

  /** s[i..j] is white space, perhaps a sign, and digits, as many as there are. */
  ghost predicate Spells(s: Bytes, i: nat, j: nat, v: int, a: nat, b: nat) {
    && i <= a <= b < j <= |s|
    && (forall k :: i <= k < a ==> IsSpace(s[k]))
    && (b == a || (b == a + 1 && (s[a] == MINUS || s[a] == PLUS)))
    && AllDigits(s[b..j]) && (j == |s| || !IsDigit(s[j]))
    && v == if b > a && s[a] == MINUS then -Value(s[b..j]) else Value(s[b..j])
  }

  lemma {:induction false} SkipEnds(s: Bytes, i: nat)
    requires i <= |s|
    ensures var a := SkipSpaces(s, i);
            (forall k :: i <= k < a ==> IsSpace(s[k])) && (a == |s| || !IsSpace(s[a]))
    decreases |s| - i
  {
    if i < |s| && IsSpace(s[i]) {
      SkipEnds(s, i + 1);
    }
  }

  lemma {:induction false} SkipIs(s: Bytes, i: nat, a: nat)
    requires i <= a <= |s| && (forall k :: i <= k < a ==> IsSpace(s[k])) && (a == |s| || !IsSpace(s[a]))
    ensures SkipSpaces(s, i) == a
    decreases a - i
  {
    if i < a {
      SkipIs(s, i + 1, a);
    }
  }

  lemma {:induction false} DigitsRun(s: Bytes, i: nat)
    requires i <= |s|
    ensures var e := DigitsEnd(s, i); AllDigits(s[i..e]) && (e == |s| || !IsDigit(s[e]))
    decreases |s| - i
  {
    if i < |s| && IsDigit(s[i]) {
      DigitsRun(s, i + 1);
      var e := DigitsEnd(s, i + 1);
      assert s[i..e] == [s[i]] + s[i+1..e];
    }
  }

  /** "%d" reads a number exactly where one is spelled, all of it, and nothing elsewhere. */
  lemma ScanReads(s: Bytes, i: nat, j: nat, v: int)
    requires i <= |s|
    ensures ScanInt(s, i) == Some((v, j)) <==> exists a: nat, b: nat :: Spells(s, i, j, v, a, b)
  {
    if ScanInt(s, i) == Some((v, j)) {
      var a := SkipSpaces(s, i);
      SkipEnds(s, i);
      var b := if s[a] == MINUS || s[a] == PLUS then a + 1 else a;
      DigitsRun(s, b);
      assert Spells(s, i, j, v, a, b);
    }
    if a: nat, b: nat :| Spells(s, i, j, v, a, b) {
      SpelledIsRead(s, i, j, v, a, b);
    }
  }

  lemma SpelledIsRead(s: Bytes, i: nat, j: nat, v: int, a: nat, b: nat)
    requires i <= |s| && Spells(s, i, j, v, a, b)
    ensures ScanInt(s, i) == Some((v, j))
  {
    assert s[b] == s[b..j][0];
    SkipIs(s, i, a);
    RunEnds(s, b, s[b..j]);
  }

  /** What the value of a run of digits is: each digit counts ten times less than the one before it. */
  lemma ValueIs(ds: Bytes, d: byte)
    ensures Value([]) == 0 && Value(ds + [d]) == 10 * Value(ds) + (d - 48)
  {
    assert (ds + [d])[..|ds|] == ds;
  }

  /** A request is three numbers, up to the first NUL; whatever follows them is ignored. */
  lemma RequestIs(line: Bytes)
    ensures var s := CString(line);
            && (ParseRequest(line).Some? <==>
                  var op := ScanInt(s, 0);
                  op.Some? && var w := ScanInt(s, op.value.1); w.Some? && ScanInt(s, w.value.1).Some?)
  {
  }

  // ---------------------------------------------------------------- buffer size

  function Pow10(k: nat): nat {
    if k == 0 then 1 else 10 * Pow10(k - 1)
  }

  lemma {:induction false} DigitsShort(n: nat, k: nat)
    requires k > 0 && n < Pow10(k)
    ensures |Digits(n)| <= k
  {
    if n >= 10 {
      assert k > 1;
      DigitsShort(n / 10, k - 1);
    }
  }

  const REQUEST_BUF_SIZE := 32

  lemma DecimalShort(v: int)
    requires -0x8000_0000_0000_0000 <= v < 0x8000_0000_0000_0000
    ensures |Decimal(v)| <= 20
  {
    assert Pow10(5) == 100_000;
    assert Pow10(10) == 10_000_000_000;
    assert Pow10(19) == 10_000_000_000_000_000_000;
    DigitsShort(if v < 0 then -v else v, 19);
  }

  /** Whatever a Go int holds, the request is short. */
  lemma AnyRequestShort(w: int64, h: int64)
    ensures |RequestLine(w, h)| <= 43
  {
    DecimalShort(w);
    DecimalShort(h);
    assert |Decimal(OP_RESIZE)| == 1;
  }

  /** A request for any 32-bit size is at most 24 bytes, and so fits the client's buffer. */
  lemma RequestFits(w: uint32, h: uint32)
    ensures |AppendResizeRequest([], w, h)| <= 24 < REQUEST_BUF_SIZE
  {
    assert Pow10(5) == 100_000;
    assert Pow10(10) == 10_000_000_000;
    DigitsShort(w, 10);
    DigitsShort(h, 10);
    assert |Decimal(OP_RESIZE)| == 1;
  }

  // ---------------------------------------------------------------- replies

  datatype Reply = Accepted | Refused(msg: Bytes)

  /** reply_ok and reply_err: one status line, cut to what the handler's buffer holds. */
  function ReplyLine(r: Reply): Bytes {
    match r
    case Accepted => [DIGIT0, NEWLINE]
    case Refused(msg) =>
      var full := [DIGIT0 + 1, SPACE] + msg + [NEWLINE];
      if |full| >= 256 then full[..255] else full
  }

  function TrimRight(s: Bytes): Bytes {
    if s != [] && (s[|s|-1] == NEWLINE || s[|s|-1] == RETURN) then TrimRight(s[..|s|-1]) else s
  }

  datatype Outcome = Success | Unspecified | Failure(msg: Bytes) | Unexpected

  /** parseTTYResponse. */
  function ParseResponse(line: Bytes): Outcome {
    var s := TrimRight(line);
    if s == [DIGIT0] then Success
    else if s == [DIGIT0 + 1] then Unspecified
    else if |s| >= 2 && s[0] == DIGIT0 + 1 && s[1] == SPACE then Failure(s[2..])
    else Unexpected
  }

  /** What the client gets to see of a message: as much as fits the handler's buffer, without trailing
      line breaks. */
  function Shown(msg: Bytes): Bytes {
    TrimRight(if |msg| > 253 then msg[..253] else msg)
  }

  lemma {:induction false} TrimBehind(head: Bytes, s: Bytes)
    requires head != [] && head[|head|-1] != NEWLINE && head[|head|-1] != RETURN
    ensures TrimRight(head + s) == head + TrimRight(s)
  {
    if s == [] {
      assert head + s == head;
    } else {
      assert (head + s)[..|head + s|-1] == head + s[..|s|-1];
      TrimBehind(head, s[..|s|-1]);
    }
  }

  /** The client reads success exactly from an accepted request, and from a refusal its message, whole
      exactly when it fits and does not end in a line break. */
  lemma ResponseRoundTrip(r: Reply)
    ensures ParseResponse(ReplyLine(r)) == if r.Accepted? then Success else Failure(Shown(r.msg))
    ensures r.Refused? ==>
              (Shown(r.msg) == r.msg <==>
               |r.msg| <= 253 && (r.msg == [] || (r.msg[|r.msg|-1] != NEWLINE && r.msg[|r.msg|-1] != RETURN)))
  {
    hide Shown;
    match r
    case Accepted =>
      assert ReplyLine(r)[..1] == [DIGIT0];
      assert TrimRight([DIGIT0]) == [DIGIT0];
    case Refused(msg) => RefusalIsShown(msg);
  }

  /** Nothing but this digit and line breaks. */
  ghost predicate JustDigit(line: Bytes, digit: byte) {
    line != [] && line[0] == digit && forall i :: 0 < i < |line| ==> line[i] == NEWLINE || line[i] == RETURN
  }

  lemma TrimsToDigit(line: Bytes, digit: byte)
    requires IsDigit(digit)
    ensures TrimRight(line) == [digit] <==> JustDigit(line, digit)
  {
    if JustDigit(line, digit) {
      TrimsAll([line[0]], line[1..]);
      assert line == [line[0]] + line[1..];
    }
    TrimLeaves(line);
  }

  /** Of all the lines a handler could send only "0", with whatever line breaks behind it, is success, and
      only "1" an error without a message; an error with one is "1 " and the rest of the line; and any
      other line is unexpected. */
  lemma ResponseIs(line: Bytes)
    ensures ParseResponse(line) == Success <==> JustDigit(line, 48)
    ensures ParseResponse(line) == Unspecified <==> JustDigit(line, 49)
    ensures ParseResponse(line).Failure? <==> |line| >= 2 && line[0] == 49 && line[1] == 32
    ensures ParseResponse(line).Failure? ==> ParseResponse(line).msg == TrimRight(line[2..])
  {
    TrimsToDigit(line, 48);
    TrimsToDigit(line, 49);
    TrimLeaves(line);
    if |line| >= 2 && line[0] == 49 && line[1] == 32 {
      assert line == [line[0], line[1]] + line[2..];
      TrimBehind([line[0], line[1]], line[2..]);
      assert TrimRight(line)[2..] == TrimRight(line[2..]);
    }
  }

  lemma {:induction false} TrimsAll(head: Bytes, s: Bytes)
    requires head != [] && head[|head|-1] != NEWLINE && head[|head|-1] != RETURN
    requires forall i :: 0 <= i < |s| ==> s[i] == NEWLINE || s[i] == RETURN
    ensures TrimRight(head + s) == head
  {
    if s == [] {
      assert head + s == head;
    } else {
      assert (head + s)[..|head + s|-1] == head + s[..|s|-1];
      TrimsAll(head, s[..|s|-1]);
    }
  }

  lemma {:induction false} TrimLeaves(s: Bytes)
    ensures var t := TrimRight(s);
            t <= s && forall i :: |t| <= i < |s| ==> s[i] == NEWLINE || s[i] == RETURN
  {
    if s != [] && (s[|s|-1] == NEWLINE || s[|s|-1] == RETURN) {
      TrimLeaves(s[..|s|-1]);
    }
  }

  lemma RefusalIsShown(msg: Bytes)
    ensures ParseResponse(ReplyLine(Refused(msg))) == Failure(Shown(msg))
    ensures Shown(msg) == msg <==>
            |msg| <= 253 && (msg == [] || (msg[|msg|-1] != NEWLINE && msg[|msg|-1] != RETURN))
  {
    var head := [DIGIT0 + 1, SPACE];
    var line := ReplyLine(Refused(msg));
    var cut := if |msg| > 253 then msg[..253] else msg;
    TrimBehind(head, cut);
    if |msg| < 253 {
      assert line == head + msg + [NEWLINE];
      assert line[..|line|-1] == head + msg;
    } else {
      assert line == head + cut;
    }
    var s := TrimRight(line);
    assert s == head + TrimRight(cut);
    assert s[2..] == TrimRight(cut);
    TrimShorter(cut);
  }

  lemma {:induction false} TrimShorter(s: Bytes)
    ensures TrimRight(s) == s <==> s == [] || (s[|s|-1] != NEWLINE && s[|s|-1] != RETURN)
    ensures |TrimRight(s)| <= |s|
  {
    if s != [] {
      TrimShorter(s[..|s|-1]);
    }
  }
}
