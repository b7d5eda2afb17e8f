/** The tty handler's connection loop (pty.c): a 256-byte buffer that turns an arbitrarily fragmented
    byte stream into newline-terminated requests, one reply each. */
module TtyFramer {
  import opened TtyCodec
  import opened Basics

  const BUF_SIZE := 256
  /** The longest request, newline included. */
  const ROOM := BUF_SIZE - 1

  /** The window size as the kernel takes it: unsigned shorts. */
  datatype WinSize = WinSize(cols: int, rows: int)

  /** How the k-th request's ioctl and reply write turn out, and how the stream ends. */
  datatype Env = Env(ioctlOk: nat -> bool, writeOk: nat -> bool, readFails: bool)

  datatype Ending = ClientClosed | ReadFailed | WriteFailed | TooLong

  datatype Session = Session(lines: seq<Bytes>, replies: seq<Reply>, sizes: seq<WinSize>, ending: Ending)

  function Message(s: string): Bytes {
    seq(|s|, i requires 0 <= i < |s| => if (s[i] as int) < 256 then s[i] as int else 0)
  }

  /** handle_tty_request: the reply, and the window size it set. */
  function HandleRequest(line: Bytes, ioctlOk: bool): (Reply, seq<WinSize>) {
    var r := ParseRequest(line);
    if r.None? then (Refused(Message("invalid resize request")), [])
    else if r.value.op != OP_RESIZE then (Refused(Message("unknown operation")), [])
    else if !ioctlOk then (Refused(Message("error setting window size")), [])
    else (Accepted, [WinSize(r.value.width % 0x1_0000, r.value.height % 0x1_0000)])
  }

  /** Each byte of the text; the handler's messages are all plain ASCII. */
  lemma MessageSpells(s: string, i: nat)
    requires i < |s| && s[i] as int < 256
    ensures |Message(s)| == |s| && Message(s)[i] as char == s[i]
  {
  }

  /** A request is accepted exactly if it is three numbers of which the first asks for a resize, and the
      window size could be set; and only then was it set. Otherwise it is refused with what went wrong. */
  lemma WhatIsAnswered(line: Bytes, ioctlOk: bool)
    ensures var (reply, sizes) := HandleRequest(line, ioctlOk); var r := ParseRequest(line);
            && (reply == Accepted <==> ioctlOk && r.Some? && r.value.op == 1)
            && (sizes == if reply == Accepted then [WinSize(r.value.width % 0x1_0000, r.value.height % 0x1_0000)] else [])
            && (r.None? ==> reply == Refused(Message("invalid resize request")))
            && (r.Some? && r.value.op != 1 ==> reply == Refused(Message("unknown operation")))
            && (r.Some? && r.value.op == 1 && !ioctlOk ==> reply == Refused(Message("error setting window size")))
  {
    hide Message;
  }

  /** Position of the first newline; |s| when there is none. */
  function FindNewline(s: Bytes): (i: nat)
    ensures i <= |s|
    ensures NEWLINE !in s[..i]
    ensures i < |s| ==> s[i] == NEWLINE
  {
    if s == [] || s[0] == NEWLINE then 0
    else
      var i := 1 + FindNewline(s[1..]);
      assert s[..i] == [s[0]] + s[1..][..i-1];
      i
  }

  function Then(a: Session, b: Session): Session {
    Session(a.lines + b.lines, a.replies + b.replies, a.sizes + b.sizes, b.ending)
  }

  /** The k-th request of a connection. */
  function ServeLine(line: Bytes, k: nat, env: Env): Session {
    var (reply, sizes) := HandleRequest(line, env.ioctlOk(k));
    Session([line], if env.writeOk(k) then [reply] else [], sizes, WriteFailed)
  }

  /** The reference, on the whole stream at once: service the lines in order up to the first that does
      not fit the buffer with its newline, which is refused and ends the connection. */
  function Serve(input: Bytes, k: nat, env: Env): Session
    decreases |input|
  {
    var nl := FindNewline(input);
    if nl < |input| && nl < ROOM then
      var first := ServeLine(input[..nl], k, env);
      if env.writeOk(k) then Then(first, Serve(input[nl+1..], k + 1, env)) else first
    else if |input| >= ROOM then
      Session([], if env.writeOk(k) then [Refused(Message("request too long"))] else [], [], TooLong)
    else Session([], [], [], if env.readFails then ReadFailed else ClientClosed)
  }

  const NOTHING := Session([], [], [], ClientClosed)

  // ---------------------------------------------------------------- facts about the reference

  lemma {:induction false} FindIs(s: Bytes, i: nat)
    requires i < |s| && s[i] == NEWLINE && NEWLINE !in s[..i]
    ensures FindNewline(s) == i
  {
    if i > 0 {
      assert s[0] == s[..i][0];
      assert s[1..][..i-1] == s[..i][1..];
      FindIs(s[1..], i - 1);
    }
  }

  lemma {:induction false} NoEarlier(s: Bytes, m: nat)
    requires m <= |s| && NEWLINE !in s[..m]
    ensures FindNewline(s) >= m
  {
    if m > 0 {
      assert s[0] == s[..m][0];
      assert s[1..][..m-1] == s[..m][1..];
      NoEarlier(s[1..], m - 1);
    }
  }

  /** Where a line ends in a stream that begins with it. */
  lemma CutLine(l: Bytes, rest: Bytes)
    ensures var s := l + [NEWLINE] + rest;
            s[..|l|] == l && s[|l|] == NEWLINE && s[|l|+1..] == rest
  {
  }

  lemma ServeStep(rest: Bytes, nl: nat, k: nat, env: Env)
    requires nl < |rest| && nl < ROOM && rest[nl] == NEWLINE && NEWLINE !in rest[..nl]
    ensures Serve(rest, k, env) ==
            if env.writeOk(k) then Then(ServeLine(rest[..nl], k, env), Serve(rest[nl+1..], k + 1, env))
            else ServeLine(rest[..nl], k, env)
  {
    FindIs(rest, nl);
  }

  lemma ThenAssoc(a: Session, b: Session, c: Session)
    ensures Then(Then(a, b), c) == Then(a, Then(b, c))
    ensures Then(NOTHING, c) == c
  {
    assert a.lines + b.lines + c.lines == a.lines + (b.lines + c.lines);
    assert a.replies + b.replies + c.replies == a.replies + (b.replies + c.replies);
    assert a.sizes + b.sizes + c.sizes == a.sizes + (b.sizes + c.sizes);
  }

  /** A full buffer without a newline. */
  lemma ServeTooLong(rest: Bytes, k: nat, env: Env)
    requires |rest| >= ROOM && NEWLINE !in rest[..ROOM]
    ensures Serve(rest, k, env) ==
            Session([], if env.writeOk(k) then [Refused(Message("request too long"))] else [], [], TooLong)
  {
    NoEarlier(rest, ROOM);
  }

  lemma ServeEnd(rest: Bytes, k: nat, env: Env)
    requires |rest| < ROOM && NEWLINE !in rest
    ensures Serve(rest, k, env) == Session([], [], [], if env.readFails then ReadFailed else ClientClosed)
  {
  }

  /** One reply per line, plus the refusal of a line too long, unless a write fails. */
  lemma {:induction false} OneReplyEach(input: Bytes, k: nat, env: Env)
    ensures var s := Serve(input, k, env);
            && |s.replies| == |s.lines| + (if s.ending == TooLong && env.writeOk(k + |s.lines|) then 1 else 0)
                              - (if s.ending == WriteFailed then 1 else 0)
            && (s.ending == WriteFailed ==> s.lines != [])
            && (forall i :: 0 <= i < |s.lines| ==> |s.lines[i]| < ROOM && NEWLINE !in s.lines[i])
    decreases |input|
  {
    hide HandleRequest, Message, FindNewline;
    var nl := FindNewline(input);
    if nl < |input| && nl < ROOM && env.writeOk(k) {
      OneReplyEach(input[nl+1..], k + 1, env);
    }
  }

  /** A connection goes on only after a line that was read whole and answered. */
  lemma ServeStops(input: Bytes, k: nat, env: Env)
    requires var nl := FindNewline(input); !(nl < |input| && nl < ROOM && env.writeOk(k))
    ensures Serve(input, k, env).lines == [] || Serve(input, k, env).replies == []
  {
    hide HandleRequest, Message, FindNewline;
  }

  lemma ServeLineIs(line: Bytes, k: nat, env: Env)
    ensures ServeLine(line, k, env).lines == [line]
    ensures ServeLine(line, k, env).ending == WriteFailed
    ensures ServeLine(line, k, env).replies ==
            if env.writeOk(k) then [HandleRequest(line, env.ioctlOk(k)).0] else []
  {
    hide HandleRequest;
  }

  /** And it is the reply to that line. */
  lemma {:induction false} ReplyMatches(input: Bytes, k: nat, env: Env, i: nat)
    requires i < |Serve(input, k, env).lines| && i < |Serve(input, k, env).replies|
    ensures Serve(input, k, env).replies[i] == HandleRequest(Serve(input, k, env).lines[i], env.ioctlOk(k + i)).0
    decreases |input|
  {
    hide HandleRequest, Message, FindNewline, Serve, ServeLine;
    var nl := FindNewline(input);
    if nl < |input| && nl < ROOM && env.writeOk(k) {
      ServeStep(input, nl, k, env);
      ServeLineIs(input[..nl], k, env);
      if i > 0 {
        ReplyMatches(input[nl+1..], k + 1, env, i - 1);
      }
    } else {
      ServeStops(input, k, env);
    }
  }

  /** The first reply that cannot be written is the last of all. */
  lemma {:induction false} StopsAtFailedWrite(input: Bytes, k: nat, env: Env, i: nat)
    requires i < |Serve(input, k, env).lines|
    ensures env.writeOk(k + i) <==> i < |Serve(input, k, env).replies|
    decreases |input|
  {
    hide HandleRequest, Message, FindNewline, Serve, ServeLine;
    var nl := FindNewline(input);
    if nl < |input| && nl < ROOM {
      ServeStep(input, nl, k, env);
      ServeLineIs(input[..nl], k, env);
      if env.writeOk(k) && i > 0 {
        StopsAtFailedWrite(input[nl+1..], k + 1, env, i - 1);
      }
    } else {
      ServeNothing(input, k, env);
    }
  }

  /** A line too long is the last, and is refused as such. */
  lemma {:induction false} TooLongIsRefused(input: Bytes, k: nat, env: Env)
    requires Serve(input, k, env).ending == TooLong
    ensures var s := Serve(input, k, env);
            env.writeOk(k + |s.lines|) ==> s.replies != [] && s.replies[|s.replies|-1] == Refused(Message("request too long"))
    decreases |input|
  {
    hide HandleRequest, Message, FindNewline, Serve, ServeLine;
    var nl := FindNewline(input);
    if nl < |input| && nl < ROOM {
      ServeStep(input, nl, k, env);
      ServeLineIs(input[..nl], k, env);
      if env.writeOk(k) {
        TooLongIsRefused(input[nl+1..], k + 1, env);
      }
    } else {
      ServeNothing(input, k, env);
    }
  }

  lemma SizesOfCons(line: Bytes, rest: seq<Bytes>, k: nat, env: Env)
    ensures SizesOf([line] + rest, k, env) == SizesOf([line], k, env) + SizesOf(rest, k + 1, env)
  {
    hide ParseRequest;
    assert ([line] + rest)[1..] == rest;
    var one: seq<Bytes> := [line];
    assert one[1..] == [];
  }

  /** What a run of lines sets: the window sizes of those that are accepted, in order. */
  function SizesOf(lines: seq<Bytes>, k: nat, env: Env): seq<WinSize> {
    if lines == [] then []
    else
      var r := ParseRequest(lines[0]);
      (if r.Some? && r.value.op == OP_RESIZE && env.ioctlOk(k)
       then [WinSize(r.value.width % 0x1_0000, r.value.height % 0x1_0000)] else [])
      + SizesOf(lines[1..], k + 1, env)
  }

  /** Every line that asks for it sets the window size, also one whose reply cannot be written any more. */
  lemma {:induction false} SizesAreSet(input: Bytes, k: nat, env: Env)
    ensures Serve(input, k, env).sizes == SizesOf(Serve(input, k, env).lines, k, env)
    decreases |input|
  {
    hide ParseRequest, FindNewline, ServeLine, Serve, HandleRequest, Message;
    var nl := FindNewline(input);
    if nl < |input| && nl < ROOM {
      var line, rest := input[..nl], Serve(input[nl+1..], k + 1, env);
      ServeStep(input, nl, k, env);
      LineSets(line, k, env);
      if env.writeOk(k) {
        SizesAreSet(input[nl+1..], k + 1, env);
        SizesOfCons(line, rest.lines, k, env);
      } else {
        var one: seq<Bytes> := [line];
        assert one[1..] == [];
      }
    } else {
      ServeNothing(input, k, env);
    }
  }

  lemma LineSets(line: Bytes, k: nat, env: Env)
    ensures var s := ServeLine(line, k, env); s.lines == [line] && s.sizes == SizesOf([line], k, env)
  {
    hide ParseRequest, Message;
    var one: seq<Bytes> := [line];
    assert one[1..] == [];
  }

  lemma ServeNothing(input: Bytes, k: nat, env: Env)
    requires var nl := FindNewline(input); !(nl < |input| && nl < ROOM)
    ensures Serve(input, k, env).lines == [] && Serve(input, k, env).sizes == []
    ensures Serve(input, k, env).ending == TooLong ==>
              Serve(input, k, env).replies == if env.writeOk(k) then [Refused(Message("request too long"))] else []
  {
    hide FindNewline;
  }

  function Joined(lines: seq<Bytes>): Bytes {
    if lines == [] then [] else lines[0] + [NEWLINE] + Joined(lines[1..])
  }

  /** The lines serviced are exactly the newline-separated lines of the stream, in order, up to the first
      one that is too long. */
  lemma {:induction false} LinesInOrder(lines: seq<Bytes>, tail: Bytes, k: nat, env: Env)
    requires forall i :: 0 <= i < |lines| ==> |lines[i]| < 255 && NEWLINE !in lines[i]
    requires forall j :: env.writeOk(j)
    requires NEWLINE !in tail[..if |tail| < 255 then |tail| else 255]
    ensures var s := Serve(Joined(lines) + tail, k, env);
            && s.lines == lines
            && s.ending == if |tail| >= 255 then TooLong else if env.readFails then ReadFailed else ClientClosed
    decreases |lines|
  {
    hide Serve, FindNewline, ServeLine;
    if lines == [] {
      assert Joined(lines) + tail == tail;
      if |tail| < ROOM {
        assert tail[..|tail|] == tail;
        ServeEnd(tail, k, env);
      } else {
        ServeTooLong(tail, k, env);
      }
    } else {
      var l, rest := lines[0], Joined(lines[1..]) + tail;
      assert Joined(lines) + tail == l + [NEWLINE] + rest;
      CutLine(l, rest);
      ServeStep(l + [NEWLINE] + rest, |l|, k, env);
      ServeLineIs(l, k, env);
      LinesInOrder(lines[1..], tail, k + 1, env);
      assert [l] + lines[1..] == lines;
    }
  }

  function Stream(requests: seq<(int64, int64)>): Bytes {
    if requests == [] then [] else AppendResizeRequest([], requests[0].0, requests[0].1) + Stream(requests[1..])
  }

  lemma ResizeServed(w: int64, h: int64, k: nat, env: Env)
    requires env.ioctlOk(k) && env.writeOk(k)
    ensures ServeLine(RequestLine(w, h), k, env)
            == Session([RequestLine(w, h)], [Accepted], [WinSize(w % 0x1_0000, h % 0x1_0000)], WriteFailed)
  {
    hide ParseRequest, RequestLine;
    RequestRoundTrip(w, h);
  }

  function Sizes(requests: seq<(int64, int64)>): seq<WinSize> {
    seq(|requests|, i requires 0 <= i < |requests| =>
      WinSize(requests[i].0 % 0x1_0000, requests[i].1 % 0x1_0000))
  }

  /** End to end: every resize a client writes is accepted and applied, in order, when nothing underneath fails. */
  lemma {:induction false} ResizesArrive(requests: seq<(int64, int64)>, k: nat, env: Env)
    requires forall j :: env.writeOk(j) && env.ioctlOk(j)
    ensures var s := Serve(Stream(requests), k, env);
            && s.replies == seq(|requests|, i => Accepted)
            && s.sizes == Sizes(requests)
            && s.ending == if env.readFails then ReadFailed else ClientClosed
    decreases |requests|
  {
    hide RequestLine, ServeLine, Serve;
    if requests == [] {
      ServeEnd([], k, env);
    } else {
      var (w, h) := requests[0];
      var line, rest := RequestLine(w, h), Stream(requests[1..]);
      var input := Stream(requests);
      assert input == line + [NEWLINE] + rest by {
        assert [] + line == line;
      }
      LineIsPlain(w, h);
      AnyRequestShort(w, h);
      ResizeServed(w, h, k, env);
      CutLine(line, rest);
      ServeStep(input, |line|, k, env);
      ResizesArrive(requests[1..], k + 1, env);
      assert Sizes(requests) == [WinSize(w % 0x1_0000, h % 0x1_0000)] + Sizes(requests[1..]);
    }
  }

  /** The client learns the truth: its request is reported successful iff the window size was set, by a
      reply that is one line whatever the request. */
  lemma ClientLearnsOutcome(line: Bytes, ioctlOk: bool)
    ensures var (reply, sizes) := HandleRequest(line, ioctlOk);
            var r, heard := ParseRequest(line), ParseResponse(ReplyLine(reply));
            && (heard == Success <==> sizes != [])
            && (heard == Success <==> ioctlOk && r.Some? && r.value.op == OP_RESIZE)
            && (heard != Success ==>
                  heard == Failure(Message(if r.None? then "invalid resize request"
                                           else if r.value.op != OP_RESIZE then "unknown operation"
                                           else "error setting window size")))
            && FindNewline(ReplyLine(reply)) == |ReplyLine(reply)| - 1
  {
    hide ParseRequest, ParseResponse, FindNewline, Shown;
    var (reply, _) := HandleRequest(line, ioctlOk);
    if reply.Refused? {
      RefusalsArePlain(reply.msg);
    }
    ResponseRoundTrip(reply);
    var text := ReplyLine(reply);
    FindIs(text, |text| - 1);
  }

  lemma RefusalsArePlain(m: Bytes)
    requires m == Message("invalid resize request") || m == Message("unknown operation")
             || m == Message("error setting window size")
    ensures 0 < |m| <= 252 && NEWLINE !in m && RETURN !in m
  {
    PlainText("invalid resize request");
    PlainText("unknown operation");
    PlainText("error setting window size");
  }

  lemma PlainText(s: string)
    requires forall c :: c in s ==> ' ' <= c <= 'z'
    ensures NEWLINE !in Message(s) && RETURN !in Message(s)
  {
    forall i | 0 <= i < |s| ensures Message(s)[i] >= 32 {
      assert s[i] in s;
    }
  }

  // ---------------------------------------------------------------- the loop

  /** memchr over buf[from..to]: the first newline, or `to`. */
  method Memchr(buf: array<byte>, from: nat, to: nat) returns (nl: nat)
    requires from <= to <= buf.Length
    ensures from <= nl <= to && NEWLINE !in buf[from..nl] && (nl < to ==> buf[nl] == NEWLINE)
  {
    nl := from;
    while nl < to && buf[nl] != NEWLINE
      invariant from <= nl <= to && NEWLINE !in buf[from..nl]
    {
      nl := nl + 1;
    }
  }

  /** read: n more bytes of the stream into the buffer behind what it holds. */
  method ReadInto(buf: array<byte>, len: nat, input: Bytes, pos: nat, n: nat)
    requires len + n <= buf.Length && pos + n <= |input|
    modifies buf
    ensures buf[..len+n] == old(buf[..len]) + input[pos..pos+n]
    ensures buf[..len+n] + input[pos+n..] == old(buf[..len]) + input[pos..]
  {
    var i := 0;
    while i < n
      invariant 0 <= i <= n
      invariant buf[..len] == old(buf[..len]) && buf[len..len+i] == input[pos..pos+i]
    {
      buf[len+i] := input[pos+i];
      assert buf[len..len+i+1] == buf[len..len+i] + [input[pos+i]];
      i := i + 1;
    }
    assert buf[..len+n] == buf[..len] + buf[len..len+n];
    assert input[pos..pos+n] + input[pos+n..] == input[pos..];
  }

  /** memmove of the partial request to the front. */
  method MoveDown(buf: array<byte>, start: nat, end: nat)
    requires start <= end <= buf.Length
    modifies buf
    ensures buf[..end-start] == old(buf[start..end])
  {
    var i := 0;
    while i < end - start
      invariant 0 <= i <= end - start
      invariant buf[..i] == old(buf[start..start+i])
      invariant forall j :: start + i <= j < end ==> buf[j] == old(buf[j])
    {
      buf[i] := buf[start+i];
      assert buf[..i+1] == buf[..i] + [buf[i]];
      i := i + 1;
    }
  }

  /** Handle one request and write its reply. */
  method ServeOne(line: Bytes, k: nat, env: Env) returns (s: Session)
    ensures s == ServeLine(line, k, env)
  {
    var (reply, sizes) := HandleRequest(line, env.ioctlOk(k));
    if env.writeOk(k) {
      s := Session([line], [reply], sizes, WriteFailed);
    } else {
      s := Session([line], [], sizes, WriteFailed);
    }
  }

  /** Service every complete request in the buffer; `rest` is the stream behind it. What remains from
      start holds no newline. */
  method ServeBuffered(buf: array<byte>, len: nat, ghost rest: Bytes, k0: nat, env: Env, s0: Session)
    returns (start: nat, k: nat, s: Session, alive: bool)
    requires buf.Length == BUF_SIZE && len <= ROOM
    modifies buf
    ensures start <= len && (alive ==> NEWLINE !in buf[start..len])
    ensures Then(s0, Serve(old(buf[..len]) + rest, k0, env)) ==
            if alive then Then(s, Serve(buf[start..len] + rest, k, env)) else s
  {
    hide Serve, ServeLine, Then, FindNewline;
    start, k, s, alive := 0, k0, s0, true;
    assert buf[0..len] == buf[..len];
    var nl := Memchr(buf, start, len);
    while nl < len
      invariant start <= nl <= len && NEWLINE !in buf[start..nl] && (nl < len ==> buf[nl] == NEWLINE)
      invariant buf[start..len] == old(buf[start..len])
      invariant Then(s, Serve(buf[start..len] + rest, k, env)) == Then(s0, Serve(old(buf[..len]) + rest, k0, env))
      decreases len - start
    {
      ghost var here := buf[start..len] + rest;
      var line := buf[start..nl];
      assert here == line + [NEWLINE] + (buf[nl+1..len] + rest);
      CutLine(line, buf[nl+1..len] + rest);
      ServeStep(here, nl - start, k, env);
      buf[nl] := NUL;
      ThenAssoc(s, ServeLine(line, k, env), Serve(buf[nl+1..len] + rest, k + 1, env));
      var served := ServeOne(line, k, env);
      s := Then(s, served);
      if !env.writeOk(k) {
        alive := false;
        return;
      }
      start, k := nl + 1, k + 1;
      nl := Memchr(buf, start, len);
    }
  }

  /** What one read delivers: at least a byte, at most the room asked for and what there is. */
  function Granted(want: nat, room: nat, available: nat): (n: nat)
    requires room > 0 && available > 0
    ensures 0 < n <= room && n <= available
  {
    var n := if want > room then room else want;
    var m := if n > available then available else n;
    if m == 0 then 1 else m
  }

  /** handle_tty_op_conn. However the stream is cut into reads (the r-th asks for want(r) bytes and gets
      at least one while there are any), the outcome is the reference on the whole stream. The buffer
      never overflows, and no read asks for zero bytes, which would look like the end of the stream. */
  method HandleConnection(input: Bytes, want: nat -> nat, env: Env) returns (s: Session)
    ensures s == Serve(input, 0, env)
  {
    hide Serve, ServeLine, Then, FindNewline, Message, Granted;
    var buf := new byte[BUF_SIZE];
    var len: nat, pos: nat, k: nat, asked: nat := 0, 0, 0, 0;
    s := NOTHING;
    ThenAssoc(NOTHING, NOTHING, Serve(input, 0, env));
    assert buf[..0] + input == input;
    while true
      invariant pos <= |input| && len < ROOM && NEWLINE !in buf[..len]
      invariant Then(s, Serve(buf[..len] + input[pos..], k, env)) == Serve(input, 0, env)
      decreases |input| - pos
    {
      var room := ROOM - len;
      assert 0 < room && len + room < BUF_SIZE;
      if pos == |input| {
        ServeEnd(buf[..len] + input[pos..], k, env);
        s := Then(s, Session([], [], [], if env.readFails then ReadFailed else ClientClosed));
        return;
      }
      var n := Granted(want(asked), room, |input| - pos);
      ReadInto(buf, len, input, pos, n);
      pos, len, asked := pos + n, len + n, asked + 1;

      var start, alive;
      start, k, s, alive := ServeBuffered(buf, len, input[pos..], k, env, s);
      if !alive {
        return;
      }
      MoveDown(buf, start, len);
      len := len - start;
      if len == ROOM {
        assert (buf[..len] + input[pos..])[..ROOM] == buf[..len];
        ServeTooLong(buf[..len] + input[pos..], k, env);
        s := Then(s, Session([], if env.writeOk(k) then [Refused(Message("request too long"))] else [], [], TooLong));
        return;
      }
    }
  }
}
