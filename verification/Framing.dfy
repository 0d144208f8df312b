/** Length-prefixed framing over a byte stream: `[4-byte big-endian length][header][payload]`. */
module Framing {
  import opened Text
  import opened HeaderJson
  import opened HeaderRoundTrip
  import opened Protocol

  datatype Message = Message(header: Header, payload: string)

  /** What one receive makes of the bytes that are waiting, and what it leaves of them. */
  datatype Received = Received(ok: bool, header: Header, payload: string, err: string, rest: string)

  // ================= the format =================

  function LengthPrefix(n: nat): (b: string)
    requires n < 0x1_0000_0000
    ensures |b| == 4
  {
    [(n / 0x100_0000) as char, (n / 0x1_0000 % 0x100) as char, (n / 0x100 % 0x100) as char, (n % 0x100) as char]
  }

  function PrefixValue(b: string): nat
    requires |b| == 4
  {
    ((b[0] as nat * 0x100 + b[1] as nat) * 0x100 + b[2] as nat) * 0x100 + b[3] as nat
  }

  lemma {:induction false} PrefixRoundTrip(n: nat)
    requires n < 0x1_0000_0000
    ensures PrefixValue(LengthPrefix(n)) == n
  {
    assert n / 0x1_0000 == n / 0x100 / 0x100 && n / 0x100_0000 == n / 0x1_0000 / 0x100;
  }

  /** A message the native side can send and will accept: its header survives the text format, fits
      the bounds, and announces the payload that follows. */
  ghost predicate Sendable(m: Message) {
    && ComesBack(m.header)
    && |HeaderText(m.header)| <= MAX_HEADER_BYTES
    && ValidateHeader(m.header).None?
    && m.header.payloadLength == |m.payload|
  }

  function Frame(m: Message): string {
    LengthPrefix(|HeaderText(m.header)| % 0x1_0000_0000) + (HeaderText(m.header) + m.payload)
  }

  function Frames(ms: seq<Message>): string {
    if ms == [] then "" else Frame(ms[0]) + Frames(ms[1..])
  }

  /** The outcome of one receive on the waiting bytes. */
  function Decode(data: string, h0: Header): (r: Received)
    ensures |r.rest| <= |data| && (r.ok ==> |r.rest| < |data|)
  {
    if |data| < 4 then Received(false, h0, "", "read header_len failed", "")
    else
      var hlen, after := PrefixValue(data[..4]), data[4..];
      if hlen == 0 || hlen > MAX_HEADER_BYTES then Received(false, h0, "", "header length out of bounds", after)
      else if |after| < hlen then Received(false, h0, "", "read header failed", "")
      else DecodeBody(ParseHeader(after[..hlen], h0), after[hlen..])
  }

  function DecodeBody(p: Parsed, after: string): (r: Received)
    ensures |r.rest| <= |after|
  {
    if !p.ok then Received(false, p.header, "", p.err, after)
    else
      match ValidateHeader(p.header)
      case Some(err) => Received(false, p.header, "", err, after)
      case None =>
        var n := p.header.payloadLength;
        if |after| < n then Received(false, p.header, "", "read payload failed", "")
        else Received(true, p.header, after[..n], "", after[n..])
  }

  /** The length that four bytes announce, the most significant byte first. */
  function Announced(data: string): nat
    requires |data| >= 4
  {
    data[0] as nat * 0x100_0000 + data[1] as nat * 0x1_0000 + data[2] as nat * 0x100 + data[3] as nat
  }

  lemma {:induction false} PrefixSays(n: nat)
    requires n < 0x1_0000_0000
    ensures Announced(LengthPrefix(n)) == n && forall k | 0 <= k < 4 :: LengthPrefix(n)[k] as int < 0x100
  {
    hide LengthPrefix;
    PrefixRoundTrip(n);
    PrefixIsBytes(n);
    assert forall b: string | |b| == 4 :: PrefixValue(b) == Announced(b);
  }

  lemma {:induction false} PrefixIsBytes(n: nat)
    requires n < 0x1_0000_0000
    ensures forall k | 0 <= k < 4 :: LengthPrefix(n)[k] as int < 0x100
  {
  }

  /** A frame is the length of the header in four bytes, the most significant first, then header and payload. */
  lemma {:induction false} FrameSays(m: Message)
    requires |HeaderText(m.header)| < 0x1_0000_0000
    ensures var f, n := Frame(m), |HeaderText(m.header)|;
            && |f| == 4 + n + |m.payload| && f[4..4 + n] == HeaderText(m.header) && f[4 + n..] == m.payload
            && Announced(f) == n && forall k | 0 <= k < 4 :: f[k] as int < 0x100
  {
    hide HeaderText, LengthPrefix;
    PrefixSays(|HeaderText(m.header)|);
  }

  /** A message is received exactly if a header of an announced 1 byte to 16 KiB is there, can be read and is valid,
      and its payload is there as well; otherwise the first of these that fails is the error. */
  lemma {:induction false} DecodeSays(data: string, h0: Header)
    ensures var r := Decode(data, h0);
            if |data| < 4 then r == Received(false, h0, "", "read header_len failed", "")
            else
              var n := Announced(data);
              if n == 0 || n > 16 * 1024 then r == Received(false, h0, "", "header length out of bounds", data[4..])
              else if |data| < 4 + n then r == Received(false, h0, "", "read header failed", "")
              else
                var p := ParseHeader(data[4..4 + n], h0);
                && r.header == p.header
                && (r.ok <==> p.ok && ValidateHeader(p.header).None? && |data| >= 4 + n + p.header.payloadLength)
                && (r.ok ==>
                      r.payload + r.rest == data[4 + n..] && |r.payload| == p.header.payloadLength && r.err == "")
                && (!r.ok ==> r.payload == "")
                && (!p.ok ==> r.err == p.err && r.rest == data[4 + n..])
                && (p.ok && ValidateHeader(p.header).Some? ==>
                      r.err == ValidateHeader(p.header).value && r.rest == data[4 + n..])
                && (p.ok && ValidateHeader(p.header).None? && !r.ok ==>
                      r.err == "read payload failed" && r.rest == "")
  {
    hide ParseHeader, ValidateHeader;
    if |data| >= 4 {
      var n := Announced(data);
      assert data[..4][0] == data[0] && data[..4][1] == data[1] && data[..4][2] == data[2] && data[..4][3] == data[3];
      assert PrefixValue(data[..4]) == n;
      if n <= |data| - 4 {
        assert data[4..][..n] == data[4..4 + n] && data[4..][n..] == data[4 + n..];
      }
    }
  }

  /** Repeated receives until the stream is empty; None as soon as one fails. */
  function DecodeAll(data: string): Option<seq<Message>>
    decreases |data|
  {
    if data == "" then Some([])
    else
      var r := Decode(data, BLANK);
      if !r.ok then None
      else
        match DecodeAll(r.rest)
        case None => None
        case Some(ms) => Some([Message(r.header, r.payload)] + ms)
  }

  /** The first message of a stream is received as sent, whatever follows it. */
  lemma {:induction false} DecodeFrame(m: Message, rest: string)
    requires Sendable(m)
    ensures Decode(Frame(m) + rest, BLANK) == Received(true, m.header, m.payload, "", rest)
  {
    hide HeaderText, ParseHeader, ComesBack, ValidateHeader, LengthPrefix, PrefixValue, DecodeBody;
    var js := HeaderText(m.header);
    var data, after := Frame(m) + rest, js + (m.payload + rest);
    PrefixRoundTrip(|js|);
    HeaderTextNonEmpty(m.header);
    assert data == LengthPrefix(|js|) + after;
    assert data[..4] == LengthPrefix(|js|) && data[4..] == after;
    assert after[..|js|] == js && after[|js|..] == m.payload + rest;
    HeaderComesBack(m.header);
    PayloadIsSmall(m.header);
    DecodePayload(m, rest);
  }

  lemma {:induction false} HeaderComesBack(h: Header)
    requires ComesBack(h) && |HeaderText(h)| <= MAX_HEADER_BYTES
    ensures ParseHeader(HeaderText(h), BLANK) == Parsed(true, Arriving(h), "")
    ensures Arriving(h) == h <==> h.payloadLength < INT64_LIMIT
  {
    hide HeaderText, ParseHeader, Survives;
    ReaderInvertsPrinter(h, BLANK);
  }

  lemma {:induction false} PayloadIsSmall(h: Header)
    requires ValidateHeader(h).None?
    ensures h.payloadLength < INT64_LIMIT
  {
  }

  lemma {:induction false} HeaderTextNonEmpty(h: Header)
    ensures HeaderText(h) != ""
  {
    hide MemberThen;
    assert FieldOf(h, KEYS[0]).Some?;
  }

  lemma {:induction false} DecodePayload(m: Message, rest: string)
    requires Sendable(m)
    ensures DecodeBody(Parsed(true, m.header, ""), m.payload + rest) == Received(true, m.header, m.payload, "", rest)
  {
    hide HeaderText, ComesBack, ValidateHeader;
    assert (m.payload + rest)[..|m.payload|] == m.payload;
    assert (m.payload + rest)[|m.payload|..] == rest;
  }

  /** The bytes of any sequence of messages decode to that sequence. */
  lemma {:induction false} FramesRoundTrip(ms: seq<Message>)
    requires forall i | 0 <= i < |ms| :: Sendable(ms[i])
    ensures DecodeAll(Frames(ms)) == Some(ms)
  {
    hide Frame, Decode, Sendable;
    if ms != [] {
      FramesRoundTrip(ms[1..]);
      DecodeFrame(ms[0], Frames(ms[1..]));
      FrameNonEmpty(ms[0]);
      assert ms == [ms[0]] + ms[1..];
    }
  }

  lemma {:induction false} FrameNonEmpty(m: Message)
    requires Sendable(m)
    ensures |Frame(m)| >= 4
  {
    hide HeaderText, ComesBack, ValidateHeader;
  }

  // ================= the stream =================

  /** How many more bytes the other side takes before it is gone; none if it stays. */
  type Room = Option<nat>

  predicate Takes(room: Room, n: nat) {
    room.Some? ==> n <= room.value
  }

  function Less(room: Room, n: nat): Room
    requires Takes(room, n)
  {
    if room.Some? then Some(room.value - n) else None
  }

  /** One direction of the socket pair.  A call may be interrupted, and moves any number of bytes from
      one up to what was asked for. */
  class Pipe {
    var data: string
    // how often a call can still return with EINTR
    var interrupts: nat
    var room: Room

    method Read(n: nat) returns (r: int, chunk: string)
      requires n > 0
      modifies this
      ensures -1 <= r <= n
      ensures r == -1 ==> data == old(data) && interrupts < old(interrupts)
      ensures r >= 0 ==> interrupts == old(interrupts) && |chunk| == r && chunk + data == old(data)
      ensures r == 0 <==> r != -1 && old(data) == ""
      ensures room == old(room)
    {
      var interrupted: bool := *;
      if interrupted && interrupts > 0 {
        interrupts := interrupts - 1;
        return -1, "";
      }
      if data == "" { return 0, ""; }
      r :| 1 <= r <= n && r <= |data|;
      chunk := data[..r];
      data := data[r..];
      assert chunk + data == old(data);
    }

    /** Zero when the other side is gone. */
    method Write(p: string) returns (w: int)
      requires p != ""
      modifies this
      ensures -1 <= w <= |p|
      ensures w == -1 ==> data == old(data) && room == old(room) && interrupts < old(interrupts)
      ensures w >= 0 ==> Takes(old(room), w) && room == Less(old(room), w)
      ensures w >= 0 ==> interrupts == old(interrupts) && data == old(data) + p[..w]
      ensures w == 0 <==> w != -1 && old(room) == Some(0)
    {
      var interrupted: bool := *;
      if interrupted && interrupts > 0 {
        interrupts := interrupts - 1;
        return -1;
      }
      if room == Some(0) {
        assert data + p[..0] == data;
        return 0;
      }
      w :| 1 <= w <= |p| && Takes(room, w) by {
        assert Takes(room, 1) && 1 <= |p|;
      }
      room, data := Less(room, w), data + p[..w];
    }

    constructor (data: string, interrupts: nat, room: Room)
      ensures this.data == data && this.interrupts == interrupts && this.room == room
    {
      this.data, this.interrupts, this.room := data, interrupts, room;
    }
  }

  method ReadN(pipe: Pipe, n: nat) returns (ok: bool, buf: string)
    modifies pipe
    ensures ok <==> |old(pipe.data)| >= n
    ensures ok ==> buf == old(pipe.data)[..n] && pipe.data == old(pipe.data)[n..]
    ensures !ok ==> pipe.data == ""
  {
    buf := "";
    while |buf| < n
      invariant |buf| <= n
      invariant buf + pipe.data == old(pipe.data)
      decreases n - |buf|, pipe.interrupts
    {
      var r, chunk := pipe.Read(n - |buf|);
      if r < 0 { continue; }
      if r == 0 { return false, ""; }
      assert (buf + chunk) + pipe.data == old(pipe.data);
      buf := buf + chunk;
    }
    return true, buf;
  }

  /** Succeeds exactly if the other side takes all the bytes; otherwise it has taken as many as it would. */
  method WriteN(pipe: Pipe, buf: string) returns (ok: bool)
    modifies pipe
    ensures ok <==> Takes(old(pipe.room), |buf|)
    ensures ok ==> pipe.data == old(pipe.data) + buf && pipe.room == Less(old(pipe.room), |buf|)
    ensures !ok ==> old(pipe.room).value < |buf| && pipe.data == old(pipe.data) + buf[..old(pipe.room).value]
  {
    var sent := 0;
    while sent < |buf|
      invariant 0 <= sent <= |buf|
      invariant pipe.data == old(pipe.data) + buf[..sent]
      invariant Takes(old(pipe.room), sent) && pipe.room == Less(old(pipe.room), sent)
      decreases |buf| - sent, pipe.interrupts
    {
      var w := pipe.Write(buf[sent..]);
      if w < 0 { continue; }
      if w == 0 {
        assert pipe.data == old(pipe.data) + buf[..sent];
        return false;
      }
      assert buf[..sent] + buf[sent..][..w] == buf[..sent + w];
      sent := sent + w;
    }
    assert buf[..sent] == buf;
    return true;
  }

  /** The bounds a message is held to before anything is written. */
  predicate Fits(m: Message) {
    && |HeaderText(m.header)| <= MAX_HEADER_BYTES
    && (|m.payload| <= MAX_TENSOR_BYTES || m.header.messageType == RESULT)
  }

  method SendMessage(pipe: Pipe, m: Message) returns (ok: bool, err: string)
    modifies pipe
    ensures ok <==> Fits(m) && Takes(old(pipe.room), |Frame(m)|)
    ensures ok ==> pipe.data == old(pipe.data) + Frame(m) && pipe.room == Less(old(pipe.room), |Frame(m)|)
    ensures !Fits(m) ==> pipe.data == old(pipe.data)
    ensures ok ==> |HeaderText(m.header)| <= 16 * 1024
    ensures ok ==> |m.payload| <= 16 * 1024 * 1024 || m.header.messageType == RESULT
    ensures |HeaderText(m.header)| <= 16 * 1024 && |m.payload| <= 16 * 1024 * 1024 && old(pipe.room).None? ==> ok
    ensures m.header.messageType == RESULT && |HeaderText(m.header)| <= 16 * 1024 && old(pipe.room).None? ==> ok
  {
    hide HeaderText, LengthPrefix;
    var js := HeaderToJson(m.header);
    if |js| > MAX_HEADER_BYTES { return false, "header too large"; }
    if |m.payload| > MAX_TENSOR_BYTES && m.header.messageType != RESULT { return false, "payload too large"; }
    assert |Frame(m)| == 4 + |js| + |m.payload|;
    ok := WriteN(pipe, LengthPrefix(|js|));
    if !ok { return false, "write header_len failed"; }
    ok := WriteN(pipe, js);
    if !ok { return false, "write header failed"; }
    if m.payload != "" {
      ok := WriteN(pipe, m.payload);
      if !ok { return false, "write payload failed"; }
    }
    assert pipe.data == old(pipe.data) + Frame(m);
    return true, "";
  }

  method RecvMessage(pipe: Pipe, h0: Header) returns (ok: bool, hdr: Header, payload: string, err: string)
    modifies pipe
    ensures Received(ok, hdr, payload, err, pipe.data) == Decode(old(pipe.data), h0)
    ensures ok ==> ValidateHeader(hdr).None?
  {
    hide PrefixValue, ParseHeader, ValidateHeader;
    hdr, payload := h0, "";
    var prefix;
    ok, prefix := ReadN(pipe, 4);
    if !ok { return false, hdr, "", "read header_len failed"; }
    var hlen := PrefixValue(prefix);
    if hlen == 0 || hlen > MAX_HEADER_BYTES { return false, hdr, "", "header length out of bounds"; }
    var js;
    ok, js := ReadN(pipe, hlen);
    if !ok { return false, hdr, "", "read header failed"; }
    ok, hdr, err := JsonToHeader(js, hdr);
    if !ok { return false, hdr, "", err; }
    var refusal := ValidateHeader(hdr);
    if refusal.Some? { return false, hdr, "", refusal.value; }
    if hdr.payloadLength != 0 {
      ok, payload := ReadN(pipe, hdr.payloadLength);
      if !ok { return false, hdr, "", "read payload failed"; }
    }
    assert hdr.payloadLength == 0 ==> pipe.data[0..] == pipe.data;
    return true, hdr, payload, "";
  }

  method SendAll(pipe: Pipe, ms: seq<Message>) returns (ok: bool)
    requires pipe.data == ""
    modifies pipe
    ensures ok <==> (forall i | 0 <= i < |ms| :: Fits(ms[i])) && Takes(old(pipe.room), |Frames(ms)|)
    ensures ok ==> pipe.data == Frames(ms)
  {
    hide Frame, HeaderText;
    for i := 0 to |ms|
      invariant pipe.data == Frames(ms[..i]) && forall k | 0 <= k < i :: Fits(ms[k])
      invariant Takes(old(pipe.room), |Frames(ms[..i])|) && pipe.room == Less(old(pipe.room), |Frames(ms[..i])|)
    {
      FramesSnoc(ms, i);
      FramesPrefix(ms, i + 1);
      var sent, _ := SendMessage(pipe, ms[i]);
      if !sent { return false; }
    }
    assert ms[..|ms|] == ms;
    return true;
  }

  lemma {:induction false} FramesPrefix(ms: seq<Message>, i: nat)
    requires i <= |ms|
    ensures |Frames(ms[..i])| <= |Frames(ms)|
    decreases |ms| - i
  {
    hide Frame;
    if i < |ms| {
      FramesSnoc(ms, i);
      FramesPrefix(ms, i + 1);
    } else {
      assert ms[..i] == ms;
    }
  }

  method ReceiveAll(pipe: Pipe, ghost ms: seq<Message>, n: nat) returns (received: seq<Message>)
    requires n == |ms| && pipe.data == Frames(ms)
    requires forall i | 0 <= i < |ms| :: Sendable(ms[i])
    modifies pipe
    ensures received == ms && pipe.data == ""
  {
    hide Sendable, Frame, Decode;
    received := [];
    for i := 0 to n
      invariant received == ms[..i] && pipe.data == Frames(ms[i..])
    {
      assert ms[i..][1..] == ms[i + 1..];
      DecodeFrame(ms[i], Frames(ms[i + 1..]));
      var ok, hdr, payload, _ := RecvMessage(pipe, BLANK);
      received := received + [Message(hdr, payload)];
    }
  }

  /** Both ends together: for every way in which the reads and writes split the bytes, everything is sent
      exactly if it is within the sender's bounds and the other side stays for it, and what arrives is what
      was sent. */
  method Exchange(pipe: Pipe, ms: seq<Message>) returns (sent: bool, received: seq<Message>)
    requires pipe.data == ""
    requires forall i | 0 <= i < |ms| :: Sendable(ms[i])
    modifies pipe
    ensures sent <==> (forall i | 0 <= i < |ms| :: Fits(ms[i])) && Takes(old(pipe.room), |Frames(ms)|)
    ensures sent ==> received == ms && pipe.data == ""
  {
    hide Fits, Sendable;
    sent := SendAll(pipe, ms);
    received := [];
    if sent {
      received := ReceiveAll(pipe, ms, |ms|);
    }
  }

  lemma {:induction false} FramesSnoc(ms: seq<Message>, i: nat)
    requires i < |ms|
    ensures Frames(ms[..i + 1]) == Frames(ms[..i]) + Frame(ms[i])
  {
    hide Frame;
    if i == 0 {
      assert ms[..1][1..] == [] && Frames([]) == "";
    } else {
      FramesSnoc(ms[1..], i - 1);
      assert ms[..i + 1][1..] == ms[1..][..i] && ms[..i][1..] == ms[1..][..i - 1];
    }
  }
}
