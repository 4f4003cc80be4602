/** Messages over a datagram socket: a short message is one datagram, a long one is a
    header with its length and then its parts. A char stands for a byte. */
module LocIpc {
  import opened Wrappers

  const LOC_MSG_BUF_LEN := 8192
  const LOC_MSG_HEAD := "$MSGLEN$"
  const LOC_MSG_ABORT := "LocIpcMsg::ABORT"

  // ---------- sending ----------

  function Digit(d: int): char
    requires 0 <= d < 10
  {
    "0123456789"[d]
  }

  /** std::to_string */
  function Decimal(n: nat): string {
    if n < 10 then [Digit(n)] else Decimal(n / 10) + [Digit(n % 10)]
  }

  /** The parts of a long message. */
  function Parts(data: string): seq<string> {
    if |data| == 0 then []
    else if |data| <= LOC_MSG_BUF_LEN then [data]
    else [data[..LOC_MSG_BUF_LEN]] + Parts(data[LOC_MSG_BUF_LEN..])
  }

  function Header(length: nat): string {
    LOC_MSG_HEAD + Decimal(length)
  }

  /** The datagrams for a message. */
  function Datagrams(data: string): seq<string> {
    if |data| <= LOC_MSG_BUF_LEN then [data] else [Header(|data|)] + Parts(data)
  }

  /** A message of up to 8192 bytes is one datagram as it is; a longer one is a header that
      begins with $MSGLEN$ and as few parts of 8192 bytes as hold it. */
  lemma DatagramsAre(data: string)
    ensures |data| <= 8192 ==> Datagrams(data) == [data]
    ensures |data| > 8192 ==>
              && |Datagrams(data)| == 1 + (|data| + 8191) / 8192
              && Datagrams(data)[0] == "$MSGLEN$" + Decimal(|data|)
  {
    PartsCount(data);
  }

  lemma {:induction false} PartsCount(data: string)
    ensures |Parts(data)| == (|data| + 8191) / 8192
  {
    if |data| > 8192 { PartsCount(data[8192..]); }
  }

  function Concat(parts: seq<string>): string {
    if parts == [] then "" else parts[0] + Concat(parts[1..])
  }

  /** Parts are 1 to 8192 bytes long and make up the message. */
  lemma {:induction false} PartsMakeUpData(data: string)
    ensures Concat(Parts(data)) == data
    ensures forall p :: p in Parts(data) ==> 1 <= |p| <= LOC_MSG_BUF_LEN
  {
    if |data| > LOC_MSG_BUF_LEN {
      PartsMakeUpData(data[LOC_MSG_BUF_LEN..]);
      assert Parts(data)[1..] == Parts(data[LOC_MSG_BUF_LEN..]);
    } else if |data| > 0 {
      assert Concat([data]) == data + Concat([]);
    }
  }

  /** A datagram socket. Whether it takes a datagram is up to the system. */
  class Socket {
    var sent: seq<string>

    constructor ()
      ensures sent == []
    {
      sent := [];
    }

    method SendTo(part: string) returns (rv: int)
      modifies this
      ensures if rv < 0 then sent == old(sent) else rv == |part| && sent == old(sent) + [part]
    {
      var taken := *;
      if taken {
        sent := sent + [part];
        rv := |part|;
      } else {
        rv := -1;
      }
    }
  }

  /** Sends all datagrams of a message, or reports failure at the first that is not taken. */
  method SendData(socket: Socket, data: string) returns (result: bool)
    modifies socket
    ensures result ==> socket.sent == old(socket.sent) + Datagrams(data)
    ensures !result ==> exists n :: 0 <= n < |Datagrams(data)| && socket.sent == old(socket.sent) + Datagrams(data)[..n]
  {
    ghost var ds := Datagrams(data);
    if |data| <= LOC_MSG_BUF_LEN {
      var rv := socket.SendTo(data);
      assert rv < 0 ==> socket.sent == old(socket.sent) + ds[..0];
      return rv >= 0;
    }
    var rv := socket.SendTo(LOC_MSG_HEAD + Decimal(|data|));
    if rv < 0 {
      assert socket.sent == old(socket.sent) + ds[..0];
      return false;
    }
    var sentBytes, n := 0, 1;
    while sentBytes < |data|
      invariant 0 <= sentBytes <= |data| && 1 <= n <= |ds|
      invariant ds[n..] == Parts(data[sentBytes..]) && socket.sent == old(socket.sent) + ds[..n]
    {
      var partLen := |data| - sentBytes;
      if partLen > LOC_MSG_BUF_LEN {
        partLen := LOC_MSG_BUF_LEN;
      }
      PartsStep(data, sentBytes);
      assert ds[n] == data[sentBytes..sentBytes + partLen] && ds[n + 1..] == ds[n..][1..];
      var part := socket.SendTo(data[sentBytes..sentBytes + partLen]);
      if part < 0 {
        return false;
      }
      assert ds[..n + 1] == ds[..n] + [ds[n]];
      sentBytes, n := sentBytes + part, n + 1;
    }
    assert ds[..n] == ds;
    return true;
  }

  lemma PartsStep(data: string, at: nat)
    requires at < |data|
    ensures var len := if |data| - at > LOC_MSG_BUF_LEN then LOC_MSG_BUF_LEN else |data| - at;
            Parts(data[at..]) == [data[at..at + len]] + Parts(data[at + len..])
  {
    var rest := data[at..];
    if |rest| > LOC_MSG_BUF_LEN {
      assert rest[LOC_MSG_BUF_LEN..] == data[at + LOC_MSG_BUF_LEN..];
      assert rest[..LOC_MSG_BUF_LEN] == data[at..at + LOC_MSG_BUF_LEN];
    } else {
      assert data[at..|data|] == rest;
      assert [rest] + [] == [rest];
    }
  }

  // ---------- receiving ----------

  /** std::string::resize: cut off, or filled up with zeros. */
  function Resize(s: string, n: nat): string {
    if |s| >= n then s[..n] else s + seq(n - |s|, i => '\0')
  }

  /** The receive buffer: the datagram over what the string held before. */
  function Buffer(before: string, datagram: string): string
    requires |datagram| <= LOC_MSG_BUF_LEN
  {
    datagram + Resize(before, LOC_MSG_BUF_LEN)[|datagram|..]
  }

  predicate IsDigit(c: char) {
    '0' <= c <= '9'
  }

  /** sscanf of a number, with the value of the digits read so far. */
  function Scan(value: nat, s: string): nat
    decreases |s|
  {
    if s != "" && IsDigit(s[0]) then Scan(10 * value + (s[0] as int - '0' as int), s[1..]) else value
  }

  /** A message and the datagrams still to come, or the end of the listening. */
  datatype Got = Message(msg: string, rest: seq<string>) | Stopped

  /** recvfrom cuts off what does not fit. */
  function Cut(datagram: string, room: nat): string {
    if |datagram| <= room then datagram else datagram[..room]
  }

  /** The inner loop: fills up a message that has its final size. */
  function Fill(msg: string, received: nat, ds: seq<string>): Got
    requires received <= |msg|
    decreases |msg| - received
  {
    if received == |msg| then Message(msg, ds)
    else if ds == [] || ds[0] == "" then Stopped
    else
      var part := Cut(ds[0], |msg| - received);
      Fill(msg[..received] + part + msg[received + |part|..], received + |part|, ds[1..])
  }

  /** One turn of the outer loop, and further turns while datagrams are empty. */
  function ReceiveOne(before: string, ds: seq<string>): Got
    decreases |ds|
  {
    if ds == [] then Stopped
    else
      var d := Cut(ds[0], LOC_MSG_BUF_LEN);
      var buf := Buffer(before, d);
      if d == "" then ReceiveOne(buf, ds[1..])
      else if LOC_MSG_ABORT <= buf then Stopped
      else if !(LOC_MSG_HEAD <= buf) then Message(d, ds[1..])
      else Fill(Resize(buf, Scan(0, buf[|LOC_MSG_HEAD|..])), 0, ds[1..])
  }

  lemma {:induction false} FillConsumes(msg: string, received: nat, ds: seq<string>)
    requires received <= |msg| && Fill(msg, received, ds).Message?
    ensures |Fill(msg, received, ds).rest| <= |ds|
    decreases |msg| - received
  {
    if received < |msg| {
      var part := Cut(ds[0], |msg| - received);
      FillConsumes(msg[..received] + part + msg[received + |part|..], received + |part|, ds[1..]);
    }
  }

  lemma {:induction false} ReceiveConsumes(before: string, ds: seq<string>)
    requires ReceiveOne(before, ds).Message?
    ensures |ReceiveOne(before, ds).rest| < |ds|
    decreases |ds|
  {
    var d := Cut(ds[0], LOC_MSG_BUF_LEN);
    var buf := Buffer(before, d);
    if d == "" {
      ReceiveConsumes(buf, ds[1..]);
    } else if LOC_MSG_HEAD <= buf {
      FillConsumes(Resize(buf, Scan(0, buf[|LOC_MSG_HEAD|..])), 0, ds[1..]);
    }
  }

  /** Everything the listener is given. */
  function Received(before: string, ds: seq<string>): seq<string>
    decreases |ds|
  {
    match ReceiveOne(before, ds)
    case Stopped => []
    case Message(msg, rest) =>
      ReceiveConsumes(before, ds);
      [msg] + Received(msg, rest)
  }

  // ---------- the round trip ----------

  lemma ScanDigit(value: nat, d: nat, rest: string)
    requires d < 10
    ensures Scan(value, [Digit(d)] + rest) == Scan(10 * value + d, rest)
  {
    assert ([Digit(d)] + rest)[1..] == rest;
  }

  /** The digits of a number are read back as that number. */
  lemma {:induction false} ScanDecimal(n: nat, rest: string)
    ensures Scan(0, Decimal(n) + rest) == Scan(n, rest)
  {
    hide Scan;
    if n < 10 {
      ScanDigit(0, n, rest);
    } else {
      var d := [Digit(n % 10)];
      assert Decimal(n) + rest == Decimal(n / 10) + (d + rest);
      ScanDecimal(n / 10, d + rest);
      ScanDigit(n / 10, n % 10, rest);
    }
  }

  lemma {:induction false} ScanGrows(value: nat, s: string)
    ensures Scan(value, s) >= value
    ensures s != "" && IsDigit(s[0]) ==> Scan(value, s) >= 10 * value
    decreases |s|
  {
    if s != "" && IsDigit(s[0]) { ScanGrows(10 * value + (s[0] as int - '0' as int), s[1..]); }
  }

  lemma {:induction false} DecimalLength(n: nat)
    requires n < 0x1_0000_0000
    ensures 1 <= |Decimal(n)| <= 10
  {
    DecimalBelow(n, 10);
  }

  function Pow10(k: nat): nat {
    if k == 0 then 1 else 10 * Pow10(k - 1)
  }

  lemma {:induction false} DecimalBelow(n: nat, k: nat)
    requires k > 0 && n < Pow10(k)
    ensures 1 <= |Decimal(n)| <= k
  {
    if n >= 10 { DecimalBelow(n / 10, k - 1); }
  }

  /** The parts of a message fill it up, if there is room for exactly them; if there is
      more room, the listener is left waiting. */
  lemma {:induction false} FillParts(msg: string, received: nat, data: string, rest: seq<string>)
    requires received + |data| <= |msg|
    ensures received + |data| == |msg| ==> Fill(msg, received, Parts(data) + rest) == Message(msg[..received] + data, rest)
    ensures received + |data| < |msg| ==> Fill(msg, received, Parts(data)) == Stopped
    decreases |data|
  {
    if |data| == 0 {
      assert Parts(data) + rest == rest;
      if received == |msg| { assert msg[..received] + data == msg; }
    } else {
      PartsStep(data, 0);
      assert data[0..] == data;
      var part := Parts(data)[0];
      var tail := data[|part|..];
      var msg' := msg[..received] + part + msg[received + |part|..];
      FillParts(msg', received + |part|, tail, rest);
      assert (Parts(data) + rest)[1..] == Parts(tail) + rest;
      assert Parts(data)[1..] == Parts(tail);
      assert msg'[..received + |part|] + tail == msg[..received] + data;
    }
  }

  /** What the string held before does not spoil the message: in front of the stale bytes
      it must not look like a header or like the abort message, and a header must not be
      followed by a stale digit. */
  predicate Clean(before: string, data: string) {
    if |data| > LOC_MSG_BUF_LEN then
      |Header(|data|)| < LOC_MSG_BUF_LEN && !IsDigit(Resize(before, LOC_MSG_BUF_LEN)[|Header(|data|)|])
    else
      data != "" && !(LOC_MSG_HEAD <= Buffer(before, data)) && !(LOC_MSG_ABORT <= Buffer(before, data))
  }

  lemma ShortRoundTrip(before: string, data: string, rest: seq<string>)
    requires |data| <= LOC_MSG_BUF_LEN
    ensures Clean(before, data) ==> ReceiveOne(before, [data] + rest) == Message(data, rest)
    ensures ReceiveOne(before, [data]) == Message(data, []) ==> Clean(before, data)
  {
    assert ([data] + rest)[1..] == rest;
    assert [data][1..] == [];
    assert ReceiveOne(Buffer(before, data), []) == Stopped;
  }

  /** The header as the listener sees it: whether the length is read right depends on the
      byte after it. */
  lemma HeaderRead(before: string, length: nat)
    requires LOC_MSG_BUF_LEN < length < 0x1_0000_0000
    ensures |Header(length)| < LOC_MSG_BUF_LEN
    ensures
      var h := Header(length);
      var buf := Buffer(before, h);
      var next := Resize(before, LOC_MSG_BUF_LEN)[|h|];
      && LOC_MSG_HEAD <= buf && !(LOC_MSG_ABORT <= buf)
      && (if IsDigit(next) then Scan(0, buf[|LOC_MSG_HEAD|..]) > length else Scan(0, buf[|LOC_MSG_HEAD|..]) == length)
  {
    DecimalLength(length);
    var h := Header(length);
    var stale := Resize(before, LOC_MSG_BUF_LEN)[|h|..];
    var buf := Buffer(before, h);
    assert buf == LOC_MSG_HEAD + (Decimal(length) + stale);
    assert buf[|LOC_MSG_HEAD|..] == Decimal(length) + stale;
    assert buf[0] == '$' && LOC_MSG_ABORT[0] == 'L';
    ScanDecimal(length, stale);
    ScanGrows(length, stale);
  }

  /** After the header the listener fills a message of the size it has read. */
  lemma LongStart(before: string, data: string, rest: seq<string>) returns (msg: string)
    requires LOC_MSG_BUF_LEN < |data| < 0x1_0000_0000
    ensures ReceiveOne(before, Datagrams(data) + rest) == Fill(msg, 0, Parts(data) + rest)
    ensures if Clean(before, data) then |msg| == |data| else |msg| > |data|
  {
    HeaderClean(before, data);
    LongDatagrams(data, rest);
    hide Scan, Fill, Parts, Clean, Resize, Buffer, Datagrams, Header;
    var buf := Buffer(before, Header(|data|));
    var size := Scan(0, buf[|LOC_MSG_HEAD|..]);
    msg := Resize(buf, size);
    ResizeLength(buf, size);
  }

  lemma ConsTail<T>(x: T, p: seq<T>, rest: seq<T>)
    ensures |[x] + p + rest| > 0 && ([x] + p + rest)[0] == x && ([x] + p + rest)[1..] == p + rest
  {
  }

  lemma LongDatagrams(data: string, rest: seq<string>)
    requires LOC_MSG_BUF_LEN < |data|
    ensures Datagrams(data) + rest != []
    ensures (Datagrams(data) + rest)[0] == Header(|data|) && (Datagrams(data) + rest)[1..] == Parts(data) + rest
  {
    hide Parts, Header;
    ConsTail(Header(|data|), Parts(data), rest);
  }

  lemma ResizeLength(s: string, n: nat)
    ensures |Resize(s, n)| == n
  {
  }

  lemma HeaderClean(before: string, data: string)
    requires LOC_MSG_BUF_LEN < |data| < 0x1_0000_0000
    ensures 0 < |Header(|data|)| < LOC_MSG_BUF_LEN
    ensures
      var buf := Buffer(before, Header(|data|));
      && LOC_MSG_HEAD <= buf && !(LOC_MSG_ABORT <= buf)
      && if Clean(before, data) then Scan(0, buf[|LOC_MSG_HEAD|..]) == |data| else Scan(0, buf[|LOC_MSG_HEAD|..]) > |data|
  {
    HeaderRead(before, |data|);
    hide Scan, Decimal, Buffer;
  }

  lemma LongReceived(before: string, data: string, rest: seq<string>)
    requires LOC_MSG_BUF_LEN < |data| < 0x1_0000_0000 && Clean(before, data)
    ensures ReceiveOne(before, Datagrams(data) + rest) == Message(data, rest)
  {
    hide ReceiveOne, Fill, Parts, Clean;
    var msg := LongStart(before, data, rest);
    FillParts(msg, 0, data, rest);
    assert msg[..0] + data == data;
  }

  /** A stale digit after the header makes the listener wait for bytes nobody sends. */
  lemma LongLost(before: string, data: string)
    requires LOC_MSG_BUF_LEN < |data| < 0x1_0000_0000 && !Clean(before, data)
    ensures ReceiveOne(before, Datagrams(data)) == Stopped
  {
    hide ReceiveOne, Fill, Parts, Clean;
    var msg := LongStart(before, data, []);
    FillParts(msg, 0, data, []);
    assert Parts(data) + [] == Parts(data);
    assert Datagrams(data) + [] == Datagrams(data);
  }

  /** For every message, whatever its length and whatever the string held before: it is
      delivered once, byte for byte, if and only if it is clean. */
  lemma RoundTrip(before: string, data: string)
    requires |data| < 0x1_0000_0000
    ensures ReceiveOne(before, Datagrams(data)) == Message(data, []) <==> Clean(before, data)
  {
    if |data| <= LOC_MSG_BUF_LEN {
      ShortRoundTrip(before, data, []);
      assert [data] + [] == [data];
    } else {
      if Clean(before, data) { LongReceived(before, data, []); } else { LongLost(before, data); }
      assert Datagrams(data) + [] == Datagrams(data);
    }
  }

  /** With nothing stale, a message is clean if it is not empty and, when short, does not
      begin with the header or the abort message. */
  lemma CleanAtStart(data: string)
    requires |data| < 0x1_0000_0000
    ensures Clean("", data) <==>
              data != "" && (|data| <= LOC_MSG_BUF_LEN ==> !(LOC_MSG_HEAD <= data) && !(LOC_MSG_ABORT <= data))
  {
    if |data| > LOC_MSG_BUF_LEN {
      HeaderRead("", |data|);
    } else {
      ZeroTail(data, LOC_MSG_HEAD);
      ZeroTail(data, LOC_MSG_ABORT);
    }
  }

  lemma ZeroTail(data: string, tag: string)
    requires |data| <= LOC_MSG_BUF_LEN && |tag| <= LOC_MSG_BUF_LEN && '\0' !in tag
    ensures tag <= Buffer("", data) <==> tag <= data
  {
    var buf := Buffer("", data);
    if |data| < |tag| { assert buf[|data|] == '\0' && tag[|data|] in tag; }
  }

  function AllDatagrams(msgs: seq<string>): seq<string> {
    if msgs == [] then [] else Datagrams(msgs[0]) + AllDatagrams(msgs[1..])
  }

  /** Each message is clean after the one before it. */
  predicate AllClean(before: string, msgs: seq<string>)
    decreases |msgs|
  {
    msgs == [] || (|msgs[0]| < 0x1_0000_0000 && Clean(before, msgs[0]) && AllClean(msgs[0], msgs[1..]))
  }

  /** Any number of messages from one sender is received in order, each once. */
  lemma {:induction false} AllReceived(before: string, msgs: seq<string>)
    requires AllClean(before, msgs)
    ensures Received(before, AllDatagrams(msgs)) == msgs
    decreases |msgs|
  {
    if msgs != [] {
      var rest := AllDatagrams(msgs[1..]);
      if |msgs[0]| <= LOC_MSG_BUF_LEN {
        ShortRoundTrip(before, msgs[0], rest);
      } else {
        LongReceived(before, msgs[0], rest);
      }
      AllReceived(msgs[0], msgs[1..]);
    }
  }

  /** The failing side of RoundTrip is met from the start: of two long messages the first
      is received, and it is the first that spoils the second. */
  lemma SecondLongLost(a: string, b: string)
    requires LOC_MSG_BUF_LEN < |a| < 0x1_0000_0000 && LOC_MSG_BUF_LEN < |b| < 0x1_0000_0000 && !Clean(a, b)
    ensures Received("", AllDatagrams([a, b])) == [a]
  {
    CleanAtStart(a);
    assert [a, b][1..] == [b] && [b][1..] == [] && Datagrams(b) + AllDatagrams([]) == Datagrams(b);
    LongReceived("", a, Datagrams(b));
    LongLost(a, b);
    hide ReceiveOne, Datagrams, Clean;
  }

  /** A message of 8193 digits, sent twice, is received once. */
  lemma TwiceSentOnceReceived()
    ensures var a := seq(LOC_MSG_BUF_LEN + 1, i => '7');
            Received("", AllDatagrams([a, a])) == [a]
  {
    var a := seq(LOC_MSG_BUF_LEN + 1, i => '7');
    assert !Clean(a, a) by { hide Header; }
    SecondLongLost(a, a);
  }

  // ---------- the listener ----------

  /** The receiving end of a socket. When no datagram is left it is closed. */
  class Listener {
    var queue: seq<string>

    constructor (queue: seq<string>)
      ensures this.queue == queue
    {
      this.queue := queue;
    }

    method RecvFrom(room: nat) returns (nBytes: int, data: string)
      modifies this
      ensures if old(queue) == [] then nBytes == -1 && queue == [] && data == ""
              else data == Cut(old(queue)[0], room) && nBytes == |data| && queue == old(queue)[1..]
    {
      if queue == [] {
        return -1, "";
      }
      data := Cut(queue[0], room);
      queue := queue[1..];
      nBytes := |data|;
    }
  }

  /** One turn of the outer loop in terms of what is received altogether. */
  lemma Turn(before: string, ds: seq<string>)
    requires ds != []
    ensures
      var d := Cut(ds[0], LOC_MSG_BUF_LEN);
      var buf := Buffer(before, d);
      if d == "" then Received(before, ds) == Received(buf, ds[1..])
      else if LOC_MSG_ABORT <= buf then Received(before, ds) == []
      else if !(LOC_MSG_HEAD <= buf) then Received(before, ds) == [d] + Received(d, ds[1..])
      else
        match Fill(Resize(buf, Scan(0, buf[|LOC_MSG_HEAD|..])), 0, ds[1..])
        case Stopped => Received(before, ds) == []
        case Message(msg, rest) => Received(before, ds) == [msg] + Received(msg, rest)
  {
    hide Fill, Resize, Scan;
  }

  /** The rest of a long message. */
  method ReceiveLong(fd: Listener, start: string) returns (ok: bool, msg: string)
    modifies fd
    ensures match Fill(start, 0, old(fd.queue))
            case Stopped => !ok
            case Message(m, rest) => ok && msg == m && fd.queue == rest
    ensures |fd.queue| <= |old(fd.queue)|
  {
    msg := start;
    var msgLenReceived, nBytes := 0, 1;
    while msgLenReceived < |msg| && nBytes > 0
      invariant nBytes > 0 ==> 0 <= msgLenReceived <= |msg| && Fill(msg, msgLenReceived, fd.queue) == Fill(start, 0, old(fd.queue))
      invariant nBytes <= 0 ==> Fill(start, 0, old(fd.queue)) == Stopped
      invariant |fd.queue| <= |old(fd.queue)|
      decreases if nBytes > 0 then 1 + |msg| - msgLenReceived else 0
    {
      var data;
      nBytes, data := fd.RecvFrom(|msg| - msgLenReceived);
      msg := msg[..msgLenReceived] + data + msg[msgLenReceived + |data|..];
      msgLenReceived := msgLenReceived + nBytes;
    }
    ok := nBytes > 0;
  }

  datatype Outcome = Ended | Skipped | Got

  /** One turn of the receive loop, with the string that serves as the buffer. */
  method ReceiveTurn(fd: Listener, before: string) returns (outcome: Outcome, msg: string)
    modifies fd
    ensures match outcome
            case Ended => Received(before, old(fd.queue)) == []
            case Skipped => Received(before, old(fd.queue)) == Received(msg, fd.queue)
            case Got => Received(before, old(fd.queue)) == [msg] + Received(msg, fd.queue)
    ensures !outcome.Ended? ==> |fd.queue| < |old(fd.queue)|
  {
    if fd.queue != [] { Turn(before, fd.queue); } else { NothingLeft(before); }
    hide Received, Fill, Scan, Resize;
    ResizeLength(before, LOC_MSG_BUF_LEN);
    msg := Resize(before, LOC_MSG_BUF_LEN);
    var nBytes, data := fd.RecvFrom(|msg|);
    if nBytes < 0 {
      return Ended, msg;
    }
    msg := data + msg[nBytes..];
    assert msg == Buffer(before, data);
    if nBytes == 0 {
      return Skipped, msg;
    }
    if LOC_MSG_ABORT <= msg {
      return Ended, msg;
    }
    if !(LOC_MSG_HEAD <= msg) {
      CutShort(before, data);
      return Got, Resize(msg, nBytes);
    }
    var msgLen := Scan(0, msg[|LOC_MSG_HEAD|..]);
    var ok;
    ok, msg := ReceiveLong(fd, Resize(msg, msgLen));
    outcome := if ok then Got else Ended;
  }

  /** The receive loop. */
  method StartListening(fd: Listener) returns (received: seq<string>)
    modifies fd
    ensures received == Received("", old(fd.queue))
  {
    hide Received;
    received := [];
    var msg := "";
    while true
      invariant received + Received(msg, fd.queue) == Received("", old(fd.queue))
      decreases |fd.queue|
    {
      var outcome;
      outcome, msg := ReceiveTurn(fd, msg);
      if outcome.Ended? {
        break;
      }
      if outcome.Got? {
        assert received + ([msg] + Received(msg, fd.queue)) == received + [msg] + Received(msg, fd.queue);
        received := received + [msg];
      }
    }
  }

  lemma NothingLeft(before: string)
    ensures Received(before, []) == []
  {
  }

  lemma CutShort(before: string, d: string)
    requires |d| <= LOC_MSG_BUF_LEN
    ensures Resize(Buffer(before, d), |d|) == d
  {
  }
}
