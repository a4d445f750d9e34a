/**
 Streams of frames: how a byte stream is cut into reads does not matter, and what is printed
 is what is parsed.
 */
module Streams {
  import opened Options
  import opened Bytes
  import opened Frames

  // ----- the read loop -----

  /** What has come of a stream: the events routed, the bytes left for later, and why the
      client was closed, if it was. */
  datatype Outcome = Outcome(events: seq<Event>, left: Text, closed: Option<Reason>)

  /** A parser of streams takes something, and no more than there is, and does not change
      its mind about what it has decided, whatever comes next. */
  ghost predicate IsParser(parse: Text -> Parsed) {
    && (forall b {:trigger parse(b)} :: parse(b).Ok? ==> 0 < parse(b).used <= |b|)
    && (forall b, x {:trigger parse(b + x)} :: !parse(b).Again? ==> parse(b + x) == parse(b))
  }

  function ParserOf(p: Protocol): Text -> Parsed { b => Parse(p, b) }

  lemma ProtocolsAreParsers(p: Protocol)
    ensures IsParser(ParserOf(p))
  {
    forall b: Text ensures Parse(p, b).Ok? ==> 0 < Parse(p, b).used <= |b| {
      ParseProgress(p, b);
    }
    forall b: Text, x: Text | !Parse(p, b).Again? ensures Parse(p, b + x) == Parse(p, b) {
      ParseStable(p, b, x);
    }
  }

  /** Routes everything that is complete. */
  function Run(parse: Text -> Parsed, b: Text): Outcome
    requires IsParser(parse)
    decreases |b|
  {
    match parse(b)
    case Again => Outcome([], b, None)
    case Fatal(reason) => Outcome([], [], Some(reason))
    case Ok(ev, used) =>
      var rest := Run(parse, b[used..]);
      rest.(events := [ev] + rest.events)
  }

  /** One read: the new bytes join what was left; a closed client is not read from. */
  function Feed(parse: Text -> Parsed, o: Outcome, chunk: Text): Outcome
    requires IsParser(parse)
  {
    if o.closed.Some? then o else
      var next := Run(parse, o.left + chunk);
      next.(events := o.events + next.events)
  }

  function FeedAll(parse: Text -> Parsed, o: Outcome, chunks: seq<Text>): Outcome
    requires IsParser(parse)
    decreases |chunks|
  {
    if chunks == [] then o else FeedAll(parse, Feed(parse, o, chunks[0]), chunks[1..])
  }

  lemma {:induction false} NothingLeftIfClosed(parse: Text -> Parsed, b: Text)
    requires IsParser(parse)
    ensures Run(parse, b).closed.Some? ==> Run(parse, b).left == []
    decreases |b|
  {
    if parse(b).Ok? {
      NothingLeftIfClosed(parse, b[parse(b).used..]);
    }
  }

  lemma {:induction false} RunThenMore(parse: Text -> Parsed, b: Text, x: Text)
    requires IsParser(parse)
    ensures Run(parse, b + x) == Feed(parse, Run(parse, b), x)
    decreases |b|
  {
    assert !parse(b).Again? ==> parse(b + x) == parse(b);
    match parse(b)
    case Again =>
    case Fatal(_) =>
    case Ok(ev, used) =>
      assert (b + x)[used..] == b[used..] + x;
      RunThenMore(parse, b[used..], x);
      var o := Run(parse, b[used..]);
      if o.closed.None? {
        var next := Run(parse, o.left + x);
        assert [ev] + (o.events + next.events) == ([ev] + o.events) + next.events;
      }
  }

  lemma Associative(a: Text, b: Text, c: Text)
    ensures (a + b) + c == a + (b + c)
  {
  }

  lemma {:induction false} FeedingIsRunning(parse: Text -> Parsed, b: Text, chunks: seq<Text>)
    requires IsParser(parse)
    ensures FeedAll(parse, Run(parse, b), chunks) == Run(parse, b + Concat(chunks))
    decreases |chunks|
  {
    if chunks == [] {
      assert b + [] == b;
    } else {
      RunThenMore(parse, b, chunks[0]);
      FeedingIsRunning(parse, b + chunks[0], chunks[1..]);
      Associative(b, chunks[0], Concat(chunks[1..]));
    }
  }

  lemma AllAtOnce(parse: Text -> Parsed, chunks: seq<Text>)
    requires IsParser(parse) && parse([]).Again?
    ensures FeedAll(parse, Outcome([], [], None), chunks) == Run(parse, Concat(chunks))
  {
    assert Run(parse, []) == Outcome([], [], None);
    FeedingIsRunning(parse, [], chunks);
    assert [] + Concat(chunks) == Concat(chunks);
  }

  /** However a stream is cut into reads, on either protocol, the same events are routed, and
      the client ends up closed for the same reason or with the same bytes left. */
  lemma SplitInvariance(p: Protocol, chunks: seq<Text>, others: seq<Text>)
    requires Concat(chunks) == Concat(others)
    ensures IsParser(ParserOf(p))
    ensures FeedAll(ParserOf(p), Outcome([], [], None), chunks) == FeedAll(ParserOf(p), Outcome([], [], None), others)
    ensures FeedAll(ParserOf(p), Outcome([], [], None), chunks) == Run(ParserOf(p), Concat(chunks))
  {
    ProtocolsAreParsers(p);
    assert Parse(p, []).Again?;
    AllAtOnce(ParserOf(p), chunks);
    AllAtOnce(ParserOf(p), others);
  }

  // ----- raw frames, printed and parsed -----

  datatype Message = Message(path: Text, extra: Text, cb: nat, json: Text)

  function TextOf(m: Message): Text { Format(m.path, m.extra, m.cb, m.json) }

  function EventOf(m: Message): Event { Event(m.path + m.extra, m.cb, m.json) }

  /** What the printer is meant for: C strings, a path without a colon, a 64-bit callback,
      and a text whose length fits the frame. */
  predicate Printable(m: Message) {
    && 0 !in m.path && 0 !in m.extra && 0 !in m.json
    && COLON !in m.path && COLON !in m.extra
    && m.cb <= MAX64 && |TextOf(m)| + 8 <= MAX64
  }

  lemma DigitsAreText(n: nat)
    ensures 0 !in Digits(n) && EQUALS !in Digits(n)
  {
    var s := Digits(n);
    forall b | b in s ensures b != 0 && b != EQUALS {
      var i :| 0 <= i < |s| && s[i] == b;
      assert IsDigit(s[i]);
    }
  }

  lemma HandleParts(path: Text, digits: Text, json: Text)
    requires COLON !in path && digits != [] && forall i :: 0 <= i < |digits| ==> IsDigit(digits[i])
    ensures var text := path + [COLON] + digits + [EQUALS] + json;
            && Find(text, COLON) == |path| < |text| && text[..|path|] == path
            && var rest := text[|path| + 1..];
               DigitRun(rest) == |digits| < |rest| && rest[..|digits|] == digits
               && rest[|digits|] == EQUALS && rest[|digits| + 1..] == json
  {
    var text := path + [COLON] + digits + [EQUALS] + json;
    assert text[..|path|] == path && text[|path|] == COLON;
    FindIs(text, COLON, |path|);
    var rest := digits + ([EQUALS] + json);
    assert text[|path| + 1..] == rest;
    forall i | 0 <= i < |digits| ensures IsDigit(rest[i]) { assert rest[i] == digits[i]; }
    DigitRunIs(rest, |digits|);
  }

  lemma HandleFormat(m: Message)
    requires Printable(m)
    ensures Handle(TextOf(m)) == Some(EventOf(m)) && 0 !in TextOf(m)
  {
    DigitsAreText(m.cb);
    HandleParts(m.path + m.extra, Digits(m.cb), m.json);
    NumberOfDigits(m.cb);
  }

  function FrameOf(m: Message): Text { RawFrame(m.path, m.extra, m.cb, m.json) }

  lemma RawParseFrame(m: Message, rest: Text)
    requires Printable(m)
    ensures RawParse(FrameOf(m) + rest) == Ok(EventOf(m), |FrameOf(m)|)
  {
    var text := TextOf(m);
    var b := FrameOf(m) + rest;
    Pow256Values();
    BERoundTrip(|text|, 8);
    assert b[..8] == ToBE(|text|, 8);
    assert b[8..8 + |text|] == text;
    HandleFormat(m);
    CStringWhole(text);
  }

  function RawStream(ms: seq<Message>): Text {
    if ms == [] then [] else FrameOf(ms[0]) + RawStream(ms[1..])
  }

  function EventsOf(ms: seq<Message>): seq<Event> {
    if ms == [] then [] else [EventOf(ms[0])] + EventsOf(ms[1..])
  }

  /** Printed events come out of the read loop as they went in. */
  lemma {:induction false} RawRoundTrip(ms: seq<Message>)
    requires forall m <- ms :: Printable(m)
    ensures IsParser(ParserOf(Raw)) && Run(ParserOf(Raw), RawStream(ms)) == Outcome(EventsOf(ms), [], None)
    decreases |ms|
  {
    ProtocolsAreParsers(Raw);
    if ms != [] {
      var rest := RawStream(ms[1..]);
      assert Printable(ms[0]);
      RawParseFrame(ms[0], rest);
      RawRoundTrip(ms[1..]);
      RunOne(ParserOf(Raw), FrameOf(ms[0]), rest, EventOf(ms[0]));
    }
  }

  // ----- WebSocket frames, from a client -----

  /** How a client may state the length: in 7, 16 or 64 bits, if it fits. */
  datatype Form = Short | Medium | Long

  predicate Fits(form: Form, n: nat) {
    match form
    case Short => n <= 125
    case Medium => n <= 0xffff
    case Long => n <= MAX64 - 14
  }

  /** A masked text frame; any first byte with opcode 1 will do. */
  function MaskedFrame(first: Byte, form: Form, key: Text, text: Text): Text
    requires |key| == 4 && Fits(form, |text|)
  {
    [first]
    + (match form
       case Short => [(128 + |text|) as Byte]
       case Medium => [128 + 126] + ToBE(|text|, 2)
       case Long => [128 + 127] + ToBE(|text|, 8))
    + key + Unmask(text, key)
  }

  lemma UnmaskTwice(text: Text, key: Text)
    requires |key| == 4
    ensures Unmask(Unmask(text, key), key) == text
  {
    forall i | 0 <= i < |text| ensures Unmask(Unmask(text, key), key)[i] == text[i] {
      XorTwice(text[i], key[i % 4]);
    }
  }

  function HeaderOf(form: Form): nat { match form case Short => 6 case Medium => 8 case Long => 14 }

  lemma Sections(front: Text, size: Text, key: Text, payload: Text, rest: Text)
    ensures var b := (front + size + key + payload) + rest;
            var h := |front| + |size| + |key|;
            && b[..|front|] == front && b[|front|..|front| + |size|] == size
            && b[h - |key|..h] == key && b[h..h + |payload|] == payload
  {
  }

  lemma MaskedFrameParts(first: Byte, form: Form, key: Text, text: Text, rest: Text)
    requires |key| == 4 && Fits(form, |text|)
    ensures var b := MaskedFrame(first, form, key, text) + rest;
            var h := HeaderOf(form);
            && |MaskedFrame(first, form, key, text)| == h + |text|
            && b[0] == first && b[1] >= 128 && HeaderLength(b[1] as nat % 128) == h
            && b[h - 4..h] == key && b[h..h + |text|] == Unmask(text, key)
            && PayloadLength(b) == |text|
  {
    var b := MaskedFrame(first, form, key, text) + rest;
    Pow256Values();
    match form
    case Short =>
      Sections([first, (128 + |text|) as Byte], [], key, Unmask(text, key), rest);
      assert MaskedFrame(first, form, key, text) == [first, (128 + |text|) as Byte] + [] + key + Unmask(text, key);
    case Medium =>
      Sections([first, 128 + 126], ToBE(|text|, 2), key, Unmask(text, key), rest);
      assert MaskedFrame(first, form, key, text) == [first, 128 + 126] + ToBE(|text|, 2) + key + Unmask(text, key);
      BERoundTrip(|text|, 2);
    case Long =>
      Sections([first, 128 + 127], ToBE(|text|, 8), key, Unmask(text, key), rest);
      assert MaskedFrame(first, form, key, text) == [first, 128 + 127] + ToBE(|text|, 8) + key + Unmask(text, key);
      BERoundTrip(|text|, 8);
  }

  /** A masked text frame decodes to its text, and takes header and payload. */
  lemma DecodeMasked(utf8: Validator, first: Byte, form: Form, key: Text, text: Text, rest: Text)
    requires |key| == 4 && Fits(form, |text|) && first % 16 == 1 && utf8(text)
    ensures Decode(utf8, MaskedFrame(first, form, key, text) + rest) == Payload(text, HeaderOf(form) + |text|)
  {
    MaskedFrameParts(first, form, key, text, rest);
    UnmaskTwice(text, key);
  }

  datatype Packet = Packet(first: Byte, form: Form, key: Text, m: Message)

  predicate Sendable(utf8: Validator, q: Packet) {
    Printable(q.m) && |q.key| == 4 && Fits(q.form, |TextOf(q.m)|) && q.first % 16 == 1 && utf8(TextOf(q.m))
  }

  function PacketFrame(utf8: Validator, q: Packet): Text
    requires Sendable(utf8, q)
  {
    MaskedFrame(q.first, q.form, q.key, TextOf(q.m))
  }

  function WsStream(utf8: Validator, qs: seq<Packet>): Text
    requires forall q <- qs :: Sendable(utf8, q)
  {
    if qs == [] then [] else PacketFrame(utf8, qs[0]) + WsStream(utf8, qs[1..])
  }

  function PacketEvents(qs: seq<Packet>): seq<Event> {
    if qs == [] then [] else [EventOf(qs[0].m)] + PacketEvents(qs[1..])
  }

  lemma WsParseFrom(utf8: Validator, b: Text, text: Text, used: nat, ev: Event)
    requires Decode(utf8, b) == Payload(text, used) && 0 !in text && Handle(text) == Some(ev)
    ensures WsParse(utf8, b) == Ok(ev, used)
  {
    CStringWhole(text);
  }

  lemma DecodePacket(utf8: Validator, q: Packet, rest: Text)
    requires Sendable(utf8, q)
    ensures Decode(utf8, PacketFrame(utf8, q) + rest) == Payload(TextOf(q.m), |PacketFrame(utf8, q)|)
  {
    DecodeMasked(utf8, q.first, q.form, q.key, TextOf(q.m), rest);
    MaskedFrameSize(q.first, q.form, q.key, TextOf(q.m));
  }

  lemma ParseDecoded(utf8: Validator, m: Message, b: Text, used: nat)
    requires Printable(m) && Decode(utf8, b) == Payload(TextOf(m), used)
    ensures WsParse(utf8, b) == Ok(EventOf(m), used)
  {
    HandleFormat(m);
    WsParseFrom(utf8, b, TextOf(m), used, EventOf(m));
  }

  lemma ParsePacket(utf8: Validator, q: Packet, rest: Text)
    requires Sendable(utf8, q)
    ensures WsParse(utf8, PacketFrame(utf8, q) + rest) == Ok(EventOf(q.m), |PacketFrame(utf8, q)|)
  {
    DecodePacket(utf8, q, rest);
    ParseDecoded(utf8, q.m, PacketFrame(utf8, q) + rest, |PacketFrame(utf8, q)|);
  }

  lemma MaskedFrameSize(first: Byte, form: Form, key: Text, text: Text)
    requires |key| == 4 && Fits(form, |text|)
    ensures |MaskedFrame(first, form, key, text)| == HeaderOf(form) + |text|
  {
  }

  /** Events sent in masked frames, with any keys and length forms, come out of the read loop
      as they went in. */
  lemma {:induction false} WsRoundTrip(utf8: Validator, qs: seq<Packet>)
    requires forall q <- qs :: Sendable(utf8, q)
    ensures IsParser(ParserOf(WebSocket(utf8)))
    ensures Run(ParserOf(WebSocket(utf8)), WsStream(utf8, qs)) == Outcome(PacketEvents(qs), [], None)
    decreases |qs|
  {
    ProtocolsAreParsers(WebSocket(utf8));
    if qs == [] {
      assert Parse(WebSocket(utf8), []).Again?;
    } else {
      assert Sendable(utf8, qs[0]);
      WsRoundTrip(utf8, qs[1..]);
      RunPacket(utf8, qs[0], WsStream(utf8, qs[1..]));
    }
  }

  lemma RunPacket(utf8: Validator, q: Packet, rest: Text)
    requires Sendable(utf8, q) && IsParser(ParserOf(WebSocket(utf8)))
    ensures var o := Run(ParserOf(WebSocket(utf8)), rest);
            Run(ParserOf(WebSocket(utf8)), PacketFrame(utf8, q) + rest) == o.(events := [EventOf(q.m)] + o.events)
  {
    ParsePacket(utf8, q, rest);
    RunOne(ParserOf(WebSocket(utf8)), PacketFrame(utf8, q), rest, EventOf(q.m));
  }

  lemma RunOne(parse: Text -> Parsed, frame: Text, rest: Text, ev: Event)
    requires IsParser(parse) && parse(frame + rest) == Ok(ev, |frame|)
    ensures Run(parse, frame + rest) == Run(parse, rest).(events := [ev] + Run(parse, rest).events)
  {
    assert (frame + rest)[|frame|..] == rest;
  }

  // ----- WebSocket frames, from the server -----

  /** A frame in the terms of section 5.2 of RFC 6455. */
  datatype Frame = Frame(fin: bool, rsv: nat, opcode: nat, masked: bool, text: Text)

  /** A reader that follows section 5.2 of RFC 6455, which wants the shortest length form and
      a 64-bit length with its top bit clear. */
  function Read52(b: Text): Option<(Frame, nat)> {
    if |b| < 2 then None else
      var l := b[1] as nat % 128;
      var ext := if l == 127 then 8 else if l == 126 then 2 else 0;
      if |b| < 2 + ext then None else ReadAt(b, ext, if ext == 0 then l else FromBE(b[2..2 + ext]))
  }

  /** The rest of a frame whose length takes `ext` more bytes and is `len`. */
  function ReadAt(b: Text, ext: nat, len: nat): Option<(Frame, nat)>
    requires |b| >= 2 + ext
  {
    var masked := b[1] >= 128;
    var start := 2 + ext + if masked then 4 else 0;
    if (ext == 2 && len <= 125) || (ext == 8 && (len <= 0xffff || len >= 0x8000_0000_0000_0000)) then None
    else if |b| < start + len then None
    else
      var key := if masked then b[start - 4..start] else [];
      Some((FrameWith(b[0], masked, key, b[start..start + len]), start + len))
  }

  function FrameWith(first: Byte, masked: bool, key: Text, raw: Text): Frame
    requires masked ==> |key| == 4
  {
    Frame(first >= 128, first as nat / 16 % 8, first as nat % 16, masked, if masked then Unmask(raw, key) else raw)
  }

  predicate Framable(text: Text) { |text| < 0x8000_0000_0000_0000 }

  /** The shape of what the server prints: the header, then the text. */
  lemma ServerFrameParts(text: Text, rest: Text)
    requires Framable(text)
    ensures var b := WsFrame(text) + rest;
            var ext := if |text| <= 125 then 0 else if |text| <= 0xffff then 2 else 8;
            && |WsFrame(text)| == 2 + ext + |text| && b[0] == 0x81
            && b[1] as nat == (if ext == 0 then |text| else if ext == 2 then 126 else 127)
            && (ext > 0 ==> FromBE(b[2..2 + ext]) == |text|)
            && b[2 + ext..2 + ext + |text|] == text
  {
    var b := WsFrame(text) + rest;
    Pow256Values();
    if |text| > 125 {
      var ext := if |text| <= 0xffff then 2 else 8;
      assert b[2..2 + ext] == ToBE(|text|, ext);
      BERoundTrip(|text|, ext);
    }
  }

  /** What the server prints is one final, unmasked text frame with the shortest length. */
  lemma ServerFrame(text: Text, rest: Text)
    requires Framable(text)
    ensures Read52(WsFrame(text) + rest) == Some((Frame(true, 0, 1, false, text), |WsFrame(text)|))
  {
    ServerFrameParts(text, rest);
  }

  function ServerStream(ts: seq<Text>): Text {
    if ts == [] then [] else WsFrame(ts[0]) + ServerStream(ts[1..])
  }

  /** The texts of a stream of frames, for a reader that follows section 5.2. */
  function ReadTexts(b: Text): Option<seq<Text>>
    decreases |b|
  {
    if b == [] then Some([]) else
      match Read52(b)
      case None => None
      case Some(read) =>
        var (frame, used) := read;
        match ReadTexts(b[used..])
        case None => None
        case Some(ts) => Some([frame.text] + ts)
  }

  lemma ReadOne(frame: Text, rest: Text, text: Text)
    requires frame != [] && Read52(frame + rest) == Some((Frame(true, 0, 1, false, text), |frame|)) && ReadTexts(rest).Some?
    ensures ReadTexts(frame + rest) == Some([text] + ReadTexts(rest).value)
  {
    assert (frame + rest)[|frame|..] == rest;
  }

  /** Such a reader gets the texts back. */
  lemma {:induction false} ServerRoundTrip(ts: seq<Text>)
    requires forall t <- ts :: Framable(t)
    ensures ReadTexts(ServerStream(ts)) == Some(ts)
    decreases |ts|
  {
    if ts != [] {
      assert Framable(ts[0]);
      var rest := ServerStream(ts[1..]);
      ServerFrame(ts[0], rest);
      ServerRoundTrip(ts[1..]);
      ReadOne(WsFrame(ts[0]), rest, ts[0]);
      assert [ts[0]] + ts[1..] == ts;
    }
  }

  /** Hence no two lists of texts give the same stream. */
  lemma ServerStreamUnique(ts: seq<Text>, us: seq<Text>)
    requires (forall t <- ts :: Framable(t)) && (forall u <- us :: Framable(u))
    requires ServerStream(ts) == ServerStream(us)
    ensures ts == us
  {
    ServerRoundTrip(ts);
    ServerRoundTrip(us);
  }
}
