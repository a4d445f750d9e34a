/**
 What the framings are in bytes and characters: the examples of RFC 6455, where a frame ends,
 and which texts are events.
 */
module FrameLaws {
  import opened Options
  import opened Bytes
  import opened Frames
  import opened Streams

  // ----- characters -----

  lemma Characters(b: Byte)
    ensures COLON as char == ':' && EQUALS as char == '='
    ensures IsDigit(b) <==> '0' <= b as char <= '9'
  {
  }

  /** A text that consists of these parts. */
  predicate MadeOf(text: Text, ev: Event, digits: Text) {
    && IsNumber(digits) && ev.cb == Number(digits) <= MAX64
    && COLON !in ev.path && text == ev.path + [COLON] + digits + [EQUALS] + ev.json
  }

  lemma HandleFacts(text: Text)
    requires Handle(text).Some?
    ensures var c := Find(text, COLON);
            && c < |text| && text[c] == COLON && COLON !in text[..c]
            && var rest := text[c + 1..];
               var n := DigitRun(rest);
               && 0 < n < |rest| && rest[n] == EQUALS && IsNumber(rest[..n]) && Number(rest[..n]) <= MAX64
               && Handle(text).value == Event(text[..c], Number(rest[..n]), rest[n + 1..])
  {
  }

  lemma Reassembled(text: Text, c: nat, n: nat)
    requires c < |text| && n < |text[c + 1..]|
    ensures var rest := text[c + 1..];
            text == text[..c] + [text[c]] + rest[..n] + [rest[n]] + rest[n + 1..]
  {
    var rest := text[c + 1..];
    SplitAt(text, c);
    SplitAt(rest, n);
    Regrouped(text[..c], [text[c]], rest[..n], [rest[n]], rest[n + 1..]);
  }

  lemma HandledParts(text: Text) returns (digits: Text)
    requires Handle(text).Some?
    ensures MadeOf(text, Handle(text).value, digits)
  {
    HandleFacts(text);
    var c := Find(text, COLON);
    var rest := text[c + 1..];
    var n := DigitRun(rest);
    Reassembled(text, c, n);
    digits := rest[..n];
  }

  lemma SplitAt(s: Text, i: nat)
    requires i < |s|
    ensures s == s[..i] + ([s[i]] + s[i + 1..])
  {
  }

  lemma Regrouped(a: Text, b: Text, c: Text, d: Text, e: Text)
    ensures a + (b + (c + (d + e))) == a + b + c + d + e
  {
  }

  /** A text is an event exactly if it is a path without a colon, a colon, a decimal number that
      fits 64 bits, an equals sign and the rest; and then these are its parts. */
  lemma HandleExactly(text: Text, ev: Event)
    ensures Handle(text) == Some(ev) <==> exists digits :: MadeOf(text, ev, digits)
  {
    if Handle(text) == Some(ev) {
      var digits := HandledParts(text);
    }
    forall digits | MadeOf(text, ev, digits) ensures Handle(text) == Some(ev) {
      HandleParts(ev.path, digits, ev.json);
    }
  }

  predicate IsNumber(s: Text) { s != [] && forall i :: 0 <= i < |s| ==> IsDigit(s[i]) }

  // ----- section 5.7 of RFC 6455 -----

  const HELLO: Text := [0x48, 0x65, 0x6c, 0x6c, 0x6f]

  const HELLO_KEY: Text := [0x37, 0xfa, 0x21, 0x3d]
  const HELLO_MASKED: Text := [0x7f, 0x9f, 0x4d, 0x51, 0x58]

  lemma BitsH()
    ensures XorBits(0x7f, 0x37, 8) == 0x48
  {
    assert XorBits(1, 0, 2) == 1;
    assert XorBits(7, 3, 4) == 4;
    assert XorBits(31, 13, 6) == 18;
  }

  lemma BitsE()
    ensures XorBits(0x9f, 0xfa, 8) == 0x65
  {
    assert XorBits(2, 3, 2) == 1;
    assert XorBits(9, 15, 4) == 6;
    assert XorBits(39, 62, 6) == 25;
  }

  lemma BitsL()
    ensures XorBits(0x4d, 0x21, 8) == 0x6c
  {
    assert XorBits(1, 0, 2) == 1;
    assert XorBits(4, 2, 4) == 6;
    assert XorBits(19, 8, 6) == 27;
  }

  lemma BitsSecondL()
    ensures XorBits(0x51, 0x3d, 8) == 0x6c
  {
    assert XorBits(1, 0, 2) == 1;
    assert XorBits(5, 3, 4) == 6;
    assert XorBits(20, 15, 6) == 27;
  }

  lemma BitsO()
    ensures XorBits(0x58, 0x37, 8) == 0x6f
  {
    assert XorBits(1, 0, 2) == 1;
    assert XorBits(5, 3, 4) == 6;
    assert XorBits(22, 13, 6) == 27;
  }

  lemma XorIs(a: Byte, b: Byte, r: Byte)
    requires XorBits(a as nat, b as nat, 8) == r as nat
    ensures Xor(a, b) == r
  {
  }

  lemma UnmaskedFive(s: Text, key: Text, t: Text)
    requires |s| == |t| == 5 && |key| == 4
    requires Xor(s[0], key[0]) == t[0] && Xor(s[1], key[1]) == t[1] && Xor(s[2], key[2]) == t[2]
    requires Xor(s[3], key[3]) == t[3] && Xor(s[4], key[0]) == t[4]
    ensures Unmask(s, key) == t
  {
    forall i | 0 <= i < 5 ensures Unmask(s, key)[i] == t[i] {
      assert i % 4 == if i == 4 then 0 else i;
    }
  }

  lemma HelloUnmasked()
    ensures Unmask(HELLO_MASKED, HELLO_KEY) == HELLO
  {
    BitsH(); BitsE(); BitsL(); BitsSecondL(); BitsO();
    XorIs(0x7f, 0x37, 0x48);
    XorIs(0x9f, 0xfa, 0x65);
    XorIs(0x4d, 0x21, 0x6c);
    XorIs(0x51, 0x3d, 0x6c);
    XorIs(0x58, 0x37, 0x6f);
    UnmaskedFive(HELLO_MASKED, HELLO_KEY, HELLO);
  }

  /** A single-frame masked text message. */
  lemma MaskedHello(utf8: Validator, rest: Text)
    requires utf8(HELLO)
    ensures Decode(utf8, [0x81, 0x85] + HELLO_KEY + HELLO_MASKED + rest) == Payload(HELLO, 11)
  {
    var b := [0x81, 0x85] + HELLO_KEY + HELLO_MASKED + rest;
    HelloUnmasked();
    assert b[2..6] == HELLO_KEY && b[6..11] == HELLO_MASKED;
  }

  /** A single-frame unmasked text message, and the headers of 256 bytes and of 64 KiB. */
  lemma UnmaskedHello(t: Text)
    ensures WsFrame(HELLO) == [0x81, 0x05, 0x48, 0x65, 0x6c, 0x6c, 0x6f]
    ensures |t| == 256 ==> WsFrame(t) == [0x81, 0x7e, 0x01, 0x00] + t
    ensures |t| == 0x1_0000 ==> WsFrame(t) == [0x81, 0x7f, 0, 0, 0, 0, 0, 1, 0, 0] + t
  {
    Sizes();
  }

  lemma Sizes()
    ensures ToBE(256, 2) == [1, 0] && ToBE(0x1_0000, 8) == [0, 0, 0, 0, 0, 1, 0, 0]
  {
  }

  // ----- where frames end -----

  /** Nothing is decided before the last byte of a raw frame is there, and all is then. */
  lemma RawFrameEnds(text: Text, i: nat, rest: Text)
    requires |text| + 8 <= MAX64
    ensures var frame := ToBE(|text|, 8) + text;
            && (i < |frame| ==> RawParse(frame[..i]).Again?)
            && RawParse(frame + rest) == match Handle(CString(text))
                                         case None => Fatal(BadFormat)
                                         case Some(ev) => Ok(ev, |frame|)
  {
    var size := ToBE(|text|, 8);
    var frame := size + text;
    Pow256Values();
    BERoundTrip(|text|, 8);
    assert (frame + rest)[..8] == size && (frame + rest)[8..8 + |text|] == text;
    if 8 <= i < |frame| {
      assert frame[..i][..8] == size;
    }
  }

  /** A length that leaves no room for itself in 64 bits is refused. */
  lemma RawTooLong(b: Text)
    requires |b| >= 8 && FromBE(b[..8]) > 0xffff_ffff_ffff_ffff - 8
    ensures RawParse(b) == Fatal(TooLong)
  {
  }

  /** Nothing is decided before the last byte of a masked text frame is there, and all is then. */
  lemma WsFrameEnds(utf8: Validator, first: Byte, form: Form, key: Text, text: Text, i: nat, rest: Text)
    requires |key| == 4 && Fits(form, |text|) && first % 16 == 1
    ensures var frame := MaskedFrame(first, form, key, text);
            && (i < |frame| ==> Decode(utf8, frame[..i]).More?)
            && Decode(utf8, frame + rest) == if utf8(text) then Payload(text, |frame|) else Bad(NotUtf8)
  {
    var frame := MaskedFrame(first, form, key, text);
    MaskedFrameParts(first, form, key, text, rest);
    UnmaskTwice(text, key);
    if i < |frame| {
      var any: Validator := _ => true;
      DecodeMasked(any, first, form, key, text, []);
      MaskedFrameSize(first, form, key, text);
      assert frame[..i] + frame[i..] == frame == frame + [];
      if !Decode(any, frame[..i]).More? {
        DecodeStable(any, frame[..i], frame[i..]);
      }
    }
  }

  /** Frames that are not masked text close the client, each for its reason. */
  lemma WsRefusals(utf8: Validator, b: Text)
    ensures |b| >= 1 && b[0] as nat % 16 == 8 ==> Decode(utf8, b) == Bad(CloseFrame)
    ensures |b| >= 6 && b[0] as nat % 16 != 8 && b[0] as nat % 16 != 1 ==> Decode(utf8, b) == Bad(BadOpcode)
    ensures |b| >= 6 && b[0] as nat % 16 == 1 && b[1] < 0x80 ==> Decode(utf8, b) == Bad(NoMask)
    ensures |b| < 6 && (b == [] || b[0] as nat % 16 != 8) ==> Decode(utf8, b) == More
  {
  }

  lemma ClientHeader(form: Form, key: Text, text: Text, rest: Text)
    requires |key| == 4 && Fits(form, |text|)
    ensures var b := MaskedFrame(0x81, form, key, text) + rest;
            && b[0] == 0x81 && |b| >= HeaderOf(form) + |text|
            && match form
               case Short => b[1] as nat == 128 + |text|
               case Medium => b[1] == 254 && FromBE(b[2..4]) == |text|
               case Long => b[1] == 255 && FromBE(b[2..10]) == |text|
  {
    var b := MaskedFrame(0x81, form, key, text) + rest;
    Pow256Values();
    match form
    case Short =>
    case Medium =>
      assert b[2..4] == ToBE(|text|, 2);
      BERoundTrip(|text|, 2);
    case Long =>
      assert b[2..10] == ToBE(|text|, 8);
      BERoundTrip(|text|, 8);
  }

  lemma ReadMasked(b: Text, ext: nat, key: Text, raw: Text)
    requires |key| == 4 && |b| >= 2 + ext + 4 + |raw| && b[0] == 0x81 && b[1] >= 128
    requires ext == (if |raw| <= 125 then 0 else if |raw| <= 0xffff then 2 else 8) && |raw| < 0x8000_0000_0000_0000
    requires b[2 + ext..6 + ext] == key && b[6 + ext..6 + ext + |raw|] == raw
    ensures ReadAt(b, ext, |raw|) == Some((FrameWith(0x81, true, key, raw), 6 + ext + |raw|))
  {
  }

  /** A client's frame, in its shortest form, is what a reader that follows section 5.2 of RFC 6455
      takes for a masked text frame with that text. */
  lemma ClientFrame(form: Form, key: Text, text: Text, rest: Text)
    requires |key| == 4 && Fits(form, |text|) && |text| < 0x8000_0000_0000_0000
    requires form == if |text| <= 125 then Short else if |text| <= 0xffff then Medium else Long
    ensures Read52(MaskedFrame(0x81, form, key, text) + rest)
         == Some((Frame(true, 0, 1, true, text), |MaskedFrame(0x81, form, key, text)|))
  {
    var b := MaskedFrame(0x81, form, key, text) + rest;
    MaskedFrameParts(0x81, form, key, text, rest);
    ClientHeader(form, key, text, rest);
    UnmaskTwice(text, key);
    ReadMasked(b, HeaderOf(form) - 6, key, Unmask(text, key));
  }

  // ----- what follows a malformed frame -----

  /** The events before a malformed frame are routed, and the client is closed for its format. */
  lemma {:induction false} MalformedCloses(ms: seq<Message>, text: Text, rest: Text)
    requires forall m <- ms :: Printable(m)
    requires |text| + 8 <= MAX64 && Handle(CString(text)) == None
    ensures IsParser(ParserOf(Raw))
    ensures Run(ParserOf(Raw), RawStream(ms) + (ToBE(|text|, 8) + text + rest)) == Outcome(EventsOf(ms), [], Some(BadFormat))
    decreases |ms|
  {
    ProtocolsAreParsers(Raw);
    var bad := ToBE(|text|, 8) + text + rest;
    if ms == [] {
      RawFrameEnds(text, 0, rest);
      assert RawStream(ms) + bad == bad;
    } else {
      var m, more := ms[0], RawStream(ms[1..]);
      assert Printable(m);
      MalformedCloses(ms[1..], text, rest);
      OneMore(m, more + bad);
      Associative(FrameOf(m), more, bad);
    }
  }

  lemma OneMore(m: Message, more: Text)
    requires Printable(m) && IsParser(ParserOf(Raw))
    ensures var o := Run(ParserOf(Raw), more);
            Run(ParserOf(Raw), FrameOf(m) + more) == o.(events := [EventOf(m)] + o.events)
  {
    RawParseFrame(m, more);
    RunOne(ParserOf(Raw), FrameOf(m), more, EventOf(m));
  }
}
