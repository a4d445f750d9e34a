/**
 The two framings of events: 8-byte lengths on raw sockets, and WebSocket frames.
 */
module Frames {
  import opened Options
  import opened Bytes

  const COLON: Byte := 58
  const EQUALS: Byte := 61

  /** An event as handed to the router. */
  datatype Event = Event(path: Text, cb: nat, json: Text)

  /** Why a parser gives up on a client. */
  datatype Reason = CloseFrame | BadOpcode | NoMask | NotUtf8 | BadFormat | TooLong

  /** What a parser makes of the start of a buffer: not enough yet, hopeless, or an event
      and the number of bytes it took. */
  datatype Parsed = Again | Fatal(reason: Reason) | Ok(ev: Event, used: nat)

  /** The UTF-8 validator of the library, which this model leaves open. */
  type Validator = Text -> bool

  // ----- events -----

  /** An event is `path:callback=json`, where the callback is a decimal number. */
  function Handle(text: Text): Option<Event> {
    var c := Find(text, COLON);
    if c == |text| then None else
      var rest := text[c + 1..];
      var n := DigitRun(rest);
      if n == 0 || n == |rest| || rest[n] != EQUALS || Number(rest[..n]) > MAX64 then None
      else Some(Event(text[..c], Number(rest[..n]), rest[n + 1..]))
  }

  function Format(path: Text, extra: Text, cb: nat, json: Text): Text {
    path + extra + [COLON] + Digits(cb) + [EQUALS] + json
  }

  // ----- raw frames -----

  function RawParse(b: Text): Parsed {
    if |b| < 8 then Again else
      var len := FromBE(b[..8]);
      if len + 8 > MAX64 then Fatal(TooLong)
      else if |b| < len + 8 then Again
      else match Handle(CString(b[8..8 + len]))
           case None => Fatal(BadFormat)
           case Some(ev) => Ok(ev, len + 8)
  }

  function RawFrame(path: Text, extra: Text, cb: nat, json: Text): Text {
    var text := Format(path, extra, cb, json);
    ToBE(|text|, 8) + text
  }

  // ----- WebSocket frames -----

  /** Section 5.3 of RFC 6455: octet `i` is combined with octet `i` modulo 4 of the key. */
  function Unmask(s: Text, key: Text): (r: Text)
    requires |key| == 4
    ensures |r| == |s|
  {
    seq(|s|, i requires 0 <= i < |s| => Xor(s[i], key[i % 4]))
  }

  datatype Decoded = More | Bad(reason: Reason) | Payload(text: Text, used: nat)

  function HeaderLength(l: nat): nat { if l <= 125 then 6 else if l == 126 then 8 else 14 }

  function PayloadLength(b: Text): nat
    requires |b| >= 2 && |b| >= HeaderLength(b[1] as nat % 128)
  {
    var l := b[1] as nat % 128;
    if l <= 125 then l else if l == 126 then FromBE(b[2..4]) else FromBE(b[2..10])
  }

  function Decode(utf8: Validator, b: Text): Decoded {
    if |b| > 0 && b[0] % 16 == 8 then Bad(CloseFrame)
    else if |b| < 6 then More
    else if b[0] % 16 != 1 then Bad(BadOpcode)
    else if b[1] < 128 then Bad(NoMask)
    else DecodeRest(utf8, b)
  }

  function DecodeRest(utf8: Validator, b: Text): Decoded
    requires |b| >= 6
  {
    var header := HeaderLength(b[1] as nat % 128);
    if |b| < header then More else
      var len := PayloadLength(b);
      if header + len > MAX64 then Bad(TooLong)
      else if |b| < header + len then More
      else
        var text := Unmask(b[header..header + len], b[header - 4..header]);
        if utf8(text) then Payload(text, header + len) else Bad(NotUtf8)
  }

  function WsParse(utf8: Validator, b: Text): Parsed {
    match Decode(utf8, b)
    case More => Again
    case Bad(reason) => Fatal(reason)
    case Payload(text, used) =>
      match Handle(CString(text))
      case None => Fatal(BadFormat)
      case Some(ev) => Ok(ev, used)
  }

  function WsFrame(text: Text): Text {
    [0x81]
    + (if |text| <= 125 then [|text| as Byte]
       else if |text| <= 0xffff then [126] + ToBE(|text|, 2)
       else [127] + ToBE(|text|, 8))
    + text
  }

  // ----- both -----

  datatype Protocol = Raw | WebSocket(utf8: Validator)

  function Parse(p: Protocol, b: Text): Parsed {
    match p
    case Raw => RawParse(b)
    case WebSocket(utf8) => WsParse(utf8, b)
  }

  /** A parser takes something, and no more than there is. */
  lemma ParseProgress(p: Protocol, b: Text)
    ensures Parse(p, b).Ok? ==> 0 < Parse(p, b).used <= |b|
  {
  }

  lemma PrefixSlice(b: Text, x: Text, i: nat, j: nat)
    requires i <= j <= |b|
    ensures (b + x)[i..j] == b[i..j]
  {
  }

  lemma RawStable(b: Text, x: Text)
    requires !RawParse(b).Again?
    ensures RawParse(b + x) == RawParse(b)
  {
    PrefixSlice(b, x, 0, 8);
    var len := FromBE(b[..8]);
    if len + 8 <= |b| {
      PrefixSlice(b, x, 8, 8 + len);
    }
  }

  lemma DecodeStable(utf8: Validator, b: Text, x: Text)
    requires !Decode(utf8, b).More?
    ensures Decode(utf8, b + x) == Decode(utf8, b)
  {
    if b[0] % 16 == 1 && b[1] >= 128 {
      var header := HeaderLength(b[1] as nat % 128);
      PrefixSlice(b, x, 2, 4);
      if header == 14 { PrefixSlice(b, x, 2, 10); }
      PrefixSlice(b, x, header - 4, header);
      var len := PayloadLength(b);
      assert PayloadLength(b + x) == len;
      if header + len <= |b| {
        PrefixSlice(b, x, header, header + len);
      }
    }
  }

  /** What a parser has decided it does not change its mind about, whatever comes next. */
  lemma ParseStable(p: Protocol, b: Text, x: Text)
    requires !Parse(p, b).Again?
    ensures Parse(p, b + x) == Parse(p, b)
  {
    match p
    case Raw => RawStable(b, x);
    case WebSocket(utf8) => DecodeStable(utf8, b, x);
  }
}
