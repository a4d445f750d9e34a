/**
 How events are printed: text is appended to buffers, piece by piece.
 */
module FramePrinters {
  import opened Options
  import opened Bytes
  import opened Frames
  import opened Streams

  method RawFormat(path: Text, extra: Text, cb: nat, json: Text) returns (buff: Text)
    ensures buff == Format(path, extra, cb, json)
    ensures Printable(Message(path, extra, cb, json)) ==> Handle(buff) == Some(Event(path + extra, cb, json))
  {
    buff := path;
    buff := buff + extra;
    buff := buff + [COLON];
    var digits := AppendUint(cb);
    buff := buff + digits;
    buff := buff + [EQUALS];
    buff := buff + json;
    if Printable(Message(path, extra, cb, json)) {
      HandleFormat(Message(path, extra, cb, json));
    }
  }

  /** The decimal digits of a number, last one first. */
  method AppendUint(n: nat) returns (s: Text)
    ensures s == Digits(n)
  {
    var rest := n;
    s := [];
    while rest >= 10
      invariant Digits(n) == Digits(rest) + s
    {
      s := [(48 + rest % 10) as Byte] + s;
      rest := rest / 10;
    }
    s := [(48 + rest) as Byte] + s;
  }

  /** The frame of a raw client; whatever follows it, it is parsed to the event that went in. */
  method RawFrameOf(path: Text, extra: Text, cb: nat, json: Text) returns (def: Text)
    ensures def == RawFrame(path, extra, cb, json)
    ensures Printable(Message(path, extra, cb, json)) ==>
              forall rest {:trigger def + rest} :: RawParse(def + rest) == Ok(Event(path + extra, cb, json), |def|)
  {
    def := RawFormat(path, extra, cb, json);
    var size := ToBE(|def|, 8);
    def := size + def;
    var m := Message(path, extra, cb, json);
    if Printable(m) {
      forall rest ensures RawParse(def + rest) == Ok(Event(path + extra, cb, json), |def|) {
        RawParseFrame(m, rest);
      }
    }
  }

  /** The frame of a WebSocket client; a reader that follows section 5.2 of RFC 6455 finds in it
      one final, unmasked text frame. */
  method WsFrameOf(path: Text, extra: Text, cb: nat, json: Text) returns (def: Text)
    ensures def == WsFrame(Format(path, extra, cb, json))
    ensures Framable(Format(path, extra, cb, json)) ==>
              Read52(def) == Some((Frame(true, 0, 1, false, Format(path, extra, cb, json)), |def|))
  {
    var raw := RawFormat(path, extra, cb, json);
    def := [0x81];
    if |raw| <= 125 {
      def := def + [|raw| as Byte];
    } else if |raw| <= 0xffff {
      def := def + [126];
      def := def + ToBE(|raw|, 2);
    } else {
      def := def + [127];
      def := def + ToBE(|raw|, 8);
    }
    def := def + raw;
    if Framable(raw) {
      ServerFrame(raw, []);
      assert WsFrame(raw) + [] == WsFrame(raw);
    }
  }
}
