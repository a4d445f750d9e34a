/**
 The read buffer of a client, the frame parsers that rewrite it in place, and the loop that
 drives them.
 */
module ReadBuffer {
  import opened Options
  import opened Bytes
  import opened Frames
  import opened Streams

  datatype Status = OK | AGAIN | FATAL

  // ----- the wide masks -----

  /** Octets `i` to `i + n` of the key, repeated for ever. */
  function Cycle(key: Text, i: nat, n: nat): (m: Text)
    requires |key| == 4
    ensures |m| == n
  {
    seq(n, k requires 0 <= k < n => key[(i + k) % 4])
  }

  /** One wide exclusive or. */
  function XorWord(w: Text, mask: Text): (r: Text)
    requires |w| == |mask|
    ensures |r| == |w|
  {
    seq(|w|, k requires 0 <= k < |w| => Xor(w[k], mask[k]))
  }

  lemma ModFour(j: nat, k: nat)
    ensures (4 * j + k) % 4 == k % 4
  {
  }

  lemma Mask128(key: Text, i: nat, j: nat)
    requires |key| == 4 && i == 4 * j
    ensures key + key + key + key == Cycle(key, i, 16)
    ensures (key + key + key + key)[..8] == Cycle(key, i, 8)
  {
    var m := key + key + key + key;
    forall k | 0 <= k < 16 ensures m[k] == Cycle(key, i, 16)[k] {
      ModFour(j, k);
      assert m[k] == key[k % 4];
    }
    forall k | 0 <= k < 8 ensures m[..8][k] == Cycle(key, i, 8)[k] {
      assert Cycle(key, i, 8)[k] == Cycle(key, i, 16)[k];
    }
  }

  /** The buffer when the first `i` bytes of a payload of `b` have been decoded to `offset`. */
  function Unmasked(b: Text, offset: nat, header: nat, key: Text, i: nat): (r: Text)
    requires |key| == 4 && offset + header + i <= |b|
    ensures |r| == |b|
  {
    seq(|b|, k requires 0 <= k < |b| =>
      if offset <= k < offset + i then Xor(b[header + k], key[(k - offset) % 4]) else b[k])
  }

  /** What one wide step leads to. */
  ghost predicate NextWord(b: Text, now: Text, next: Text, to: nat, from: nat, mask: Text) {
    && |now| == |next| == |b| && to + |mask| <= |b| && from + |mask| <= |b|
    && now[from..from + |mask|] == b[from..from + |mask|]
    && (forall k :: 0 <= k < |mask| ==> next[to + k] == Xor(b[from + k], mask[k]))
    && (forall k :: 0 <= k < to || to + |mask| <= k < |b| ==> now[k] == next[k])
  }

  lemma StepWord(b: Text, now: Text, next: Text, to: nat, from: nat, mask: Text)
    requires NextWord(b, now, next, to, from, mask)
    ensures Stored(now, to, XorWord(now[from..from + |mask|], mask)) == next
  {
    var w := XorWord(now[from..from + |mask|], mask);
    forall k | 0 <= k < |mask| ensures w[k] == next[to + k] {
      assert now[from..from + |mask|][k] == b[from..from + |mask|][k] == b[from + k];
    }
    StoredIs(now, to, w, next);
  }

  /** A word that has not been written yet is read as it was. */
  lemma WordIntact(b: Text, offset: nat, header: nat, key: Text, i: nat, n: nat)
    requires |key| == 4 && offset + header + i + n <= |b|
    ensures var str := offset + header + i; Unmasked(b, offset, header, key, i)[str..str + n] == b[str..str + n]
  {
  }

  /** Decoding it and writing it back behind the read position is one more step. */
  lemma DecodeWord(b: Text, offset: nat, header: nat, key: Text, i: nat, mask: Text)
    requires |key| == 4 && offset + header + i + |mask| <= |b| && mask == Cycle(key, i, |mask|)
    ensures NextWord(b, Unmasked(b, offset, header, key, i), Unmasked(b, offset, header, key, i + |mask|),
                     offset + i, offset + header + i, mask)
  {
    WordIntact(b, offset, header, key, i, |mask|);
  }

  lemma NothingYet(b: Text, offset: nat, header: nat, key: Text)
    requires |key| == 4 && offset + header <= |b|
    ensures Unmasked(b, offset, header, key, 0) == b
  {
  }

  /** The decoded payload with its NUL, in place of the frame's first bytes. */
  lemma WholePayload(b: Text, offset: nat, header: nat, key: Text, size: nat)
    requires |key| == 4 && 0 < header && offset + header + size <= |b|
    ensures var text := Unmask(b[offset + header..offset + header + size], key);
            Stored(Unmasked(b, offset, header, key, size), offset + size, [0]) == Stored(b, offset, text + [0])
  {
    var text := Unmask(b[offset + header..offset + header + size], key);
    var l := Stored(Unmasked(b, offset, header, key, size), offset + size, [0]);
    var r := Stored(b, offset, text + [0]);
    forall k | 0 <= k < |b| ensures l[k] == r[k] {
      if offset <= k < offset + size {
        assert r[k] == text[k - offset];
      }
    }
  }

  /** Nothing has changed outside a frame. */
  ghost predicate Outside(b: Text, now: Text, offset: nat, frame: nat) {
    && |now| == |b| && offset + frame <= |b|
    && now[..offset] == b[..offset] && now[offset + frame..] == b[offset + frame..]
  }

  lemma StoredOutside(b: Text, offset: nat, w: Text, frame: nat)
    requires |w| <= frame && offset + frame <= |b|
    ensures Outside(b, Stored(b, offset, w), offset, frame)
  {
  }

  lemma StoredAt(b: Text, offset: nat, text: Text, len: nat)
    requires offset + |text| < len < |b|
    ensures var r := Stored(b, offset, text + [0]);
            r[offset..offset + |text|] == text && r[offset + |text|] == 0 && r[len] == b[len]
  {
  }

  lemma StoredTwice(b: Text, offset: nat, text: Text)
    requires offset + |text| < |b|
    ensures Stored(Stored(b, offset, text), offset + |text|, [0]) == Stored(b, offset, text + [0])
  {
    StoredIs(Stored(b, offset, text), offset + |text|, [0], Stored(b, offset, text + [0]));
  }

  lemma OutsideMore(a: Text, b: Text, c: Text, offset: nat, less: nat, more: nat)
    requires Outside(a, b, offset, more) && Outside(b, c, offset, less) && less <= more
    ensures Outside(a, c, offset, more)
  {
    assert c[offset + more..] == c[offset + less..][more - less..];
    assert b[offset + more..] == b[offset + less..][more - less..];
  }

  lemma OutsideRest(b: Text, now: Text, offset: nat, frame: nat, len: nat)
    requires Outside(b, now, offset, frame) && offset + frame <= len < |b|
    ensures now[offset + frame..len] == b[offset..len][frame..] && now[len] == b[len]
  {
    assert now[offset + frame..len] == now[offset + frame..][..len - offset - frame];
    assert b[offset..len][frame..] == b[offset + frame..][..len - offset - frame];
    assert now[len] == now[offset + frame..][len - offset - frame];
  }

  function ParsedText(text: Text, used: nat): Parsed {
    match Handle(CString(text))
    case None => Fatal(BadFormat)
    case Some(ev) => Ok(ev, used)
  }

  /** What becomes of a raw frame whose length has been read. */
  lemma RawParts(b: Text, len: nat, offset: nat, digits: Text, size: nat)
    requires offset + 8 <= len <= |b| && digits == b[offset..offset + 8] && size == FromBE(digits)
    ensures RawParse(b[offset..len])
         == if size + 8 > MAX64 then Fatal(TooLong) else if len - offset < size + 8 then Again
            else ParsedText(b[offset + 8..offset + 8 + size], size + 8)
  {
    Window(b, len, offset, 0, 8);
    var c := b[offset..len];
    assert c[..8] == c[0..8] && |c| == len - offset;
    if size + 8 <= len - offset {
      Window(b, len, offset, 8, 8 + size);
      assert c[8..8 + size] == b[offset + 8..offset + 8 + size];
    }
  }

  /** What comes after the events that are done. */
  ghost function Continue(done: seq<Event>, o: Outcome): Outcome { o.(events := done + o.events) }

  lemma RunStep(parse: Text -> Parsed, b: Text, done: seq<Event>)
    requires IsParser(parse)
    ensures parse(b).Again? ==> Continue(done, Run(parse, b)) == Outcome(done, b, None)
    ensures parse(b).Fatal? ==> Continue(done, Run(parse, b)) == Outcome(done, [], Some(parse(b).reason))
    ensures parse(b).Ok? ==> Continue(done, Run(parse, b)) == Continue(done + [parse(b).ev], Run(parse, b[parse(b).used..]))
  {
    var d := parse(b);
    match d
    case Again => assert done + [] == done;
    case Fatal(_) => assert done + [] == done;
    case Ok(ev, used) =>
      var rest := Run(parse, b[used..]);
      assert done + ([ev] + rest.events) == (done + [ev]) + rest.events;
  }

  /** What is returned of a frame. */
  predicate DecodedAs(d: Decoded, status: Status, size: nat, frame: nat) {
    match d
    case More => status == AGAIN
    case Bad(_) => status == FATAL
    case Payload(text, used) => status == OK && size == |text| && frame == used
  }

  /** What a parser does when it gives up: it closes the client, except over a length that no
      64-bit number holds, which it leaves to the read loop. */
  function Closing(closed: Option<Reason>, reason: Reason): Option<Reason> {
    if closed.Some? || reason == TooLong then closed else Some(reason)
  }

  lemma Window(b: Text, len: nat, offset: nat, x: nat, y: nat)
    requires x <= y && offset + y <= len <= |b|
    ensures b[offset..len][x..y] == b[offset + x..offset + y]
  {
    forall k | 0 <= k < y - x ensures b[offset..len][x..y][k] == b[offset + x..offset + y][k] { }
  }

  /** What becomes of a frame whose header has been read. */
  lemma RestParts(utf8: Validator, b: Text, len: nat, offset: nat, header: nat, size: nat, key: Text)
    requires offset + 6 <= len <= |b|
    requires var c := b[offset..len];
             header == HeaderLength(c[1] as nat % 128) <= |c| && size == PayloadLength(c) && key == c[header - 4..header]
    ensures DecodeRest(utf8, b[offset..len])
         == if header + size > MAX64 then Bad(TooLong) else if len - offset < header + size then More
            else var text := Unmask(b[offset + header..offset + header + size], key);
                 if utf8(text) then Payload(text, header + size) else Bad(NotUtf8)
  {
    if header + size <= len - offset {
      Window(b, len, offset, header, header + size);
    }
  }

  lemma CycleByte(key: Text, i: nat)
    requires |key| == 4
    ensures [key[i % 4]] == Cycle(key, i, 1)
  {
  }

  // ----- the buffer -----

  class Connection {
    const protocol: Protocol
    /** `rbuff`: `len` bytes, and a NUL after them. */
    var buf: array<Byte>
    var len: nat
    /** The events handed to `evs_route`. */
    var routed: seq<Event>
    var closed: Option<Reason>
    /** Whether the timeout for the rest of a frame is set. */
    var timeout: bool

    ghost predicate Valid()
      reads this, buf
    {
      len < buf.Length && buf[len] == 0
    }

    ghost function Contents(): Text
      reads this, buf
      requires Valid()
    {
      buf[..len]
    }

    ghost function Rest(used: nat): Text
      reads this, buf
      requires Valid() && used <= len
    {
      buf[used..len]
    }

    /** What has come of the stream so far. */
    ghost function View(): Outcome
      reads this, buf
      requires Valid()
    {
      Outcome(routed, if closed.None? then Contents() else [], closed)
    }

    constructor (p: Protocol)
      ensures Valid() && fresh(buf) && protocol == p
      ensures View() == Outcome([], [], None) && !timeout
    {
      protocol := p;
      buf := new Byte[1](_ => 0);
      len, routed, closed, timeout := 0, [], None, false;
    }

    /** Closing is for good, and the first reason stays. */
    method QevClose(reason: Reason)
      modifies this`closed
      ensures closed == if old(closed).Some? then old(closed) else Some(reason)
    {
      if closed.None? {
        closed := Some(reason);
      }
    }

    function Load(at: nat, n: nat): (w: Text)
      reads this, buf
      requires at + n <= buf.Length
      ensures w == buf[..][at..at + n]
    {
      buf[at..at + n]
    }

    /** Stores bytes that are already in a register. */
    method Store(at: nat, w: Text)
      requires at + |w| <= buf.Length
      modifies buf
      ensures buf[..] == Stored(old(buf[..]), at, w)
    {
      forall k | at <= k < at + |w| {
        buf[k] := w[k - at];
      }
    }

    method Memmove(to: nat, from: nat, n: nat)
      requires to + n <= buf.Length && from + n <= buf.Length
      modifies buf
      ensures buf[..] == Stored(old(buf[..]), to, old(buf[..])[from..from + n])
    {
      var word := Load(from, n);
      Store(to, word);
    }

    /** `g_string_erase` from the front. */
    method Erase(used: nat)
      requires Valid() && used <= len
      modifies this`len, buf
      ensures Valid() && Contents() == old(Rest(used))
    {
      Memmove(0, used, len - used + 1);
      ghost var now := buf[..];
      assert now[len - used] == 0;
      len := len - used;
      assert buf[..len] == now[..len];
    }

    /** What a read does: the bytes go at the end of the buffer, which grows if it must. */
    method Append(chunk: Text)
      requires Valid()
      modifies this`len, this`buf, buf
      ensures Valid() && (buf == old(buf) || fresh(buf))
      ensures Contents() == old(Contents()) + chunk
    {
      var n := len + |chunk|;
      if buf.Length <= n {
        var wider := new Byte[n + 1](_ => 0);
        forall k | 0 <= k < len {
          wider[k] := buf[k];
        }
        buf := wider;
        assert buf[..len] == old(buf[..len]);
      }
      ghost var before := buf[..];
      Store(len, chunk + [0]);
      assert buf[..] == Stored(before, len, chunk + [0]);
      len := n;
      assert buf[..len] == before[..old(len)] + chunk;
    }

    /** One step of the decoding: a word is read, and only then written. */
    method XorStep(ghost b: Text, ghost next: Text, to: nat, from: nat, mask: Text)
      requires NextWord(b, buf[..], next, to, from, mask)
      modifies buf
      ensures buf[..] == next
    {
      StepWord(b, buf[..], next, to, from, mask);
      var word := Load(from, |mask|);
      Store(to, XorWord(word, mask));
    }

    /** The word is written `header` bytes before where it was read. */
    method DecodeStep(ghost b: Text, offset: nat, header: nat, ghost key: Text, i: nat, mask: Text)
      requires |key| == 4 && offset + header + i + |mask| <= buf.Length == |b|
      requires mask == Cycle(key, i, |mask|) && buf[..] == Unmasked(b, offset, header, key, i)
      modifies buf
      ensures buf[..] == Unmasked(b, offset, header, key, i + |mask|)
    {
      DecodeWord(b, offset, header, key, i, mask);
      XorStep(b, Unmasked(b, offset, header, key, i + |mask|), offset + i, offset + header + i, mask);
    }

    /** The payload is decoded in place, to where its frame started, in steps of 16, 8 and 1. */
    method XorPayload(offset: nat, header: nat, size: nat, key: Text)
      requires |key| == 4 && offset + header + size <= buf.Length
      modifies buf
      ensures buf[..] == Unmasked(old(buf[..]), offset, header, key, size)
    {
      ghost var b := buf[..];
      NothingYet(b, offset, header, key);
      var mask := key + key + key + key;
      var i := XorWide(b, offset, header, size, key, mask);
      i := XorHalf(b, offset, header, size, key, i, mask[..8]);
      XorRest(b, offset, header, size, key, i);
    }

    method XorRest(ghost b: Text, offset: nat, header: nat, size: nat, key: Text, start: nat)
      requires |key| == 4 && offset + header + size <= buf.Length == |b|
      requires start <= size && buf[..] == Unmasked(b, offset, header, key, start)
      modifies buf
      ensures buf[..] == Unmasked(b, offset, header, key, size)
    {
      var i := start;
      while i < size
        invariant i <= size
        invariant buf[..] == Unmasked(b, offset, header, key, i)
      {
        CycleByte(key, i);
        DecodeStep(b, offset, header, key, i, [key[i % 4]]);
        i := i + 1;
      }
    }

    method XorWide(ghost b: Text, offset: nat, header: nat, size: nat, ghost key: Text, mask: Text) returns (i: nat)
      requires |key| == 4 && mask == key + key + key + key
      requires offset + header + size <= buf.Length == |b|
      requires buf[..] == Unmasked(b, offset, header, key, 0)
      modifies buf
      ensures i == size - size % 16
      ensures buf[..] == Unmasked(b, offset, header, key, i)
    {
      i := 0;
      var max := size - size % 16;
      ghost var steps := i / 16;
      assert max == 16 * (size / 16);
      while i < max
        invariant i <= max && i == 16 * steps
        invariant buf[..] == Unmasked(b, offset, header, key, i)
      {
        Mask128(key, i, 4 * steps);
        DecodeStep(b, offset, header, key, i, mask);
        i, steps := i + 16, steps + 1;
      }
    }

    method XorHalf(ghost b: Text, offset: nat, header: nat, size: nat, ghost key: Text, start: nat, mask: Text)
      returns (i: nat)
      requires |key| == 4 && mask == (key + key + key + key)[..8]
      requires offset + header + size <= buf.Length == |b|
      requires start == size - size % 16 && buf[..] == Unmasked(b, offset, header, key, start)
      modifies buf
      ensures i == size - size % 8
      ensures buf[..] == Unmasked(b, offset, header, key, i)
    {
      i := start;
      var max := size - size % 8;
      ghost var steps := i / 8;
      assert max == 8 * (size / 8);
      while i < max
        invariant i <= max && i == 8 * steps
        invariant buf[..] == Unmasked(b, offset, header, key, i)
      {
        Mask128(key, i, 2 * steps);
        DecodeStep(b, offset, header, key, i, mask);
        i, steps := i + 8, steps + 1;
      }
    }

    // ----- WebSocket frames -----

    /** The length and the key, once the first six bytes are there. */
    method ReadHeader(offset: nat) returns (status: Status, header: nat, size: nat, key: Text)
      requires Valid() && offset + 6 <= len
      ensures var c := Rest(offset);
              && header == HeaderLength(c[1] as nat % 128) && (status == AGAIN <==> |c| < header)
              && (status == OK || status == AGAIN)
              && (status == OK ==> size == PayloadLength(c) && key == c[header - 4..header])
    {
      ghost var c := Rest(offset);
      var short := buf[offset + 1] as nat % 128;
      header := HeaderLength(short);
      status, size, key := AGAIN, 0, [];
      if len - offset >= header {
        Window(buf[..], len, offset, 2, header - 4);
        Window(buf[..], len, offset, header - 4, header);
        status, size := OK, short;
        if short > 125 {
          var digits := Load(offset + 2, header - 6);
          size := FromBE(digits);
        }
        key := Load(offset + header - 4, 4);
      }
    }

    /** The payload takes the place of its frame, with a NUL after it. */
    method Unwrap(offset: nat, header: nat, size: nat, key: Text) returns (valid: bool)
      requires Valid() && |key| == 4 && 0 < header && offset + header + size <= len && protocol.WebSocket?
      modifies buf
      ensures Valid()
      ensures var text := Unmask(old(buf[..])[offset + header..offset + header + size], key);
              && buf[..] == Stored(old(buf[..]), offset, text + [0])
              && valid == protocol.utf8(text)
    {
      ghost var b := buf[..];
      ghost var text := Unmask(b[offset + header..offset + header + size], key);
      WholePayload(b, offset, header, key, size);
      XorPayload(offset, header, size, key);
      Store(offset + size, [0]);
      valid := Validate(b, offset, size, text);
    }

    method Validate(ghost b: Text, offset: nat, size: nat, ghost text: Text) returns (valid: bool)
      requires size == |text| && offset + size < len < |b| == buf.Length && b[len] == 0 && protocol.WebSocket?
      requires buf[..] == Stored(b, offset, text + [0])
      ensures Valid() && valid == protocol.utf8(text)
    {
      StoredAt(b, offset, text, len);
      ghost var now := buf[..];
      var msg := Load(offset, size);
      assert msg == now[offset..offset + size];
      valid := protocol.utf8(msg);
      assert now[len] == 0;
    }

    /** Decodes the frame at `offset`. A partial frame is left as it is; a whole one is replaced
        by its payload and a NUL, and nothing outside it changes. */
    method DecodeFrame(offset: nat) returns (status: Status, size: nat, frame: nat)
      requires Valid() && offset <= len && protocol.WebSocket?
      modifies this`closed, buf
      ensures Valid() && DecodedAs(Decode(protocol.utf8, old(Rest(offset))), status, size, frame)
      ensures status == AGAIN ==> buf[..] == old(buf[..])
      ensures match Decode(protocol.utf8, old(Rest(offset)))
              case More => closed == old(closed)
              case Bad(reason) => closed == Closing(old(closed), reason) && Outside(old(buf[..]), buf[..], offset, frame)
              case Payload(text, used) =>
                closed == old(closed) && offset + frame <= len && |text| < frame
                && buf[..] == Stored(old(buf[..]), offset, text + [0])
    {
      ghost var c := Rest(offset);
      assert |c| == len - offset && (|c| > 0 ==> c[0] == buf[offset]) && (|c| > 1 ==> c[1] == buf[offset + 1]);
      assert |c| == 0 ==> buf[offset] == 0;
      size, frame := 0, 0;
      if buf[offset] % 16 == 8 {
        QevClose(CloseFrame);
        return FATAL, size, frame;
      }
      if len - offset < 6 {
        return AGAIN, size, frame;
      }
      if buf[offset] % 16 != 1 {
        QevClose(BadOpcode);
        return FATAL, size, frame;
      }
      if buf[offset + 1] < 128 {
        QevClose(NoMask);
        return FATAL, size, frame;
      }
      status, size, frame := DecodeBody(offset);
    }

    method DecodeBody(offset: nat) returns (status: Status, size: nat, frame: nat)
      requires Valid() && offset + 6 <= len && protocol.WebSocket?
      modifies this`closed, buf
      ensures Valid() && DecodedAs(DecodeRest(protocol.utf8, old(Rest(offset))), status, size, frame)
      ensures status == AGAIN ==> buf[..] == old(buf[..])
      ensures match DecodeRest(protocol.utf8, old(Rest(offset)))
              case More => closed == old(closed)
              case Bad(reason) => closed == Closing(old(closed), reason) && Outside(old(buf[..]), buf[..], offset, frame)
              case Payload(text, used) =>
                closed == old(closed) && offset + frame <= len && |text| < frame
                && buf[..] == Stored(old(buf[..]), offset, text + [0])
    {
      frame := 0;
      var header, key;
      status, header, size, key := ReadHeader(offset);
      if status == AGAIN {
        return;
      }
      ghost var b := buf[..];
      RestParts(protocol.utf8, b, len, offset, header, size, key);
      if header + size > MAX64 {
        return FATAL, size, frame;
      }
      if len - offset < header + size {
        return AGAIN, size, frame;
      }
      frame := header + size;
      StoredOutside(b, offset, Unmask(b[offset + header..offset + frame], key) + [0], frame);
      var valid := Unwrap(offset, header, size, key);
      if !valid {
        QevClose(NotUtf8);
        return FATAL, size, frame;
      }
    }

    // ----- events -----

    /** Reads a C string that lies in the buffer. */
    method ReadString(at: nat, ghost text: Text) returns (t: Text)
      requires Holds(buf[..], at, text)
      ensures t == CString(text)
    {
      var i := 0;
      while buf[at + i] != 0
        invariant i <= |text| && 0 !in text[..i]
        decreases |text| - i
      {
        assert buf[at + i] == text[i];
        assert text[..i + 1] == text[..i] + [text[i]];
        i := i + 1;
      }
      assert i < |text| ==> text[i] == 0;
      FindIs(text, 0, i);
      t := Load(at, i);
      assert t == text[..i];
    }

    /** Takes an event apart and routes it. The colon is overwritten; what the router and the
        handlers rewrite after it also lies in the event. */
    method RawHandle(at: nat, ghost text: Text) returns (status: Status)
      requires Holds(buf[..], at, text)
      modifies this`routed, this`closed, buf
      ensures Outside(old(buf[..]), buf[..], at, |text|)
      ensures match Handle(CString(text))
              case None => status == FATAL && routed == old(routed) && closed == Closing(old(closed), BadFormat)
              case Some(ev) => status == OK && routed == old(routed) + [ev] && closed == old(closed)
    {
      var event := ReadString(at, text);
      var colon := Find(event, COLON);
      if colon == |event| {
        QevClose(BadFormat);
        return FATAL;
      }
      ghost var b := buf[..];
      buf[at + colon] := 0;
      assert Outside(b, buf[..], at, |text|);
      var rest := event[colon + 1..];
      var digits := DigitRun(rest);
      if digits == |rest| || rest[digits] != EQUALS || digits == 0 || Number(rest[..digits]) > MAX64 {
        QevClose(BadFormat);
        return FATAL;
      }
      routed := routed + [Event(event[..colon], Number(rest[..digits]), rest[digits + 1..])];
      return OK;
    }

    // ----- the parsers -----

    /** The event lies where its frame started; what comes after the frame stays. */
    method HandleFrame(ghost b: Text, used: nat, ghost text: Text, ghost frame: nat) returns (status: Status)
      requires |text| < frame && used + frame <= len < buf.Length == |b| && b[len] == 0
      requires buf[..] == Stored(b, used, text + [0])
      modifies this`routed, this`closed, buf
      ensures Valid() && Rest(used + frame) == b[used..len][frame..]
      ensures match Handle(CString(text))
              case None => status == FATAL && routed == old(routed) && closed == Closing(old(closed), BadFormat)
              case Some(ev) => status == OK && routed == old(routed) + [ev] && closed == old(closed)
    {
      StoredAt(b, used, text, len);
      StoredOutside(b, used, text + [0], frame);
      ghost var now := buf[..];
      status := RawHandle(used, text);
      OutsideMore(b, now, buf[..], used, |text|, frame);
      OutsideRest(b, buf[..], used, frame, len);
    }

    method RawRoute(used: nat) returns (status: Status, used': nat)
      requires Valid() && used <= len && protocol.Raw?
      modifies this`routed, this`closed, buf
      ensures Valid() && used' <= len
      ensures match RawParse(old(Rest(used)))
              case Again => status == AGAIN && used' == used && buf[..] == old(buf[..])
                            && routed == old(routed) && closed == old(closed)
              case Fatal(reason) => status == FATAL && routed == old(routed) && closed == Closing(old(closed), reason)
              case Ok(ev, n) => status == OK && used' == used + n && Rest(used') == old(Rest(used))[n..]
                                && routed == old(routed) + [ev] && closed == old(closed)
    {
      used' := used;
      var size;
      status, size := RawHeader(used);
      if status == OK {
        status := RawBody(used, size);
        used' := used + size + 8;
      }
    }

    lemma RestIs(used: nat)
      requires Valid() && used <= len
      ensures Rest(used) == buf[..][used..len]
    {
    }

    /** The length of a frame, if there is a whole one. */
    method RawHeader(used: nat) returns (status: Status, size: nat)
      requires Valid() && used <= len
      ensures status == AGAIN ==> RawParse(Rest(used)).Again?
      ensures status == FATAL ==> RawParse(Rest(used)) == Fatal(TooLong)
      ensures status == OK ==>
        used + 8 + size <= len &&
        RawParse(Rest(used)) == ParsedText(buf[..][used + 8..used + 8 + size], size + 8)
    {
      ghost var b := buf[..];
      ghost var c := Rest(used);
      RestIs(used);
      size := 0;
      if len - used < 8 {
        return AGAIN, size;
      }
      var digits := Load(used, 8);
      size := FromBE(digits);
      RawParts(b, len, used, digits, size);
      if size + 8 > MAX64 {
        return FATAL, size;
      }
      if len - used < size + 8 {
        return AGAIN, size;
      }
      return OK, size;
    }

    /** The text takes the place of its frame, with a NUL after it. */
    method RawUnwrap(used: nat, size: nat)
      requires used + 8 + size <= buf.Length
      modifies buf
      ensures var b := old(buf[..]); buf[..] == Stored(b, used, b[used + 8..used + 8 + size] + [0])
    {
      ghost var b := buf[..];
      StoredTwice(b, used, b[used + 8..used + 8 + size]);
      Memmove(used, used + 8, size);
      Store(used + size, [0]);
    }

    method RawBody(used: nat, size: nat) returns (status: Status)
      requires Valid() && used + 8 + size <= len
      modifies this`routed, this`closed, buf
      ensures Valid() && Rest(used + 8 + size) == old(Rest(used))[8 + size..]
      ensures match Handle(CString(old(buf[..])[used + 8..used + 8 + size]))
              case None => status == FATAL && routed == old(routed) && closed == Closing(old(closed), BadFormat)
              case Some(ev) => status == OK && routed == old(routed) + [ev] && closed == old(closed)
    {
      ghost var b := buf[..];
      RawUnwrap(used, size);
      status := HandleFrame(b, used, b[used + 8..used + 8 + size], 8 + size);
    }

    method WsRoute(used: nat) returns (status: Status, used': nat)
      requires Valid() && used <= len && protocol.WebSocket?
      modifies this`routed, this`closed, buf
      ensures Valid() && used' <= len
      ensures match WsParse(protocol.utf8, old(Rest(used)))
              case Again => status == AGAIN && used' == used && buf[..] == old(buf[..])
                            && routed == old(routed) && closed == old(closed)
              case Fatal(reason) => status == FATAL && routed == old(routed) && closed == Closing(old(closed), reason)
              case Ok(ev, n) => status == OK && used' == used + n && Rest(used') == old(Rest(used))[n..]
                                && routed == old(routed) + [ev] && closed == old(closed)
    {
      used' := used;
      ghost var b, c := buf[..], Rest(used);
      var size, frame;
      status, size, frame := DecodeFrame(used);
      if status == OK {
        ghost var text := Decode(protocol.utf8, c).text;
        status := HandleFrame(b, used, text, frame);
        used' := used + frame;
      }
    }

    // ----- the read loop -----

    method Step(used: nat) returns (status: Status, used': nat)
      requires Valid() && used <= len
      modifies this`routed, this`closed, buf
      ensures Valid() && used' <= len
      ensures match ParserOf(protocol)(old(Rest(used)))
              case Again => status == AGAIN && used' == used && buf[..] == old(buf[..])
                            && routed == old(routed) && closed == old(closed)
              case Fatal(reason) => status == FATAL && routed == old(routed) && closed == Closing(old(closed), reason)
              case Ok(ev, n) => status == OK && used' == used + n && Rest(used') == old(Rest(used))[n..]
                                && routed == old(routed) + [ev] && closed == old(closed)
    {
      match protocol {
        case Raw => status, used' := RawRoute(used);
        case WebSocket(_) => status, used' := WsRoute(used);
      }
    }

    /** Routes what is complete, and leaves the rest. */
    method Route()
      requires Valid()
      modifies this`routed, this`closed, this`timeout, this`len, buf
      ensures Valid() && IsParser(ParserOf(protocol))
      ensures var o := Run(ParserOf(protocol), old(Contents()));
              && routed == old(routed) + o.events
              && closed == (if old(closed).Some? then old(closed) else o.closed)
              && (o.closed.None? ==> Contents() == o.left && (old(len) > 0 ==> (timeout <==> len > 0)))
    {
      ProtocolsAreParsers(protocol);
      assert Parse(protocol, []).Again?;
      var used := RouteAll(ParserOf(protocol));
      Erase(used);
    }

    method RouteAll(ghost parse: Text -> Parsed) returns (used: nat)
      requires Valid() && parse == ParserOf(protocol) && IsParser(parse) && parse([]).Again?
      modifies this`routed, this`closed, this`timeout, buf
      ensures Valid() && used <= len
      ensures var o := Continue(old(routed), Run(parse, old(Rest(0))));
              && routed == o.events
              && closed == (if old(closed).Some? then old(closed) else o.closed)
              && (o.closed.None? ==> Rest(used) == o.left && (old(len) > 0 ==> (timeout <==> used < len)))
    {
      ghost var all := Continue(routed, Run(parse, Rest(0)));
      used := 0;
      while true
        invariant Valid() && used <= len && closed == old(closed)
        invariant used > 0 ==> used < len && !timeout
        invariant all == Continue(routed, Run(parse, Rest(used)))
        decreases len - used
      {
        var status, next := RouteOne(used, parse);
        match status {
          case AGAIN =>
            timeout := true;
            return;
          case FATAL =>
            QevClose(TooLong);
            return next;
          case OK =>
            timeout := false;
            used := next;
        }
        if used >= len {
          RunStep(parse, [], routed);
          return;
        }
      }
    }

    /** One frame: what has been routed, and what is to come of the rest, stay the same. */
    method RouteOne(used: nat, ghost parse: Text -> Parsed) returns (status: Status, used': nat)
      requires Valid() && used <= len && parse == ParserOf(protocol) && IsParser(parse)
      modifies this`routed, this`closed, buf
      ensures Valid() && used' <= len
      ensures var all := Continue(old(routed), Run(parse, old(Rest(used))));
              match status
              case AGAIN => all == Outcome(routed, Rest(used), None) && closed == old(closed)
              case FATAL => all.events == routed && all.closed.Some? && closed == Closing(old(closed), all.closed.value)
              case OK => all == Continue(routed, Run(parse, Rest(used'))) && used < used' && closed == old(closed)
    {
      RunStep(parse, Rest(used), routed);
      status, used' := Step(used);
    }

    /** A read: the server reads no more from a closed client. */
    method Read(chunk: Text)
      requires Valid()
      modifies this`routed, this`closed, this`timeout, this`len, this`buf, buf
      ensures Valid() && IsParser(ParserOf(protocol))
      ensures View() == Feed(ParserOf(protocol), old(View()), chunk)
    {
      ProtocolsAreParsers(protocol);
      if closed.None? {
        Append(chunk);
        NothingLeftIfClosed(ParserOf(protocol), Contents());
        Route();
      }
    }
  }
}
