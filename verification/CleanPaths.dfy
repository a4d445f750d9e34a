/**
 Event paths: cleaned in place, and put together from their parts.
 */
module CleanPaths {
  import opened Bytes

  const SLASH: Byte := 47

  /** Digits, letters, `-`, `_` and `/`. */
  predicate Allowed(b: Byte) {
    b == 45 || 47 <= b <= 57 || 65 <= b <= 90 || b == 95 || 97 <= b <= 122
  }

  // ----- what cleaning means -----

  function Filter(s: Text): (r: Text)
    ensures |r| <= |s|
  {
    if s == [] then [] else
      var r, b := Filter(s[..|s| - 1]), s[|s| - 1];
      if Allowed(b) then r + [b] else r
  }

  lemma {:induction false} FilterAllows(s: Text)
    ensures forall b <- Filter(s) :: Allowed(b)
  {
    if s != [] {
      FilterAllows(s[..|s| - 1]);
    }
  }

  predicate EndsInSlash(s: Text) { s != [] && s[|s| - 1] == SLASH }

  /** Every run of slashes becomes one slash. */
  function Collapse(s: Text): (r: Text)
    ensures |r| <= |s|
  {
    if s == [] then [] else
      var r, b := Collapse(s[..|s| - 1]), s[|s| - 1];
      if b == SLASH && EndsInSlash(r) then r else r + [b]
  }

  function Chomp(s: Text): Text { if EndsInSlash(s) then s[..|s| - 1] else s }

  function Clean(s: Text): Text { Chomp(Collapse(Filter(s))) }

  predicate NoTwoSlashes(s: Text) {
    forall i {:trigger s[i]} :: 0 < i < |s| ==> !(s[i - 1] == SLASH == s[i])
  }

  predicate IsClean(s: Text) {
    (forall b <- s :: Allowed(b)) && NoTwoSlashes(s) && !EndsInSlash(s)
  }

  // ----- the segments between the slashes -----

  /** One more byte after these segments, of which the last is open unless at a start. */
  function More(r: seq<Text>, start: bool, b: Byte): seq<Text>
    requires start || r != []
  {
    if b == SLASH then r
    else if start then r + [[b]]
    else r[..|r| - 1] + [r[|r| - 1] + [b]]
  }

  predicate AtStart(s: Text) { s == [] || EndsInSlash(s) }

  function Segments(s: Text): (r: seq<Text>)
    ensures !AtStart(s) ==> r != []
  {
    if s == [] then [] else
      var front := s[..|s| - 1];
      More(Segments(front), AtStart(front), s[|s| - 1])
  }

  function Join(ss: seq<Text>): Text {
    if ss == [] then []
    else if |ss| == 1 then ss[0]
    else Join(ss[..|ss| - 1]) + [SLASH] + ss[|ss| - 1]
  }

  function Lead(s: Text): Text { if s != [] && s[0] == SLASH then [SLASH] else [] }

  /** The segments with one slash between them, and one at either end if there was any. */
  function Rejoined(s: Text): Text {
    Lead(s) + Join(Segments(s)) + (if EndsInSlash(s) && Segments(s) != [] then [SLASH] else [])
  }

  lemma JoinSnoc(front: seq<Text>, last: Text)
    ensures Join(front + [last]) == if front == [] then last else Join(front) + [SLASH] + last
  {
    assert (front + [last])[..|front|] == front;
  }

  lemma JoinOpened(ss: seq<Text>, b: Byte)
    ensures Join(ss + [[b]]) == (if ss == [] then [] else Join(ss) + [SLASH]) + [b]
  {
    JoinSnoc(ss, [b]);
  }

  lemma JoinContinued(front: seq<Text>, last: Text, b: Byte)
    ensures Join(front + [last + [b]]) == Join(front + [last]) + [b]
  {
    JoinSnoc(front, last);
    JoinSnoc(front, last + [b]);
  }

  lemma RejoinedMore(front: Text, b: Byte)
    ensures Rejoined(front + [b])
         == if b != SLASH then Rejoined(front) + [b]
            else if front == [] then [SLASH]
            else if EndsInSlash(front) then Rejoined(front)
            else Rejoined(front) + [SLASH]
  {
    var s := front + [b];
    assert s[..|front|] == front;
    var r := Segments(front);
    if b != SLASH {
      if AtStart(front) {
        JoinOpened(r, b);
      } else {
        JoinContinued(r[..|r| - 1], r[|r| - 1], b);
        assert r[..|r| - 1] + [r[|r| - 1]] == r;
      }
    }
  }

  lemma {:induction false} RejoinedEnds(s: Text)
    ensures s != [] ==> Rejoined(s) != [] && EndsInSlash(Rejoined(s)) == EndsInSlash(s)
  {
    if s != [] {
      RejoinedEnds(s[..|s| - 1]);
      assert s[..|s| - 1] + [s[|s| - 1]] == s;
      RejoinedMore(s[..|s| - 1], s[|s| - 1]);
    }
  }

  lemma {:induction false} CollapseJoins(s: Text)
    ensures Collapse(s) == Rejoined(s)
  {
    if s != [] {
      CollapseJoins(s[..|s| - 1]);
      assert s[..|s| - 1] + [s[|s| - 1]] == s;
      RejoinedMore(s[..|s| - 1], s[|s| - 1]);
      RejoinedEnds(s[..|s| - 1]);
    }
  }

  /** What cleaning is: the segments of what is allowed, one slash between them, and a slash in
      front if there was one. */
  lemma CleanJoins(s: Text)
    ensures var f := Filter(s);
            Clean(s) == if Segments(f) == [] then [] else Lead(f) + Join(Segments(f))
  {
    var f := Filter(s);
    CollapseJoins(f);
    RejoinedEnds(f);
    if f != [] && Segments(f) == [] {
      assert Join([]) == [];
    }
  }

  // ----- clean paths -----

  lemma {:induction false} CollapseClean(s: Text)
    ensures NoTwoSlashes(Collapse(s)) && forall b <- Collapse(s) :: b in s
  {
    if s != [] {
      CollapseClean(s[..|s| - 1]);
    }
  }

  lemma CleanIsClean(s: Text)
    ensures IsClean(Clean(s))
  {
    FilterAllows(s);
    CollapseClean(Filter(s));
    var r := Collapse(Filter(s));
    if EndsInSlash(r) {
      assert r[|r| - 1] == SLASH;
    }
  }

  lemma {:induction false} FilterKeeps(s: Text)
    requires forall b <- s :: Allowed(b)
    ensures Filter(s) == s
  {
    if s != [] {
      FilterKeeps(s[..|s| - 1]);
    }
  }

  lemma {:induction false} CollapseKeeps(s: Text)
    requires NoTwoSlashes(s)
    ensures Collapse(s) == s
  {
    if s != [] {
      CollapseKeeps(s[..|s| - 1]);
      var last := |s| - 1;
      assert last > 0 ==> s[last] == SLASH ==> s[last - 1] != SLASH;
    }
  }

  /** Cleaning changes exactly the paths that are not clean; so cleaning twice is cleaning once. */
  lemma CleanChangesNothingMore(s: Text)
    ensures Clean(s) == s <==> IsClean(s)
    ensures Clean(Clean(s)) == Clean(s)
  {
    CleanIsClean(s);
    if IsClean(s) {
      FilterKeeps(s);
      CollapseKeeps(s);
    }
    FilterKeeps(Clean(s));
    CollapseKeeps(Clean(s));
  }

  // ----- in characters -----

  /** Letters, digits, `-`, `_` and `/`. */
  predicate PathChar(c: char) {
    'a' <= c <= 'z' || 'A' <= c <= 'Z' || '0' <= c <= '9' || c == '-' || c == '_' || c == '/'
  }

  lemma AllowedChars(b: Byte)
    ensures Allowed(b) <==> PathChar(b as char)
    ensures b == SLASH <==> b as char == '/'
  {
  }

  /** Cleaning leaves a path as it is exactly if it consists of these characters, with single
      slashes and none at the end. */
  lemma LeavesPathsAlone(s: Text)
    ensures Clean(s) == s <==>
              && (forall i :: 0 <= i < |s| ==> PathChar(s[i] as char))
              && (forall i {:trigger s[i]} :: 0 < i < |s| ==> !(s[i - 1] as char == '/' == s[i] as char))
              && (s != [] ==> s[|s| - 1] as char != '/')
  {
    CleanChangesNothingMore(s);
    forall i | 0 <= i < |s| ensures Allowed(s[i]) <==> PathChar(s[i] as char) { AllowedChars(s[i]); }
    forall i {:trigger s[i]} | 0 < i < |s|
      ensures (s[i - 1] == SLASH == s[i]) <==> (s[i - 1] as char == '/' == s[i] as char)
    {
      AllowedChars(s[i - 1]);
      AllowedChars(s[i]);
    }
    assert forall b <- s :: exists i :: 0 <= i < |s| && s[i] == b;
  }

  /** Every other byte is removed; and of these, only slashes. */
  lemma {:induction false} KeepsExactly(s: Text, b: Byte)
    ensures !PathChar(b as char) ==> b !in Clean(s)
    ensures PathChar(b as char) && b as char != '/' ==> multiset(Clean(s))[b] == multiset(s)[b]
  {
    FilterCounts(s, b);
    CollapseCounts(Filter(s), b);
    AllowedChars(b);
    var r := Collapse(Filter(s));
    if EndsInSlash(r) {
      CountMore(r[..|r| - 1], SLASH, b);
      assert r[..|r| - 1] + [SLASH] == r;
    }
    assert b in Clean(s) <==> multiset(Clean(s))[b] > 0;
  }

  lemma CountMore(s: Text, c: Byte, b: Byte)
    ensures multiset(s + [c])[b] == multiset(s)[b] + if c == b then 1 else 0
  {
  }

  lemma {:induction false} FilterCounts(s: Text, b: Byte)
    ensures multiset(Filter(s))[b] == if Allowed(b) then multiset(s)[b] else 0
  {
    if s != [] {
      var front, c := s[..|s| - 1], s[|s| - 1];
      FilterCounts(front, b);
      CountMore(front, c, b);
      CountMore(Filter(front), c, b);
      assert front + [c] == s;
    }
  }

  lemma {:induction false} CollapseCounts(s: Text, b: Byte)
    ensures b != SLASH ==> multiset(Collapse(s))[b] == multiset(s)[b]
  {
    if s != [] {
      var front, c := s[..|s| - 1], s[|s| - 1];
      CollapseCounts(front, b);
      CountMore(front, c, b);
      CountMore(Collapse(front), c, b);
      assert front + [c] == s;
    }
  }

  /** Where the 78 children of a trie node start and end. */
  predicate Indexable(s: Text) { forall b <- s :: 45 <= b <= 122 }

  /** A clean path has a child slot for every byte. */
  lemma CleanIsIndexable(s: Text)
    ensures Indexable(Clean(s)) && forall b <- Clean(s) :: 0 <= b as int - 45 < 78
  {
    CleanIsClean(s);
  }

  // ----- paths from parts -----

  lemma FilterSnoc(front: Text, b: Byte)
    ensures Filter(front + [b]) == if Allowed(b) then Filter(front) + [b] else Filter(front)
  {
    assert (front + [b])[..|front|] == front;
  }

  lemma {:induction false} FilterConcat(a: Text, b: Text)
    ensures Filter(a + b) == Filter(a) + Filter(b)
  {
    if b == [] {
      assert a + b == a;
    } else {
      var front, last := b[..|b| - 1], b[|b| - 1];
      FilterConcat(a, front);
      assert b == front + [last] && a + b == (a + front) + [last];
      FilterSnoc(front, last);
      FilterSnoc(a + front, last);
    }
  }

  lemma MoreConcat(x: seq<Text>, r: seq<Text>, start: bool, b: Byte)
    requires start || r != []
    ensures More(x + r, start, b) == x + More(r, start, b)
  {
    if !start {
      assert (x + r)[..|x + r| - 1] == x + r[..|r| - 1];
    }
  }

  lemma SegmentsSnoc(front: Text, b: Byte)
    ensures Segments(front + [b]) == More(Segments(front), AtStart(front), b)
    ensures AtStart(front + [b]) == (b == SLASH)
  {
    assert (front + [b])[..|front|] == front;
  }

  lemma Associative(a: Text, b: Text, c: Text)
    ensures (a + b) + c == a + (b + c)
  {
  }

  /** Segments end at a slash. */
  lemma {:induction false} SegmentsConcat(a: Text, b: Text)
    ensures Segments(a + [SLASH] + b) == Segments(a) + Segments(b)
    ensures AtStart(a + [SLASH] + b) == AtStart(b)
  {
    var s := a + [SLASH];
    if b == [] {
      SegmentsSnoc(a, SLASH);
      assert s + b == s && Segments(a) + Segments(b) == Segments(a);
    } else {
      var front, last := b[..|b| - 1], b[|b| - 1];
      SegmentsConcat(a, front);
      assert b == front + [last];
      Associative(s, front, [last]);
      SegmentsSnoc(s + front, last);
      SegmentsSnoc(front, last);
      MoreConcat(Segments(a), Segments(front), AtStart(front), last);
    }
  }

  function Joined(prefix: Text, path: Text, extra: Text): Text {
    var p := prefix + [SLASH] + path + [SLASH] + extra;
    if p[0] == SLASH then p else [SLASH] + p
  }

  lemma LeadingSlash(t: Text)
    ensures Filter([SLASH] + t) == [SLASH] + Filter(t)
    ensures Segments([SLASH] + t) == Segments(t)
  {
    assert Filter([SLASH]) == [SLASH];
    FilterConcat([SLASH], t);
    SegmentsConcat([], t);
    assert [] + [SLASH] + t == [SLASH] + t;
    assert Segments([]) + Segments(t) == Segments(t);
  }

  lemma JoinedSegments(prefix: Text, path: Text, extra: Text)
    ensures var f := Filter(Joined(prefix, path, extra));
            && Lead(f) == [SLASH]
            && Segments(f) == Segments(Filter(prefix)) + Segments(Filter(path)) + Segments(Filter(extra))
  {
    SegmentsOfParts(prefix, path, extra);
    var p := prefix + [SLASH] + path + [SLASH] + extra;
    if p[0] == SLASH {
      assert p == [SLASH] + p[1..];
      LeadingSlash(p[1..]);
    } else {
      LeadingSlash(p);
      LeadingSlash(Filter(p));
    }
  }

  /** A path made of three parts is empty or a clean path from the root, and its segments are
      those of its parts. */
  lemma MadeOfSegments(prefix: Text, path: Text, extra: Text)
    ensures var p := Clean(Joined(prefix, path, extra));
            var ss := Segments(Filter(prefix)) + Segments(Filter(path)) + Segments(Filter(extra));
            && IsClean(p) && p == (if ss == [] then [] else [SLASH] + Join(ss))
  {
    var j := Joined(prefix, path, extra);
    CleanIsClean(j);
    CleanJoins(j);
    JoinedSegments(prefix, path, extra);
  }

  lemma SegmentsOfParts(prefix: Text, path: Text, extra: Text)
    ensures Segments(Filter(prefix + [SLASH] + path + [SLASH] + extra))
         == Segments(Filter(prefix)) + Segments(Filter(path)) + Segments(Filter(extra))
  {
    var a, b, c := Filter(prefix), Filter(path), Filter(extra);
    assert Filter([SLASH]) == [SLASH];
    FilterConcat(prefix, [SLASH]);
    FilterConcat(prefix + [SLASH], path);
    FilterConcat(prefix + [SLASH] + path, [SLASH]);
    FilterConcat(prefix + [SLASH] + path + [SLASH], extra);
    SegmentsConcat(a + [SLASH] + b, c);
    SegmentsConcat(a, b);
  }

  // ----- in place -----

  lemma FilterStep(s: Text, i: nat)
    requires i < |s|
    ensures Filter(s[..i + 1]) == if Allowed(s[i]) then Filter(s[..i]) + [s[i]] else Filter(s[..i])
  {
    assert s[..i + 1][..i] == s[..i];
  }

  /** What has been written when the first `i` bytes have been read. */
  function Written(s: Text, i: nat): Text
    requires i <= |s|
  {
    Collapse(Filter(s[..i]))
  }

  lemma WrittenStep(s: Text, i: nat)
    requires i < |s|
    ensures Written(s, i + 1)
         == if !Allowed(s[i]) || (s[i] == SLASH && EndsInSlash(Written(s, i))) then Written(s, i) else Written(s, i) + [s[i]]
  {
    FilterStep(s, i);
    var f, g := Filter(s[..i]), Filter(s[..i + 1]);
    if Allowed(s[i]) {
      assert g[..|g| - 1] == f;
    }
  }

  lemma StoredMore(b: Text, at: nat, w: Text, c: Byte)
    requires at + |w| < |b|
    ensures Stored(b, at, w)[at + |w| := c] == Stored(b, at, w + [c])
  {
  }

  lemma StoredLast(b: Text, at: nat, w: Text, c: Byte, d: Byte)
    requires at + |w| < |b|
    ensures Stored(b, at, w + [c])[at + |w| := d] == Stored(b, at, w + [d])
  {
  }

  /** What has not been read yet is still there. */
  ghost predicate Unread(b: Text, at: nat, s: Text, curr: nat) {
    curr <= |s| && at + |s| < |b| && b[at + curr..at + |s|] == s[curr..] && b[at + |s|] == 0
  }

  lemma UnreadAt(b: Text, at: nat, s: Text, curr: nat)
    requires Unread(b, at, s, curr)
    ensures b[at + curr] == if curr < |s| then s[curr] else 0
    ensures curr < |s| ==> Unread(b, at, s, curr + 1)
  {
    if curr < |s| {
      assert b[at + curr] == b[at + curr..at + |s|][0];
      assert b[at + curr + 1..at + |s|] == b[at + curr..at + |s|][1..];
    }
  }

  lemma UnreadStored(b: Text, at: nat, s: Text, curr: nat, i: nat, c: Byte)
    requires Unread(b, at, s, curr) && i < curr
    ensures Unread(b[at + i := c], at, s, curr)
  {
    assert b[at + i := c][at + curr..at + |s|] == b[at + curr..at + |s|];
  }

  /** Only slashes after a slash would not be written, and those are skipped. */
  predicate Fresh(s: Text, curr: nat)
    requires curr <= |s|
  {
    curr < |s| && EndsInSlash(Written(s, curr)) ==> Allowed(s[curr]) && s[curr] != SLASH
  }

  /** The slashes after a slash, and what is not allowed between them. */
  method SkipSlashes(a: array<Byte>, at: nat, ghost s: Text, start: nat) returns (curr: nat)
    requires Unread(a[..], at, s, start) && 0 !in s && 0 < start && s[start - 1] == SLASH
    ensures start <= curr <= |s| && Unread(a[..], at, s, curr) && Written(s, curr) == Written(s, start)
    ensures Fresh(s, curr) && a[at + curr] == if curr < |s| then s[curr] else 0
  {
    curr := start;
    AfterSlash(s, start);
    UnreadAt(a[..], at, s, curr);
    while a[at + curr] == SLASH || (!Allowed(a[at + curr]) && a[at + curr] != 0)
      invariant start <= curr <= |s| && Unread(a[..], at, s, curr) && Written(s, curr) == Written(s, start)
      invariant a[at + curr] == if curr < |s| then s[curr] else 0
      decreases |s| - curr
    {
      SkipStep(s, curr);
      curr := curr + 1;
      UnreadAt(a[..], at, s, curr);
    }
  }

  lemma AfterSlash(s: Text, i: nat)
    requires 0 < i <= |s| && s[i - 1] == SLASH
    ensures EndsInSlash(Written(s, i))
  {
    WrittenStep(s, i - 1);
  }

  lemma SkipStep(s: Text, i: nat)
    requires i < |s| && EndsInSlash(Written(s, i)) && (s[i] == SLASH || !Allowed(s[i]))
    ensures Written(s, i + 1) == Written(s, i)
  {
    WrittenStep(s, i);
  }

  /** One byte is read, and written if it is allowed. */
  method Copy(a: array<Byte>, at: nat, ghost b: Text, ghost s: Text, curr: nat, writing: nat) returns (c: Byte, writing': nat)
    requires curr < |s| && Unread(a[..], at, s, curr) && Fresh(s, curr)
    requires a.Length == |b| && writing == |Written(s, curr)| <= curr && a[..] == Stored(b, at, Written(s, curr))
    modifies a
    ensures c == s[curr] && Unread(a[..], at, s, curr + 1) && a[at + curr + 1] == if curr + 1 < |s| then s[curr + 1] else 0
    ensures writing' == |Written(s, curr + 1)| <= curr + 1 && a[..] == Stored(b, at, Written(s, curr + 1))
    ensures EndsInSlash(Written(s, curr + 1)) ==> c == SLASH
  {
    ghost var now, w := a[..], Written(s, curr);
    UnreadAt(now, at, s, curr);
    WrittenStep(s, curr);
    writing' := writing;
    c := a[at + curr];
    if Allowed(c) {
      StoredMore(b, at, w, c);
      UnreadStored(now, at, s, curr + 1, writing, c);
      a[at + writing] := c;
      assert a[..] == now[at + writing := c];
      writing' := writing + 1;
    }
    UnreadAt(a[..], at, s, curr + 1);
  }

  /** Cleans the C string at `at`, with two positions that move through it, the one for writing
      never ahead of the one for reading. Only the clean path and its NUL are written. */
  method CleanPath(a: array<Byte>, at: nat, ghost s: Text) returns (n: nat)
    requires Holds(a[..], at, s) && 0 !in s
    modifies a
    ensures n == |Clean(s)| <= |s| && a[..] == Stored(old(a[..]), at, Clean(s) + [0])
  {
    ghost var b := a[..];
    var curr, writing := 0, 0;
    assert Stored(b, at, Written(s, 0)) == b;
    UnreadAt(b, at, s, 0);
    while a[at + curr] != 0
      invariant curr <= |s| && writing == |Written(s, curr)| <= curr && a[..] == Stored(b, at, Written(s, curr))
      invariant Unread(a[..], at, s, curr) && Fresh(s, curr)
      invariant a[at + curr] == if curr < |s| then s[curr] else 0
      decreases |s| - curr
    {
      var c;
      c, writing := Copy(a, at, b, s, curr, writing);
      curr := curr + 1;
      if c == SLASH {
        curr := SkipSlashes(a, at, s, curr);
      }
    }
    assert s[..curr] == s;
    n := Finish(a, at, b, Written(s, curr), writing);
  }

  /** Removes a slash at the end, and ends the string. */
  method Finish(a: array<Byte>, at: nat, ghost b: Text, ghost w: Text, writing: nat) returns (n: nat)
    requires writing == |w| && at + |w| < a.Length == |b| && a[..] == Stored(b, at, w)
    modifies a
    ensures n == |Chomp(w)| && a[..] == Stored(b, at, Chomp(w) + [0])
  {
    n := writing;
    assert writing != 0 ==> a[..][at + writing - 1] == w[writing - 1];
    if n != 0 && a[at + n - 1] == SLASH {
      n := n - 1;
      StoredLast(b, at, w[..n], SLASH, 0);
      assert w == w[..n] + [SLASH];
    } else {
      StoredMore(b, at, w, 0);
    }
    a[at + n] := 0;
  }

  method Terminated(t: Text) returns (a: array<Byte>)
    ensures fresh(a) && Holds(a[..], 0, t)
  {
    a := new Byte[|t| + 1](i requires 0 <= i => if i < |t| then t[i] else 0);
    assert a[..][0..0 + |t|] == t;
  }

  /** The path of an event, from a prefix, a path and the rest, any of which may be empty. */
  method MakePath(prefix: Text, path: Text, extra: Text) returns (p: Text)
    requires 0 !in prefix && 0 !in path && 0 !in extra
    ensures p == Clean(Joined(prefix, path, extra))
  {
    var t := prefix + [SLASH] + path + [SLASH] + extra;
    if t[0] != SLASH {
      t := [SLASH] + t;
    }
    var a := Terminated(t);
    var n := CleanPath(a, 0, t);
    p := a[..n];
    assert p == a[..][..n];
  }
}
