/**
 Which event answers which path: a plain table of events, and what is asked of it.
 */
module EventTable {
  import opened Options
  import opened Bytes
  import opened CleanPaths

  /** A registered event: its path, and whether it also answers the paths below it. */
  datatype Event = Event(path: Text, children: bool)

  /** The events by path, without the leading slash. */
  type Table = map<Text, Event>

  function Strip(path: Text): Text { if path != [] && path[0] == SLASH then path[1..] else path }

  /** Nothing is registered at the root, and nothing is registered twice. */
  predicate Insertable(m: Table, path: Text) { Strip(path) != [] && Strip(path) !in m }

  function Insert(m: Table, path: Text, children: bool): Table {
    if Insertable(m, path) then m[Strip(path) := Event(path, children)] else m
  }

  /** A path that some registered path continues. */
  ghost predicate Inside(m: Table, p: Text) { p == [] || exists k <- m.Keys :: p <= k }

  predicate HasChildren(m: Table, p: Text) { p in m && m[p].children }

  /** The longest prefix of `p` shorter than `n` that also answers the paths below it. */
  function Deepest(m: Table, p: Text, n: nat): (r: Option<nat>)
    requires n <= |p|
    ensures r.Some? ==> r.value < n && HasChildren(m, p[..r.value])
    ensures forall j :: 0 <= j < n && HasChildren(m, p[..j]) ==> r.Some? && j <= r.value
  {
    if n == 0 then None
    else if HasChildren(m, p[..n - 1]) then Some(n - 1)
    else Deepest(m, p, n - 1)
  }

  lemma {:induction false} NoDeeper(m: Table, p: Text, i: nat, n: nat)
    requires i <= n <= |p| && forall j :: i <= j < n ==> !HasChildren(m, p[..j])
    ensures Deepest(m, p, n) == Deepest(m, p, i)
  {
    if i < n {
      NoDeeper(m, p, i, n - 1);
    }
  }

  /** How much of a path names the event that answers it, if any does. */
  ghost function Query(m: Table, p: Text): Option<nat> {
    if Inside(m, p) then (if p in m then Some(|p|) else None)
    else
      match Deepest(m, p, |p|)
      case Some(j) => if p[j] == SLASH then Some(j) else None
      case None => None
  }

  // ----- what an answer is worth -----

  /** An event that may answer a path: its own, or one that also answers the paths below it and
      is followed by a slash. */
  predicate Candidate(m: Table, p: Text, j: nat) {
    j <= |p| && p[..j] in m && (j == |p| || (m[p[..j]].children && p[j] == SLASH))
  }

  lemma AnswersAreCandidates(m: Table, p: Text)
    ensures Query(m, p).Some? ==> Candidate(m, p, Query(m, p).value)
    ensures p in m ==> Query(m, p) == Some(|p|)
  {
    if p in m {
      assert p <= p;
    }
    assert p[..|p|] == p;
  }

  /** What stands in the way of a candidate: that the path leads to another one, or a longer
      prefix that answers the paths below it but has none below it here. */
  ghost predicate Shadowed(m: Table, p: Text, j: nat) {
    j < |p| && (Inside(m, p) || exists i :: j < i < |p| && HasChildren(m, p[..i]))
  }

  /** A candidate answers exactly when nothing stands in its way; so the answer is not always
      the longest candidate. */
  lemma CandidateAnswers(m: Table, p: Text, j: nat)
    requires Candidate(m, p, j) && [] !in m
    ensures Query(m, p) == Some(j) <==> !Shadowed(m, p, j)
  {
    assert p[..|p|] == p;
    if j == |p| {
      AnswersAreCandidates(m, p);
    } else if !Inside(m, p) {
      assert HasChildren(m, p[..j]);
      var d := Deepest(m, p, |p|);
      assert d.Some? && j <= d.value;
      if d.value != j {
        assert j < d.value < |p| && HasChildren(m, p[..d.value]);
      }
    }
  }

  /** A path is unanswered exactly when something stands in the way of every candidate; and what
      answers is the longest candidate there is. */
  lemma NoAnswer(m: Table, p: Text)
    requires [] !in m
    ensures Query(m, p).None? <==> forall j: nat | Candidate(m, p, j) :: Shadowed(m, p, j)
    ensures Query(m, p).Some? ==> forall j: nat | Candidate(m, p, j) :: j <= Query(m, p).value
  {
    AnswersAreCandidates(m, p);
    assert p[..|p|] == p;
    forall j: nat | Candidate(m, p, j)
      ensures Query(m, p).None? ==> Shadowed(m, p, j)
      ensures Query(m, p).Some? ==> j <= Query(m, p).value
    {
      CandidateAnswers(m, p, j);
      assert j < |p| ==> HasChildren(m, p[..j]);
    }
    if Query(m, p).Some? {
      CandidateAnswers(m, p, Query(m, p).value);
    }
  }

  /** The event of a path and what it leaves of the path are the path again, up to one leading
      slash; and what is left is empty or starts with a slash. */
  lemma AnswerSplitsPath(m: Table, path: Text)
    requires WellFormed(m) && Query(m, Strip(path)).Some?
    ensures var p := Strip(path);
            var j := Query(m, p).value;
            && j <= |p| && p[..j] in m
            && Strip(m[p[..j]].path) + p[j..] == p
            && (p[j..] == [] || (p[j] == SLASH && m[p[..j]].children))
  {
    AnswersAreCandidates(m, Strip(path));
  }

  /** Every event is registered under its own path. */
  ghost predicate WellFormed(m: Table) { [] !in m && forall k <- m.Keys :: Strip(m[k].path) == k }

  /** One leading slash makes no difference. */
  lemma LeadingSlashIsOptional(p: Text)
    ensures Strip([SLASH] + p) == p
    ensures p == [] || p[0] as char != '/' ==> Strip(p) == p
  {
  }

  lemma InsertKeeps(m: Table, path: Text, children: bool)
    requires WellFormed(m)
    ensures WellFormed(Insert(m, path, children))
    ensures Strip(path) == [] || Strip(path) in m ==> Insert(m, path, children) == m
    ensures Strip(path) != [] && Strip(path) !in m ==>
              && Insert(m, path, children) == m[Strip(path) := Event(path, children)]
              && Query(Insert(m, path, children), Strip(path)) == Some(|Strip(path)|)
    ensures forall p <- m.Keys ::
              (Query(Insert(m, path, children), p) == Query(m, p) == Some(|p|) && Insert(m, path, children)[p] == m[p])
  {
    var n := Insert(m, path, children);
    AnswersAreCandidates(n, Strip(path));
    forall p <- m.Keys ensures Query(n, p) == Query(m, p) == Some(|p|) && n[p] == m[p] {
      AnswersAreCandidates(m, p);
      AnswersAreCandidates(n, p);
    }
  }

  /** A registration changes the answers only to the paths that it continues, and, if it answers
      the paths below it, to those that continue it. */
  lemma InsertIsLocal(m: Table, path: Text, children: bool, p: Text)
    requires !(p <= Strip(path)) && !(children && Strip(path) <= p)
    ensures Query(Insert(m, path, children), p) == Query(m, p)
  {
    if Insertable(m, path) {
      var n, k := Insert(m, path, children), Strip(path);
      assert n.Keys == m.Keys + {k};
      assert Inside(n, p) == Inside(m, p) by {
        if Inside(n, p) && p != [] {
          var q :| q in n.Keys && p <= q;
          assert q in m.Keys;
        }
        if Inside(m, p) && p != [] {
          var q :| q in m.Keys && p <= q;
          assert q in n.Keys;
        }
      }
      SameDeepest(m, n, k, p, |p|);
    }
  }

  lemma {:induction false} SameDeepest(m: Table, n: Table, k: Text, p: Text, i: nat)
    requires i <= |p| && n.Keys == m.Keys + {k} && k !in m
    requires (forall q <- m.Keys :: n[q] == m[q]) && (n[k].children ==> !(k <= p))
    ensures Deepest(n, p, i) == Deepest(m, p, i)
  {
    if i > 0 {
      SameDeepest(m, n, k, p, i - 1);
      assert p[..i - 1] == k ==> k <= p;
    }
  }

  // ----- the example of the test suite -----

  /** `/query-test/another-test` is not answered, although `/query-test` answers the paths below
      it, because `/query-test/an` does too and is nearer: `root/an` shadows `root`. */
  lemma NearerShadows(m: Table, root: Text, an: Text, rest: Text)
    requires root != [] && an != [] && rest != [] && rest[0] != SLASH
    requires HasChildren(m, root) && HasChildren(m, root + [SLASH] + an) && [] !in m
    requires !Inside(m, root + [SLASH] + an + rest)
    requires forall i :: 0 < i < |rest| ==> !HasChildren(m, root + [SLASH] + an + rest[..i])
    ensures var p := root + [SLASH] + an + rest; Candidate(m, p, |root|) && Query(m, p) == None
  {
    var near := root + [SLASH] + an;
    var p := near + rest;
    assert p[..|root|] == root && p[|root|] == SLASH && p[..|near|] == near && p[|near|] == rest[0];
    assert HasChildren(m, p[..|near|]);
    forall d | |near| < d < |p| ensures !HasChildren(m, p[..d]) {
      assert p[..d] == near + rest[..d - |near|];
    }
  }

  lemma AnotherTest()
    ensures var m := map[[97] := Event([SLASH, 97], true), [97, SLASH, 98] := Event([SLASH, 97, SLASH, 98], true)];
            var p := [97, SLASH, 98, 99];
            Candidate(m, p, 1) && Query(m, p) == None
  {
    var m := map[[97] := Event([SLASH, 97], true), [97, SLASH, 98] := Event([SLASH, 97, SLASH, 98], true)];
    assert [97] + [SLASH] + [98] == [97, SLASH, 98];
    NearerShadows(m, [97], [98], [99]);
    assert [97] + [SLASH] + [98] + [99] == [97, SLASH, 98, 99];
  }
}
