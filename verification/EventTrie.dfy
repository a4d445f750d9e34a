/**
 The trie that finds the event of a path.
 */
module EventTrie {
  import opened Options
  import opened Bytes
  import opened CleanPaths
  import opened EventTable

  lemma Snoc(p: Text, b: Byte, q: Text, c: Byte)
    ensures p + [b] == q + [c] <==> p == q && b == c
    ensures (p + [b])[..|p + [b]| - 1] == p
  {
    if p + [b] == q + [c] {
      assert (p + [b])[..|p|] == p && (q + [c])[..|q|] == q;
    }
  }

  lemma StripIndexable(path: Text)
    requires Indexable(path)
    ensures Indexable(Strip(path))
  {
    forall b | b in Strip(path) ensures b in path { }
  }

  class Node {
    var ev: Option<Event>
    const childs: array<Node?>

    constructor ()
      ensures ev == None && fresh(childs) && childs.Length == 78
      ensures forall c :: 0 <= c < 78 ==> childs[c] == null
    {
      ev := None;
      childs := new Node?[78](_ => null);
    }
  }

  /** The nodes on the way to `p` have been added. */
  ghost predicate Extended(before: Nodes, nodes: Nodes, p: Text) {
    && before.Keys <= nodes.Keys && (forall q {:trigger nodes[q]} {:trigger q in nodes} :: q in before ==> nodes[q] == before[q])
    && forall q {:trigger q in nodes} :: q in nodes && q !in before ==> q <= p
  }

  lemma ExtendedMore(before: Nodes, nodes: Nodes, p: Text, i: nat, child: Node)
    requires Extended(before, nodes, p) && i <= |p| && p[..i] !in nodes
    ensures Extended(before, nodes[p[..i] := child], p)
  {
  }

  // ----- the tree, as values: its nodes by path, and the children of each -----

  type Nodes = map<Text, Node>
  type Links = map<Text, seq<Node?>>

  /** The children of a node are the nodes whose paths are one byte longer. */
  ghost predicate Linked(nodes: Nodes, links: Links, p: Text) {
    && p in links && |links[p]| == 78
    && forall b: Byte {:trigger links[p][b as int - 45]} :: 45 <= b <= 122 ==>
         links[p][b as int - 45] == if p + [b] in nodes then nodes[p + [b]] else null
  }

  ghost predicate HasParent(nodes: Nodes, p: Text) { p != [] ==> p[..|p| - 1] in nodes }

  ghost predicate Apart(nodes: Nodes, p: Text, q: Text)
    requires p in nodes && q in nodes
  {
    p != q ==> nodes[p] != nodes[q] && nodes[p].childs != nodes[q].childs
  }

  ghost predicate Tree(root: Node, nodes: Nodes, links: Links) {
    && [] in nodes && nodes[[]] == root && links.Keys == nodes.Keys
    && (forall p {:trigger Linked(nodes, links, p)} :: p in nodes ==> Linked(nodes, links, p))
    && (forall p {:trigger HasParent(nodes, p)} :: p in nodes ==> HasParent(nodes, p))
    && (forall p, q {:trigger Apart(nodes, p, q)} :: p in nodes && q in nodes ==> Apart(nodes, p, q))
  }

  /** A tree stays a tree when a missing child is added. */
  lemma TreeMore(root: Node, nodes: Nodes, links: Links, p: Text, b: Byte, child: Node)
    requires Tree(root, nodes, links) && p in nodes && 45 <= b <= 122 && p + [b] !in nodes
    requires forall q <- nodes.Keys :: nodes[q] != child && nodes[q].childs != child.childs
    ensures Linked(nodes, links, p)
    ensures Tree(root, nodes[p + [b] := child],
                 links[p := links[p][b as int - 45 := child]][p + [b] := seq(78, _ => null)])
  {
    assert Linked(nodes, links, p);
    Snoc(p, b, p, b);
    var nodes' := nodes[p + [b] := child];
    var links' := links[p := links[p][b as int - 45 := child]][p + [b] := seq(78, _ => null)];
    forall q | q in nodes' ensures Linked(nodes', links', q) {
      LinkedMore(root, nodes, links, p, b, child, q);
    }
    forall q | q in nodes' ensures HasParent(nodes', q) {
      assert q in nodes ==> HasParent(nodes, q);
    }
    forall q, r | q in nodes' && r in nodes' ensures Apart(nodes', q, r) {
      assert q in nodes && r in nodes ==> Apart(nodes, q, r);
    }
  }

  lemma LinkedMore(root: Node, nodes: Nodes, links: Links, p: Text, b: Byte, child: Node, q: Text)
    requires Tree(root, nodes, links) && p in nodes && 45 <= b <= 122 && p + [b] !in nodes
    requires Linked(nodes, links, p) && q in nodes[p + [b] := child]
    ensures Linked(nodes[p + [b] := child],
                   links[p := links[p][b as int - 45 := child]][p + [b] := seq(78, _ => null)], q)
  {
    var nodes' := nodes[p + [b] := child];
    var links' := links[p := links[p][b as int - 45 := child]][p + [b] := seq(78, _ => null)];
    assert q in nodes ==> Linked(nodes, links, q);
    forall c: Byte | 45 <= c <= 122
      ensures links'[q][c as int - 45] == if q + [c] in nodes' then nodes'[q + [c]] else null
    {
      Snoc(q, c, p, b);
      Snoc(q, c, q, c);
      assert q + [c] in nodes ==> HasParent(nodes, q + [c]);
    }
  }

  // ----- the events, as values -----

  type Held = map<Text, Option<Event>>

  ghost predicate Label(held: Held, table: Table, p: Text)
    requires p in held
  {
    held[p] == if p in table then Some(table[p]) else None
  }

  /** The trie refines a table: it has nodes for the prefixes of its paths, and no others, and
      they hold its events. */
  ghost predicate Refines(held: Held, table: Table) {
    && WellFormed(table) && table.Keys <= held.Keys
    && (forall p {:trigger Label(held, table, p)} :: p in held ==> Label(held, table, p))
    && (forall p {:trigger Inside(table, p)} :: p in held ==> Inside(table, p))
  }

  /** Empty nodes have been added on the way to a path. */
  ghost predicate HeldMore(before: Held, held: Held, p: Text) {
    && p in held
    && before.Keys <= held.Keys && (forall q {:trigger held[q]} :: q in before ==> held[q] == before[q])
    && forall q {:trigger held[q]} :: q in held && q !in before ==> q <= p && held[q] == None
  }

  lemma RefinesMore(before: Held, held: Held, table: Table, p: Text, ev: Event)
    requires Refines(before, table) && HeldMore(before, held, p) && p != [] && Strip(ev.path) == p
    ensures held[p].Some? <==> p in table
    ensures p in table ==> Refines(held, table)
    ensures p !in table ==> Refines(held[p := Some(ev)], table[p := ev])
  {
    assert p in before ==> Label(before, table, p);
    var held' := if p in table then held else held[p := Some(ev)];
    var table' := if p in table then table else table[p := ev];
    forall q | q in held' ensures Label(held', table', q) && Inside(table', q) {
      assert q in before ==> Label(before, table, q) && Inside(table, q);
      assert held'[q] == if q == p && p !in table then Some(ev) else held[q];
      if q in before && q != [] {
        var k :| k in table.Keys && q <= k;
        assert k in table'.Keys;
      } else {
        assert p in table'.Keys;
      }
    }
  }

  class Trie {
    const root: Node
    /** The nodes by path, and the events that the nodes are there for. */
    ghost var nodes: map<Text, Node>
    ghost var table: Table

    ghost function Repr(): set<object>
      reads this
    {
      nodes.Values + set n <- nodes.Values :: n.childs
    }

    ghost function Children(): Links
      reads this`nodes, set n <- nodes.Values :: n.childs
    {
      map p <- nodes.Keys :: nodes[p].childs[..]
    }

    ghost predicate Shape()
      reads this`nodes, set n <- nodes.Values :: n.childs
    {
      Tree(root, nodes, Children())
    }

    ghost function Events(): Held
      reads this`nodes, nodes.Values
    {
      map p <- nodes.Keys :: nodes[p].ev
    }

    ghost predicate Valid()
      reads this, Repr()
    {
      Shape() && Refines(Events(), table)
    }

    constructor ()
      ensures Valid() && table == map[] && fresh(Repr())
    {
      root := new Node();
      nodes := map[[] := root];
      table := map[];
    }

    /** A node for one more byte. */
    method AddChild(ghost p: Text, parent: Node, b: Byte) returns (child: Node)
      requires Shape() && p in nodes && parent == nodes[p] && 45 <= b <= 122 && p + [b] !in nodes
      modifies this`nodes, parent.childs
      ensures fresh(child) && fresh(child.childs) && child.ev == None
      ensures Shape() && nodes == old(nodes)[p + [b] := child]
    {
      ghost var links := Children();
      ChildOf(p, b);
      forall q | q in nodes && q != p ensures nodes[q].childs != parent.childs {
        assert Apart(nodes, q, p);
      }
      child := new Node();
      TreeMore(root, nodes, links, p, b, child);
      parent.childs[b as int - 45] := child;
      nodes := nodes[p + [b] := child];
      ghost var links' := links[p := links[p][b as int - 45 := child]][p + [b] := seq(78, _ => null)];
      forall q | q in nodes ensures Children()[q] == links'[q] {
        if q != p && q != p + [b] {
          assert nodes[q].childs[..] == links[q];
        }
      }
      assert Children() == links';
    }

    lemma ChildOf(p: Text, b: Byte)
      requires Shape() && p in nodes && 45 <= b <= 122
      ensures nodes[p].childs.Length == 78
      ensures nodes[p].childs[b as int - 45] == if p + [b] in nodes then nodes[p + [b]] else null
    {
      assert Linked(nodes, Children(), p);
      assert nodes[p].childs[b as int - 45] == Children()[p][b as int - 45];
    }

    lemma {:induction false} Prefixes(p: Text, i: nat)
      requires Shape() && i <= |p|
      ensures p in nodes ==> p[..i] in nodes
      decreases |p|
    {
      if i == |p| {
        assert p[..i] == p;
      } else {
        assert p in nodes ==> HasParent(nodes, p);
        Prefixes(p[..|p| - 1], i);
        assert p[..|p| - 1][..i] == p[..i];
      }
    }

    /** The paths inside the table are the paths of the nodes. */
    lemma InsideHasNode(p: Text)
      requires Valid()
      ensures Inside(table, p) <==> p in nodes
    {
      if Inside(table, p) && p != [] {
        var k :| k in table.Keys && p <= k;
        Prefixes(k, |p|);
        assert k[..|p|] == p;
      }
    }

    lemma NodeHandlesChildren(p: Text)
      requires Valid() && p in nodes
      ensures (nodes[p].ev.Some? && nodes[p].ev.value.children) == HasChildren(table, p)
    {
      assert Label(Events(), table, p);
    }

    /** Finds the node of a path, and makes the nodes that are missing on the way. */
    method Descend(p: Text) returns (node: Node)
      requires Shape() && Indexable(p)
      modifies this`nodes, set n <- nodes.Values :: n.childs
      ensures Shape() && p in nodes && node == nodes[p]
      ensures Extended(old(nodes), nodes, p)
      ensures forall q {:trigger nodes[q]} :: q in nodes && q !in old(nodes) ==> fresh(nodes[q]) && fresh(nodes[q].childs) && nodes[q].ev == None
    {
      node := root;
      var i := 0;
      assert p[..0] == [];
      while i < |p|
        invariant i <= |p| && Shape() && p[..i] in nodes && node == nodes[p[..i]]
        invariant Extended(old(nodes), nodes, p)
        invariant forall q {:trigger nodes[q]} :: q in nodes && q !in old(nodes) ==> fresh(nodes[q]) && fresh(nodes[q].childs) && nodes[q].ev == None
      {
        ghost var was := nodes;
        node := Advance(p, i, node);
        i := i + 1;
        if nodes != was {
          ExtendedMore(old(nodes), was, p, i, node);
        }
      }
      assert p[..i] == p;
    }

    method Advance(p: Text, i: nat, node: Node) returns (child: Node)
      requires Shape() && i < |p| && Indexable(p) && p[..i] in nodes && node == nodes[p[..i]]
      modifies this`nodes, node.childs
      ensures Shape() && p[..i + 1] in nodes && child == nodes[p[..i + 1]]
      ensures nodes == old(nodes) || (p[..i + 1] !in old(nodes) && nodes == old(nodes)[p[..i + 1] := child])
      ensures nodes != old(nodes) ==> fresh(child) && fresh(child.childs) && child.ev == None
    {
      assert p[..i + 1] == p[..i] + [p[i]] && p[i] in p;
      ChildOf(p[..i], p[i]);
      var next := node.childs[p[i] as int - 45];
      if next == null {
        child := AddChild(p[..i], node, p[i]);
      } else {
        child := next;
      }
    }

    /** Follows a path as far as it goes. */
    method Walk(p: Text) returns (node: Node?, start: Option<nat>, handler: Node?)
      requires Valid() && Indexable(p)
      ensures node == if p in nodes then nodes[p] else null
      ensures start == Deepest(table, p, |p|)
      ensures start.Some? ==> p[..start.value] in nodes && handler == nodes[p[..start.value]]
    {
      var i := 0;
      node, start, handler := root, None, null;
      assert p[..0] == [];
      while i < |p|
        invariant Valid() && i <= |p| && p[..i] in nodes && node == nodes[p[..i]]
        invariant start == Deepest(table, p, i)
        invariant start.Some? ==> p[..start.value] in nodes && handler == nodes[p[..start.value]]
      {
        assert p[..i + 1] == p[..i] + [p[i]] && p[i] in p;
        ChildOf(p[..i], p[i]);
        var child := node.childs[p[i] as int - 45];
        NodeHandlesChildren(p[..i]);
        if node.ev.Some? && node.ev.value.children {
          start, handler := Some(i), node;
        }
        if child == null {
          FellOff(p, i + 1);
          return null, start, handler;
        }
        node := child;
        i := i + 1;
      }
      assert p[..i] == p;
    }

    /** Nothing below a missing node is there. */
    lemma FellOff(p: Text, i: nat)
      requires Valid() && i <= |p| && p[..i] !in nodes
      ensures p !in nodes && Deepest(table, p, |p|) == Deepest(table, p, i)
    {
      Prefixes(p, i);
      forall j | i <= j < |p| ensures !HasChildren(table, p[..j]) {
        Prefixes(p[..j], i);
        assert p[..j][..i] == p[..i];
      }
      NoDeeper(table, p, i, |p|);
    }

    /** What the nodes hold is still right, or will be once the event is set. */
    method Reach(p: Text, ghost ev: Event) returns (node: Node)
      requires Valid() && Indexable(p) && p != [] && Strip(ev.path) == p
      modifies this`nodes, set n <- nodes.Values :: n.childs
      ensures Shape() && p in nodes && node == nodes[p] && Extended(old(nodes), nodes, p)
      ensures fresh(node) || node in old(nodes.Values)
      ensures node.ev.Some? <==> p in table
      ensures p in table ==> Valid()
      ensures p !in table ==> Refines(Events()[p := Some(ev)], table[p := ev])
    {
      ghost var before := Events();
      node := Descend(p);
      ghost var held := Events();
      assert HeldMore(before, held, p);
      assert held[p] == node.ev;
      RefinesMore(before, held, table, p, ev);
    }

    method WriteEvent(ghost p: Text, node: Node, ev: Event)
      requires Shape() && p in nodes && node == nodes[p]
      modifies node`ev
      ensures Events() == old(Events())[p := Some(ev)] && Children() == old(Children())
    {
      forall q | q in nodes && q != p ensures nodes[q] != node {
        assert Apart(nodes, q, p);
      }
      ghost var links := Children();
      node.ev := Some(ev);
      assert Children() == links;
    }

    method SetEvent(ghost p: Text, node: Node, ev: Event)
      requires Shape() && p in nodes && node == nodes[p]
      requires Refines(Events()[p := Some(ev)], table[p := ev])
      modifies this`table, node`ev
      ensures Valid() && table == old(table)[p := ev]
    {
      ghost var links, events := Children(), Events()[p := Some(ev)];
      WriteEvent(p, node, ev);
      table := table[p := ev];
      assert Children() == links && Events() == events;
    }

    method InsertAt(p: Text, ev: Event) returns (node: Node?)
      requires Valid() && Indexable(p) && p != [] && Strip(ev.path) == p
      modifies this, Repr()
      ensures Valid() && Extended(old(nodes), nodes, p)
      ensures table == if p in old(table) then old(table) else old(table)[p := ev]
      ensures node == if p in nodes && p !in old(table) then nodes[p] else null
      ensures p in nodes
    {
      node := Reach(p, ev);
      if node.ev.Some? {
        node := null;
      } else {
        SetEvent(p, node, ev);
      }
    }

    /** Registers an event, unless its path is empty or taken. */
    method Insert(path: Text, children: bool) returns (node: Node?)
      requires Valid() && Indexable(path)
      modifies this, Repr()
      ensures Valid() && Extended(old(nodes), nodes, Strip(path))
      ensures table == EventTable.Insert(old(table), path, children)
      ensures (node != null) == Insertable(old(table), path)
      ensures node != null ==> Strip(path) in nodes && node == nodes[Strip(path)]
    {
      var p := Strip(path);
      node := null;
      StripIndexable(path);
      if p != [] {
        node := InsertAt(p, Event(path, children));
      }
    }

    /** Finds the event of a path, and what it leaves of the path. */
    method Query(path: Text) returns (node: Node?, extra: Text)
      requires Valid() && Indexable(path)
      ensures var p := Strip(path);
              match EventTable.Query(table, p)
              case None => node == null
              case Some(j) => j <= |p| && p[..j] in table && p[..j] in nodes && node == nodes[p[..j]]
                              && node.ev == Some(table[p[..j]]) && extra == p[j..]
    {
      var p := Strip(path);
      InsideHasNode(p);
      StripIndexable(path);
      if p in nodes {
        assert Label(Events(), table, p);
      }
      var start, handler;
      node, start, handler := Walk(p);
      assert p[..|p|] == p;
      if node == null {
        if start.Some? && p[start.value] == SLASH {
          assert Label(Events(), table, p[..start.value]);
          return handler, p[start.value..];
        }
        return null, [];
      }
      if node.ev.Some? {
        return node, [];
      }
      return null, [];
    }

    /** Registers an event under the path that its parts make. */
    method AddHandler(prefix: Text, path: Text, children: bool) returns (node: Node?)
      requires Valid() && 0 !in prefix && 0 !in path
      modifies this, Repr()
      ensures Valid() && Extended(old(nodes), nodes, Strip(Clean(Joined(prefix, path, []))))
      ensures table == EventTable.Insert(old(table), Clean(Joined(prefix, path, [])), children)
      ensures (node != null) == Insertable(old(table), Clean(Joined(prefix, path, [])))
    {
      CleanIsIndexable(Joined(prefix, path, []));
      var p := PathOf(prefix, path);
      node := Insert(p, children);
    }

    method PathOf(prefix: Text, path: Text) returns (p: Text)
      requires Valid() && 0 !in prefix && 0 !in path
      ensures Valid() && p == Clean(Joined(prefix, path, []))
    {
      ghost var links, events := Children(), Events();
      p := MakePath(prefix, path, []);
      assert Children() == links && Events() == events;
    }

    /** Cleans the path of an event that came in, in place, and finds who answers it. */
    method Find(a: array<Byte>, at: nat, ghost s: Text) returns (node: Node?, extra: Text)
      requires Valid() && Holds(a[..], at, s) && 0 !in s
      modifies a
      ensures Valid() && Holds(a[..], at, Clean(s))
      ensures var p := Strip(Clean(s));
              match EventTable.Query(table, p)
              case None => node == null
              case Some(j) => j <= |p| && p[..j] in table && p[..j] in nodes && node == nodes[p[..j]]
                              && node.ev == Some(table[p[..j]]) && extra == p[j..]
    {
      CleanIsIndexable(s);
      var path := CleanedPath(a, at, s);
      node, extra := Query(path);
    }

    method CleanedPath(a: array<Byte>, at: nat, ghost s: Text) returns (path: Text)
      requires Valid() && Holds(a[..], at, s) && 0 !in s
      modifies a
      ensures Valid() && path == Clean(s) && Holds(a[..], at, path)
    {
      ghost var links, events, was := Children(), Events(), a[..];
      var n := CleanPath(a, at, s);
      HoldsStored(was, at, Clean(s));
      assert Children() == links && Events() == events;
      path := a[at..at + n];
      assert path == a[..][at..at + n];
    }
  }
}
