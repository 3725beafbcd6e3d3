/** The node tree the XPath evaluator walks, and the node-list primitives of
    XPathEvaluator: unique, children, descendantsOrSelves, parent, tag, txt,
    attrib and singleton.

    A document store is a sequence of node records indexed by `NodeId`; node
    identity is `NodeId` equality. In a valid store every child has a larger
    identifier than its parent (any pre-order numbering has this shape), which
    makes the tree finite and acyclic. */
module Dom {
  import opened Wrappers
  import opened Seqs

  type NodeId = nat

  datatype Kind = DocumentNode | ElementNode | AttributeNode | TextNode

  /** One node: `name` is what the DOM calls the node name (the tag of an
      element, the name of an attribute), `owner` is the owning element of an
      attribute node, `attributes` maps attribute names to attribute nodes. */
  datatype NodeRec = NodeRec(
    kind: Kind,
    name: string,
    children: seq<NodeId>,
    parent: Option<NodeId>,
    owner: Option<NodeId>,
    attributes: map<string, NodeId>,
    text: string)

  /** All nodes of all documents, and the root node of every document file
      that can be loaded, by file name. */
  datatype Document = Document(nodes: seq<NodeRec>, roots: map<string, NodeId>)

  ghost predicate Valid(d: Document)
  {
    forall i, j :: 0 <= i < |d.nodes| && 0 <= j < |d.nodes[i].children| ==>
      i < d.nodes[i].children[j] < |d.nodes|
  }

  /** The two directions of the tree agree: every child in the store records
      the node whose child list holds it as its parent, and no attribute node
      is a child (the DOM keeps attributes apart from `getChildNodes`). */
  ghost predicate Linked(d: Document)
  {
    forall i, j :: 0 <= i < |d.nodes| && 0 <= j < |d.nodes[i].children| && d.nodes[i].children[j] < |d.nodes| ==>
      d.nodes[d.nodes[i].children[j]].kind != AttributeNode && d.nodes[d.nodes[i].children[j]].parent == Some(i)
  }

  /** The child list of `n` (empty for an identifier outside the store). */
  function ChildSeq(d: Document, n: NodeId): seq<NodeId>
  {
    if n < |d.nodes| then d.nodes[n].children else []
  }

  /** `tag(n)`: the node name. */
  function Tag(d: Document, n: NodeId): string
  {
    if n < |d.nodes| then d.nodes[n].name else ""
  }

  predicate HasKind(d: Document, n: NodeId, k: Kind)
  {
    n < |d.nodes| && d.nodes[n].kind == k
  }

  predicate IsNonEmptyText(d: Document, n: NodeId)
  {
    HasKind(d, n, TextNode) && d.nodes[n].text != ""
  }

  /** `root(fn)`: the quotes around the file literal are stripped; a file that
      cannot be loaded gives the empty list (the exception is swallowed). */
  function Root(d: Document, fileLiteral: string): (r: seq<NodeId>)
    ensures |r| <= 1
    ensures r != [] <==> |fileLiteral| >= 2 && fileLiteral[1..|fileLiteral| - 1] in d.roots
    ensures r != [] ==> r == [d.roots[fileLiteral[1..|fileLiteral| - 1]]]
  {
    if |fileLiteral| < 2 then []
    else
      var fn := fileLiteral[1..|fileLiteral| - 1];
      if fn in d.roots then [d.roots[fn]] else []
  }

  /* ---------------------------------------------------------------- unique */

  /** Reference definition of `unique`: scan left to right, keeping a node
      only when it has not been kept before. */
  function Dedup(s: seq<NodeId>): seq<NodeId>
  {
    if s == [] then []
    else
      var u := Dedup(s[..|s| - 1]);
      if s[|s| - 1] in u then u else u + [s[|s| - 1]]
  }

  /** `unique(nodes)`. */
  method Unique(nodes: seq<NodeId>) returns (u: seq<NodeId>)
    ensures u == Dedup(nodes)
  {
    u := [];
    for i := 0 to |nodes|
      invariant u == Dedup(nodes[..i])
    {
      assert nodes[..i + 1][..i] == nodes[..i];
      if nodes[i] !in u {
        u := u + [nodes[i]];
      }
    }
    assert nodes[..|nodes|] == nodes;
  }

  /** The result of `unique` has no duplicates, holds exactly the input's
      nodes, is never longer than the input, and lists the nodes in the order
      of their first occurrence in the input. */
  lemma {:induction false} DedupSpec(s: seq<NodeId>)
    ensures NoDup(Dedup(s))
    ensures forall x :: x in Dedup(s) <==> x in s
    ensures |Dedup(s)| <= |s|
    ensures forall i, j :: 0 <= i < j < |Dedup(s)| ==>
      Dedup(s)[i] in s && Dedup(s)[j] in s && IndexOf(s, Dedup(s)[i]) < IndexOf(s, Dedup(s)[j])
  {
    if s != [] {
      var init, x := s[..|s| - 1], s[|s| - 1];
      assert s == init + [x];
      DedupSpec(init);
      var u := Dedup(init);
      forall y | y in u
        ensures IndexOf(s, y) == IndexOf(init, y)
      {
        IndexOfPrefix(init, [x], y);
      }
      if x !in u {
        IndexOfLast(init, x);
        var u' := u + [x];
        forall i, j | 0 <= i < j < |u'|
          ensures u'[i] in s && u'[j] in s && IndexOf(s, u'[i]) < IndexOf(s, u'[j])
        {
          assert u'[i] == u[i];
          if j < |u| {
            assert u'[j] == u[j];
          }
        }
      }
    }
  }

  lemma DedupMember(s: seq<NodeId>, x: NodeId)
    ensures x in Dedup(s) <==> x in s
  {
    DedupSpec(s);
  }

  lemma {:induction false} DedupOfNoDup(t: seq<NodeId>)
    requires NoDup(t)
    ensures Dedup(t) == t
  {
    if t != [] {
      var init := t[..|t| - 1];
      DedupOfNoDup(init);
      assert t == init + [t[|t| - 1]];
    }
  }

  /** `unique` is idempotent. */
  lemma DedupIdempotent(s: seq<NodeId>)
    ensures Dedup(Dedup(s)) == Dedup(s)
  {
    DedupSpec(s);
    DedupOfNoDup(Dedup(s));
  }

  /* -------------------------------------------------------------- children */

  /** `children(n)`: the child list of `n`, copied in document order. */
  method Children(d: Document, n: NodeId) returns (r: seq<NodeId>)
    ensures r == ChildSeq(d, n)
  {
    r := [];
    if n < |d.nodes| {
      var cs := d.nodes[n].children;
      for i := 0 to |cs|
        invariant r == cs[..i]
      {
        r := r + [cs[i]];
      }
      assert cs[..|cs|] == cs;
    }
  }

  function ChildrenOf(d: Document): NodeId -> seq<NodeId>
  {
    (n: NodeId) => ChildSeq(d, n)
  }

  /* ------------------------------------------------- descendant-or-self */

  /** The node and all its descendants, in pre-order (document order). */
  function DescendantsOrSelf(d: Document, n: NodeId): (r: seq<NodeId>)
    requires Valid(d)
    ensures r != [] && r[0] == n
    decreases |d.nodes| - n, 1
  {
    if n < |d.nodes| then [n] + Forest(d, d.nodes[n].children, n) else [n]
  }

  function Forest(d: Document, cs: seq<NodeId>, p: NodeId): seq<NodeId>
    requires Valid(d) && p < |d.nodes|
    requires forall j :: 0 <= j < |cs| ==> p < cs[j] < |d.nodes|
    decreases |d.nodes| - p, 0, |cs|
  {
    if cs == [] then [] else DescendantsOrSelf(d, cs[0]) + Forest(d, cs[1..], p)
  }

  /** The concatenation of the descendant-or-self lists of every node of `s`. */
  function Expand(d: Document, s: seq<NodeId>): seq<NodeId>
    requires Valid(d)
  {
    if s == [] then [] else DescendantsOrSelf(d, s[0]) + Expand(d, s[1..])
  }

  lemma {:induction false} ForestIsExpand(d: Document, cs: seq<NodeId>, p: NodeId)
    requires Valid(d) && p < |d.nodes|
    requires forall j :: 0 <= j < |cs| ==> p < cs[j] < |d.nodes|
    ensures Forest(d, cs, p) == Expand(d, cs)
  {
    if cs != [] {
      ForestIsExpand(d, cs[1..], p);
    }
  }

  lemma DescendantsOrSelfUnfold(d: Document, n: NodeId)
    requires Valid(d)
    ensures DescendantsOrSelf(d, n) == [n] + Expand(d, ChildSeq(d, n))
  {
    if n < |d.nodes| {
      ForestIsExpand(d, d.nodes[n].children, n);
    }
  }

  lemma {:induction false} ExpandConcat(d: Document, a: seq<NodeId>, b: seq<NodeId>)
    requires Valid(d)
    ensures Expand(d, a + b) == Expand(d, a) + Expand(d, b)
  {
    if a == [] {
      assert a + b == b;
    } else {
      assert (a + b)[1..] == a[1..] + b;
      ExpandConcat(d, a[1..], b);
    }
  }

  lemma {:induction false} ExpandMember(d: Document, s: seq<NodeId>, x: NodeId)
    requires Valid(d)
    ensures x in Expand(d, s) <==> exists i :: 0 <= i < |s| && x in DescendantsOrSelf(d, s[i])
  {
    if s != [] {
      ExpandMember(d, s[1..], x);
      if x in Expand(d, s[1..]) {
        var i :| 0 <= i < |s[1..]| && x in DescendantsOrSelf(d, s[1..][i]);
        assert s[i + 1] == s[1..][i];
      }
      if exists i :: 0 <= i < |s| && x in DescendantsOrSelf(d, s[i]) {
        var i :| 0 <= i < |s| && x in DescendantsOrSelf(d, s[i]);
        if i > 0 {
          assert s[1..][i - 1] == s[i];
        }
      }
    }
  }

  /** All children of the nodes of `s`, in order. */
  function Kids(d: Document, s: seq<NodeId>): seq<NodeId>
  {
    FlatMap(s, ChildrenOf(d))
  }

  lemma KidsCons(d: Document, x: NodeId, r: seq<NodeId>)
    ensures Kids(d, [x] + r) == ChildSeq(d, x) + Kids(d, r)
  {
    FlatMapConcat([x], r, ChildrenOf(d));
    FlatMapSingle(x, ChildrenOf(d));
  }

  /** Expanding a list yields the list itself plus the expansion of all its
      children. */
  lemma {:induction false} ExpandSplit(d: Document, s: seq<NodeId>)
    requires Valid(d)
    ensures multiset(Expand(d, s)) == multiset(s) + multiset(Expand(d, Kids(d, s)))
  {
    if s == [] {
      assert Kids(d, s) == [];
    } else {
      var x, r := s[0], s[1..];
      assert s == [x] + r;
      ExpandSplit(d, r);
      DescendantsOrSelfUnfold(d, x);
      KidsCons(d, x, r);
      ExpandConcat(d, ChildSeq(d, x), Kids(d, r));
    }
  }

  lemma BfsStepShrinks(d: Document, queue: seq<NodeId>)
    requires Valid(d) && queue != []
    ensures |Expand(d, queue[1..] + ChildSeq(d, queue[0]))| < |Expand(d, queue)|
  {
    DescendantsOrSelfUnfold(d, queue[0]);
    ExpandConcat(d, queue[1..], ChildSeq(d, queue[0]));
  }

  /** The breadth-first walk of `descendantsOrSelves`: take the head of the
      queue, append its children both to the output and to the queue. */
  function Bfs(d: Document, ns: seq<NodeId>, queue: seq<NodeId>): seq<NodeId>
    requires Valid(d)
    decreases |Expand(d, queue)|
  {
    if queue == [] then ns
    else
      var ch := ChildSeq(d, queue[0]);
      BfsStepShrinks(d, queue);
      Bfs(d, ns + ch, queue[1..] + ch)
  }

  function BreadthFirst(d: Document, nodes: seq<NodeId>): seq<NodeId>
    requires Valid(d)
  {
    Bfs(d, nodes, nodes)
  }

  /** `descendantsOrSelves(nodes)`: a queue-driven breadth-first walk. */
  method DescendantsOrSelves(d: Document, nodes: seq<NodeId>) returns (ns: seq<NodeId>)
    requires Valid(d)
    ensures ns == BreadthFirst(d, nodes)
  {
    var queue := nodes;
    ns := nodes;
    while queue != []
      invariant Bfs(d, ns, queue) == BreadthFirst(d, nodes)
      decreases |Expand(d, queue)|
    {
      BfsStepShrinks(d, queue);
      var c := queue[0];
      queue := queue[1..];
      var children := Children(d, c);
      ns := ns + children;
      queue := queue + children;
    }
  }

  lemma {:induction false} BfsPrefix(d: Document, ns: seq<NodeId>, queue: seq<NodeId>)
    requires Valid(d)
    ensures ns <= Bfs(d, ns, queue)
    decreases |Expand(d, queue)|
  {
    if queue != [] {
      var ch := ChildSeq(d, queue[0]);
      BfsStepShrinks(d, queue);
      BfsPrefix(d, ns + ch, queue[1..] + ch);
    }
  }

  lemma {:induction false} BfsMultiset(d: Document, ns: seq<NodeId>, queue: seq<NodeId>)
    requires Valid(d)
    ensures multiset(Bfs(d, ns, queue)) == multiset(ns) + multiset(Expand(d, Kids(d, queue)))
    decreases |Expand(d, queue)|
  {
    if queue == [] {
      assert Kids(d, queue) == [];
    } else {
      var c, r := queue[0], queue[1..];
      var ch := ChildSeq(d, c);
      BfsStepShrinks(d, queue);
      BfsMultiset(d, ns + ch, r + ch);
      KidsStep(d, queue);
    }
  }

  /** One step of the walk moves the children of the head from the pending
      expansion to the output. */
  lemma KidsStep(d: Document, queue: seq<NodeId>)
    requires Valid(d) && queue != []
    ensures multiset(ChildSeq(d, queue[0])) + multiset(Expand(d, Kids(d, queue[1..] + ChildSeq(d, queue[0]))))
         == multiset(Expand(d, Kids(d, queue)))
  {
    var c, r := queue[0], queue[1..];
    var ch := ChildSeq(d, c);
    FlatMapConcat(r, ch, ChildrenOf(d));
    ExpandConcat(d, Kids(d, r), Kids(d, ch));
    ExpandSplit(d, ch);
    assert queue == [c] + r;
    KidsCons(d, c, r);
    ExpandConcat(d, ch, Kids(d, r));
  }

  /** The input list is a prefix of the output of `descendantsOrSelves`, and
      the output is a permutation of the pre-order descendant-or-self lists
      of the input nodes, taken one after the other. */
  lemma BreadthFirstSpec(d: Document, nodes: seq<NodeId>)
    requires Valid(d)
    ensures nodes <= BreadthFirst(d, nodes)
    ensures multiset(BreadthFirst(d, nodes)) == multiset(Expand(d, nodes))
  {
    BfsPrefix(d, nodes, nodes);
    BfsMultiset(d, nodes, nodes);
    ExpandSplit(d, nodes);
  }

  /** Every output node of `descendantsOrSelves` is an input node or one of
      its descendants, and every descendant of every input node is output. */
  lemma BreadthFirstMember(d: Document, nodes: seq<NodeId>, x: NodeId)
    requires Valid(d)
    ensures x in BreadthFirst(d, nodes) <==>
      exists i :: 0 <= i < |nodes| && x in DescendantsOrSelf(d, nodes[i])
  {
    BreadthFirstSpec(d, nodes);
    assert x in BreadthFirst(d, nodes) <==> x in multiset(BreadthFirst(d, nodes));
    assert x in Expand(d, nodes) <==> x in multiset(Expand(d, nodes));
    ExpandMember(d, nodes, x);
  }

  lemma BreadthFirstIn(d: Document, nodes: seq<NodeId>, x: NodeId)
    requires Valid(d)
    ensures x in BreadthFirst(d, nodes) <==> exists w :: w in nodes && x in DescendantsOrSelf(d, w)
  {
    BreadthFirstMember(d, nodes, x);
  }

  /* ------------------------------------------------ parent, txt, attrib */

  /** `parent(n)`: the owner element of an attribute node, the parent node of
      any other node; empty when there is none. */
  function Parent(d: Document, n: NodeId): (r: seq<NodeId>)
    ensures |r| <= 1
    ensures forall p :: p in r <==>
      n < |d.nodes| &&
      (if d.nodes[n].kind == AttributeNode then d.nodes[n].owner == Some(p)
       else d.nodes[n].parent == Some(p))
  {
    if n >= |d.nodes| then []
    else
      var p := if d.nodes[n].kind == AttributeNode then d.nodes[n].owner else d.nodes[n].parent;
      if p.Some? then [p.value] else []
  }
  /** In a linked store the parent of every child is the node it is a child
      of. */
  lemma ParentOfChild(d: Document, n: NodeId, c: NodeId)
    requires Valid(d) && Linked(d) && c in ChildSeq(d, n)
    ensures Parent(d, c) == [n]
  {
    var j :| 0 <= j < |d.nodes[n].children| && d.nodes[n].children[j] == c;
    assert d.nodes[c].kind != AttributeNode && d.nodes[c].parent == Some(n);
  }


  function NonEmptyText(d: Document): NodeId -> bool
  {
    (c: NodeId) => IsNonEmptyText(d, c)
  }

  /** Reference definition of `txt(n)`. */
  function TextChildren(d: Document, n: NodeId): seq<NodeId>
  {
    Filter(ChildSeq(d, n), NonEmptyText(d))
  }

  /** `txt(n)`: the loop over the children keeping non-empty text nodes. */
  method Txt(d: Document, n: NodeId) returns (r: seq<NodeId>)
    ensures r == TextChildren(d, n)
  {
    var children := Children(d, n);
    r := [];
    for i := 0 to |children|
      invariant r == Filter(children[..i], NonEmptyText(d))
    {
      assert children[..i + 1][..i] == children[..i];
      var c := children[i];
      if HasKind(d, c, TextNode) && d.nodes[c].text != "" {
        r := r + [c];
      }
    }
    assert children[..|children|] == children;
  }

  /** `txt(n)` holds exactly the text children of `n` with non-empty content,
      as a subsequence of the child list. */
  lemma TextChildrenSpec(d: Document, n: NodeId)
    ensures forall x :: x in TextChildren(d, n) <==>
      x in ChildSeq(d, n) && HasKind(d, x, TextNode) && d.nodes[x].text != ""
    ensures IsSubseq(TextChildren(d, n), ChildSeq(d, n))
  {
    forall x
      ensures x in TextChildren(d, n) <==> x in ChildSeq(d, n) && IsNonEmptyText(d, x)
    {
      FilterMember(ChildSeq(d, n), NonEmptyText(d), x);
    }
    FilterIsSubseq(ChildSeq(d, n), NonEmptyText(d));
  }

  /** `attrib(n, a)`: empty unless `n` is an element carrying attribute `a`,
      in which case the singleton of that attribute node. */
  function Attrib(d: Document, n: NodeId, a: string): (r: seq<NodeId>)
    ensures r == [] <==> !HasKind(d, n, ElementNode) || a !in d.nodes[n].attributes
    ensures r != [] ==> r == [d.nodes[n].attributes[a]]
  {
    if !HasKind(d, n, ElementNode) then []
    else if a !in d.nodes[n].attributes then []
    else [d.nodes[n].attributes[a]]
  }

  /** `singleton(x)`: empty for null, otherwise `[x]`. */
  function Singleton(x: Option<NodeId>): (r: seq<NodeId>)
    ensures |r| <= 1
    ensures forall y :: y in r <==> x == Some(y)
    ensures x.Some? ==> r == [x.value]
  {
    if x.Some? then [x.value] else []
  }
}
