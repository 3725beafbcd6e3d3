/** The XPath dialect: the meaning of absolute paths, relative paths and
    filters over a node list (`EvalAp`, `EvalRp`, `EvalF`), and the visitor
    that computes it by threading one mutable context list `nodes` through
    the syntax tree, one method per syntax case.

    Value equality of two nodes (`isEqualNode` in the DOM) is a parameter of
    the evaluator; identity equality is `NodeId` equality. */
module XPath {
  import opened Wrappers
  import opened Seqs
  import opened Dom
  import opened Ast

  /** Structural equality of two nodes, as decided by the DOM. */
  type ValueEq = (NodeId, NodeId) -> bool

  /** Some node of `l` is value-equal to some node of `r`. */
  predicate ExistsEqual(eq: ValueEq, l: seq<NodeId>, r: seq<NodeId>)
  {
    exists i, j :: 0 <= i < |l| && 0 <= j < |r| && eq(l[i], r[j])
  }

  /** Some node of `l` is the very same node as some node of `r`. */
  predicate ExistsSame(l: seq<NodeId>, r: seq<NodeId>)
  {
    exists i, j :: 0 <= i < |l| && 0 <= j < |r| && l[i] == r[j]
  }

  /* ------------------------------------------------------ one-node steps */

  function HasTag(d: Document, t: string): NodeId -> bool
  {
    (c: NodeId) => Tag(d, c) == t
  }

  /** `[Identifier](n)`: the children of `n` whose tag is the identifier. */
  function TagStep(d: Document, t: string): NodeId -> seq<NodeId>
  {
    (n: NodeId) => Filter(ChildSeq(d, n), HasTag(d, t))
  }

  function ParentStep(d: Document): NodeId -> seq<NodeId>
  {
    (n: NodeId) => Parent(d, n)
  }

  function TextStep(d: Document): NodeId -> seq<NodeId>
  {
    (n: NodeId) => TextChildren(d, n)
  }

  function AttribStep(d: Document, a: string): NodeId -> seq<NodeId>
  {
    (n: NodeId) => Attrib(d, n, a)
  }

  /** The step function of a relative path that works node by node. */
  predicate IsStep(rp: Rp)
  {
    rp.RpTag? || rp.RpWildcard? || rp.RpParent? || rp.RpText? || rp.RpAttribute?
  }

  function StepOf(d: Document, rp: Rp): NodeId -> seq<NodeId>
    requires IsStep(rp)
  {
    match rp
    case RpTag(t) => TagStep(d, t)
    case RpWildcard => ChildrenOf(d)
    case RpParent => ParentStep(d)
    case RpText => TextStep(d)
    case RpAttribute(a) => AttribStep(d, a)
  }

  /* ---------------------------------------------------------- semantics */

  /** A filter that is a comparison or a boolean combination, as opposed to a
      bare relative path (possibly in parentheses). */
  predicate IsCondition(f: F)
  {
    match f
    case FRelativePath(_) => false
    case FParentheses(g) => IsCondition(g)
    case _ => true
  }

  function EvalAp(d: Document, eq: ValueEq, ap: Ap): seq<NodeId>
    requires Valid(d)
  {
    match ap
    case ApChildren(file, rp) => Dedup(EvalRp(d, eq, rp, Root(d, file)))
    case ApAll(file, rp) => Dedup(EvalRp(d, eq, rp, BreadthFirst(d, Root(d, file))))
  }

  /** `[rp](ctx)` for the context list `ctx`. */
  function EvalRp(d: Document, eq: ValueEq, rp: Rp, ctx: seq<NodeId>): seq<NodeId>
    requires Valid(d)
    decreases rp, 0
  {
    match rp
    case RpTag(_) => FlatMap(ctx, StepOf(d, rp))
    case RpWildcard => FlatMap(ctx, StepOf(d, rp))
    case RpCurrent => ctx
    case RpParent => FlatMap(ctx, StepOf(d, rp))
    case RpText => FlatMap(ctx, StepOf(d, rp))
    case RpAttribute(_) => FlatMap(ctx, StepOf(d, rp))
    case RpParentheses(inner) => EvalRp(d, eq, inner, ctx)
    case RpChildren(l, r) => Dedup(EvalRp(d, eq, r, EvalRp(d, eq, l, ctx)))
    case RpAll(l, r) => Dedup(EvalRp(d, eq, r, BreadthFirst(d, EvalRp(d, eq, l, ctx))))
    case RpFilter(p, f) => KeepIf(d, eq, f, EvalRp(d, eq, p, ctx))
    case RpPair(l, r) => EvalRp(d, eq, l, ctx) + EvalRp(d, eq, r, ctx)
  }

  /** The nodes `x` of `s` for which `f` holds in the context `[x]`. */
  function KeepIf(d: Document, eq: ValueEq, f: F, s: seq<NodeId>): seq<NodeId>
    requires Valid(d)
    decreases f, |s| + 1
  {
    if s == [] then []
    else
      KeepIf(d, eq, f, s[..|s| - 1]) +
      (if EvalF(d, eq, f, [s[|s| - 1]]) != [] then [s[|s| - 1]] else [])
  }

  /** `[f](ctx)`: a filter yields a node list whose emptiness is its truth
      value; every filter other than a bare path yields `ctx` or nothing. */
  function EvalF(d: Document, eq: ValueEq, f: F, ctx: seq<NodeId>): (r: seq<NodeId>)
    requires Valid(d)
    ensures IsCondition(f) ==> r == ctx || r == []
    decreases f, 0
  {
    match f
    case FRelativePath(rp) => EvalRp(d, eq, rp, ctx)
    case FValueEquality(l, r) =>
      if ExistsEqual(eq, EvalRp(d, eq, l, ctx), EvalRp(d, eq, r, ctx)) then ctx else []
    case FIdentityEquality(l, r) =>
      if ExistsSame(EvalRp(d, eq, l, ctx), EvalRp(d, eq, r, ctx)) then ctx else []
    case FParentheses(g) => EvalF(d, eq, g, ctx)
    case FAnd(a, b) => if EvalF(d, eq, a, ctx) == [] || EvalF(d, eq, b, ctx) == [] then [] else ctx
    case FOr(a, b) => if EvalF(d, eq, a, ctx) == [] && EvalF(d, eq, b, ctx) == [] then [] else ctx
    case FNot(g) => if EvalF(d, eq, g, ctx) == [] then ctx else []
  }

  /** The filter `f` holds at node `x`. */
  predicate Holds(d: Document, eq: ValueEq, f: F, x: NodeId)
    requires Valid(d)
  {
    EvalF(d, eq, f, [x]) != []
  }

  function HoldsAt(d: Document, eq: ValueEq, f: F): NodeId -> bool
    requires Valid(d)
  {
    (x: NodeId) => Holds(d, eq, f, x)
  }

  lemma {:induction false} KeepIfIsFilter(d: Document, eq: ValueEq, f: F, s: seq<NodeId>)
    requires Valid(d)
    ensures KeepIf(d, eq, f, s) == Filter(s, HoldsAt(d, eq, f))
  {
    if s != [] {
      KeepIfIsFilter(d, eq, f, s[..|s| - 1]);
    }
  }

  /* ----------------------------------------------------------- properties */

  /** `rp1/rp2` and `rp1//rp2` yield duplicate-free lists. */
  lemma PathsNoDup(d: Document, eq: ValueEq, rp: Rp, ctx: seq<NodeId>)
    requires Valid(d) && (rp.RpChildren? || rp.RpAll?)
    ensures NoDup(EvalRp(d, eq, rp, ctx))
  {
    if rp.RpChildren? {
      DedupSpec(EvalRp(d, eq, rp.right, EvalRp(d, eq, rp.left, ctx)));
    } else {
      DedupSpec(EvalRp(d, eq, rp.right, BreadthFirst(d, EvalRp(d, eq, rp.left, ctx))));
    }
  }

  /** `doc(f)/rp` and `doc(f)//rp` yield duplicate-free lists. */
  lemma AbsolutePathNoDup(d: Document, eq: ValueEq, ap: Ap)
    requires Valid(d)
    ensures NoDup(EvalAp(d, eq, ap))
  {
    match ap
    case ApChildren(file, rp) => DedupSpec(EvalRp(d, eq, rp, Root(d, file)));
    case ApAll(file, rp) => DedupSpec(EvalRp(d, eq, rp, BreadthFirst(d, Root(d, file))));
  }

  /** The node-by-node steps distribute over concatenation of the context,
      and on one node they are the primitive of the node tree. */
  lemma StepConcat(d: Document, eq: ValueEq, rp: Rp, a: seq<NodeId>, b: seq<NodeId>)
    requires Valid(d) && IsStep(rp)
    ensures EvalRp(d, eq, rp, a + b) == EvalRp(d, eq, rp, a) + EvalRp(d, eq, rp, b)
  {
    FlatMapConcat(a, b, StepOf(d, rp));
  }

  lemma StepPrefix(d: Document, eq: ValueEq, rp: Rp, ctx: seq<NodeId>, i: nat)
    requires Valid(d) && IsStep(rp) && i < |ctx|
    ensures EvalRp(d, eq, rp, ctx[..i + 1]) == EvalRp(d, eq, rp, ctx[..i]) + EvalRp(d, eq, rp, [ctx[i]])
  {
    assert ctx[..i + 1] == ctx[..i] + [ctx[i]];
    StepConcat(d, eq, rp, ctx[..i], [ctx[i]]);
  }

  lemma StepSingle(d: Document, eq: ValueEq, rp: Rp, n: NodeId)
    requires Valid(d) && IsStep(rp)
    ensures rp.RpTag? ==> EvalRp(d, eq, rp, [n]) == Filter(ChildSeq(d, n), HasTag(d, rp.tag))
    ensures rp.RpWildcard? ==> EvalRp(d, eq, rp, [n]) == ChildSeq(d, n)
    ensures rp.RpParent? ==> EvalRp(d, eq, rp, [n]) == Parent(d, n)
    ensures rp.RpText? ==> EvalRp(d, eq, rp, [n]) == TextChildren(d, n)
    ensures rp.RpAttribute? ==> EvalRp(d, eq, rp, [n]) == Attrib(d, n, rp.att)
  {
    FlatMapSingle(n, StepOf(d, rp));
  }

  /** A tag step yields exactly the children of context nodes that carry the
      tag, and on each node a subsequence of its child list. */
  lemma TagStepMember(d: Document, eq: ValueEq, t: string, ctx: seq<NodeId>, x: NodeId)
    requires Valid(d)
    ensures x in EvalRp(d, eq, RpTag(t), ctx) <==>
      Tag(d, x) == t && exists i :: 0 <= i < |ctx| && x in ChildSeq(d, ctx[i])
    ensures forall n :: IsSubseq(EvalRp(d, eq, RpTag(t), [n]), ChildSeq(d, n))
  {
    FlatMapMember(ctx, TagStep(d, t), x);
    forall i | 0 <= i < |ctx|
      ensures x in TagStep(d, t)(ctx[i]) <==> x in ChildSeq(d, ctx[i]) && Tag(d, x) == t
    {
      FilterMember(ChildSeq(d, ctx[i]), HasTag(d, t), x);
    }
    forall n
      ensures IsSubseq(EvalRp(d, eq, RpTag(t), [n]), ChildSeq(d, n))
    {
      StepSingle(d, eq, RpTag(t), n);
      FilterIsSubseq(ChildSeq(d, n), HasTag(d, t));
    }
  }

  lemma {:induction false} KeepIfMember(d: Document, eq: ValueEq, f: F, s: seq<NodeId>, x: NodeId)
    requires Valid(d)
    ensures x in KeepIf(d, eq, f, s) <==> x in s && Holds(d, eq, f, x)
  {
    KeepIfIsFilter(d, eq, f, s);
    FilterMember(s, HoldsAt(d, eq, f), x);
  }

  lemma KeepIfSpec(d: Document, eq: ValueEq, f: F, s: seq<NodeId>)
    requires Valid(d)
    ensures forall x :: x in KeepIf(d, eq, f, s) <==> x in s && Holds(d, eq, f, x)
    ensures IsSubseq(KeepIf(d, eq, f, s), s)
  {
    forall x
      ensures x in KeepIf(d, eq, f, s) <==> x in s && Holds(d, eq, f, x)
    {
      KeepIfMember(d, eq, f, s, x);
    }
    KeepIfIsFilter(d, eq, f, s);
    FilterIsSubseq(s, HoldsAt(d, eq, f));
  }

  /** `rp[f]` keeps, in order, exactly the nodes of `[rp]` at which `f` holds. */
  lemma FilterPath(d: Document, eq: ValueEq, p: Rp, f: F, ctx: seq<NodeId>)
    requires Valid(d)
    ensures forall x :: x in EvalRp(d, eq, RpFilter(p, f), ctx) <==>
      x in EvalRp(d, eq, p, ctx) && Holds(d, eq, f, x)
    ensures IsSubseq(EvalRp(d, eq, RpFilter(p, f), ctx), EvalRp(d, eq, p, ctx))
  {
    KeepIfSpec(d, eq, f, EvalRp(d, eq, p, ctx));
  }

  /** The boolean filters on a non-empty context. */
  lemma ConditionTruth(d: Document, eq: ValueEq, a: F, b: F, ctx: seq<NodeId>)
    requires Valid(d) && ctx != []
    ensures EvalF(d, eq, FAnd(a, b), ctx) != [] <==>
      EvalF(d, eq, a, ctx) != [] && EvalF(d, eq, b, ctx) != []
    ensures EvalF(d, eq, FOr(a, b), ctx) != [] <==>
      EvalF(d, eq, a, ctx) != [] || EvalF(d, eq, b, ctx) != []
    ensures EvalF(d, eq, FNot(a), ctx) != [] <==> EvalF(d, eq, a, ctx) == []
  {
  }

  lemma ExistsEqualIff(eq: ValueEq, ls: seq<NodeId>, rs: seq<NodeId>)
    ensures ExistsEqual(eq, ls, rs) <==> exists y, z :: y in ls && z in rs && eq(y, z)
  {
    if exists y, z :: y in ls && z in rs && eq(y, z) {
      var y, z :| y in ls && z in rs && eq(y, z);
      var i, j :| 0 <= i < |ls| && 0 <= j < |rs| && ls[i] == y && rs[j] == z;
    }
  }

  lemma ExistsSameIff(ls: seq<NodeId>, rs: seq<NodeId>)
    ensures ExistsSame(ls, rs) <==> exists y :: y in ls && y in rs
  {
    if ExistsSame(ls, rs) {
      var i, j :| 0 <= i < |ls| && 0 <= j < |rs| && ls[i] == rs[j];
      assert ls[i] in rs;
    }
    if exists y :: y in ls && y in rs {
      var y :| y in ls && y in rs;
      var i, j :| 0 <= i < |ls| && 0 <= j < |rs| && ls[i] == y && rs[j] == y;
    }
  }

  /** Comparisons hold iff a related pair of nodes exists. */
  lemma ComparisonTruth(d: Document, eq: ValueEq, l: Rp, r: Rp, x: NodeId)
    requires Valid(d)
    ensures Holds(d, eq, FValueEquality(l, r), x) <==>
      exists y, z :: y in EvalRp(d, eq, l, [x]) && z in EvalRp(d, eq, r, [x]) && eq(y, z)
    ensures Holds(d, eq, FIdentityEquality(l, r), x) <==>
      exists y :: y in EvalRp(d, eq, l, [x]) && y in EvalRp(d, eq, r, [x])
  {
    ExistsEqualIff(eq, EvalRp(d, eq, l, [x]), EvalRp(d, eq, r, [x]));
    ExistsSameIff(EvalRp(d, eq, l, [x]), EvalRp(d, eq, r, [x]));
  }

  /** Every relative path works node by node: a node is in the result for a
      context list iff it is in the result for one node of that list. This
      is the set reading of the formal rules of the dialect. */
  lemma {:induction false} Pointwise(d: Document, eq: ValueEq, rp: Rp, ctx: seq<NodeId>, x: NodeId)
    requires Valid(d)
    ensures x in EvalRp(d, eq, rp, ctx) <==> exists y :: y in ctx && x in EvalRp(d, eq, rp, [y])
    decreases rp, 2
  {
    match rp
    case RpCurrent =>
      assert x in ctx ==> x in EvalRp(d, eq, rp, [x]);
    case RpParentheses(inner) =>
      Pointwise(d, eq, inner, ctx, x);
    case RpPair(l, r) =>
      Pointwise(d, eq, l, ctx, x);
      Pointwise(d, eq, r, ctx, x);
    case RpFilter(p, f) =>
      PointwiseFilter(d, eq, p, f, ctx, x);
    case RpChildren(l, r) =>
      PointwiseChildren(d, eq, l, r, ctx, x);
    case RpAll(l, r) =>
      PointwiseAll(d, eq, l, r, ctx, x);
    case _ =>
      FlatMapPointwise(ctx, StepOf(d, rp), x);
  }

  lemma {:induction false} PointwiseFilter(d: Document, eq: ValueEq, p: Rp, f: F, ctx: seq<NodeId>, x: NodeId)
    requires Valid(d)
    ensures x in EvalRp(d, eq, RpFilter(p, f), ctx) <==>
      exists y :: y in ctx && x in EvalRp(d, eq, RpFilter(p, f), [y])
    decreases RpFilter(p, f), 1
  {
    if x in EvalRp(d, eq, RpFilter(p, f), ctx) {
      FilterForward(d, eq, p, f, ctx, x);
    }
    if exists y :: y in ctx && x in EvalRp(d, eq, RpFilter(p, f), [y]) {
      var y :| y in ctx && x in EvalRp(d, eq, RpFilter(p, f), [y]);
      FilterBackward(d, eq, p, f, ctx, y, x);
    }
  }

  lemma {:induction false} FilterForward(d: Document, eq: ValueEq, p: Rp, f: F, ctx: seq<NodeId>, x: NodeId)
    requires Valid(d) && x in EvalRp(d, eq, RpFilter(p, f), ctx)
    ensures exists y :: y in ctx && x in EvalRp(d, eq, RpFilter(p, f), [y])
    decreases RpFilter(p, f), 0
  {
    KeepIfMember(d, eq, f, EvalRp(d, eq, p, ctx), x);
    Pointwise(d, eq, p, ctx, x);
    var y :| y in ctx && x in EvalRp(d, eq, p, [y]);
    KeepIfMember(d, eq, f, EvalRp(d, eq, p, [y]), x);
    assert x in EvalRp(d, eq, RpFilter(p, f), [y]);
  }

  lemma {:induction false} FilterBackward(d: Document, eq: ValueEq, p: Rp, f: F, ctx: seq<NodeId>, y: NodeId, x: NodeId)
    requires Valid(d) && y in ctx && x in EvalRp(d, eq, RpFilter(p, f), [y])
    ensures x in EvalRp(d, eq, RpFilter(p, f), ctx)
    decreases RpFilter(p, f), 0
  {
    KeepIfMember(d, eq, f, EvalRp(d, eq, p, [y]), x);
    assert y in ctx && x in EvalRp(d, eq, p, [y]);
    Pointwise(d, eq, p, ctx, x);
    KeepIfMember(d, eq, f, EvalRp(d, eq, p, ctx), x);
  }

  lemma {:induction false} PointwiseChildren(d: Document, eq: ValueEq, l: Rp, r: Rp, ctx: seq<NodeId>, x: NodeId)
    requires Valid(d)
    ensures x in EvalRp(d, eq, RpChildren(l, r), ctx) <==>
      exists y :: y in ctx && x in EvalRp(d, eq, RpChildren(l, r), [y])
    decreases RpChildren(l, r), 1
  {
    ChildrenMember(d, eq, l, r, ctx, x);
    if x in EvalRp(d, eq, RpChildren(l, r), ctx) {
      var z :| z in EvalRp(d, eq, l, ctx) && x in EvalRp(d, eq, r, [z]);
      Pointwise(d, eq, l, ctx, z);
      var y :| y in ctx && z in EvalRp(d, eq, l, [y]);
      ChildrenMember(d, eq, l, r, [y], x);
      assert z in EvalRp(d, eq, l, [y]) && x in EvalRp(d, eq, r, [z]);
      assert y in ctx && x in EvalRp(d, eq, RpChildren(l, r), [y]);
    }
    if exists y :: y in ctx && x in EvalRp(d, eq, RpChildren(l, r), [y]) {
      var y :| y in ctx && x in EvalRp(d, eq, RpChildren(l, r), [y]);
      ChildrenMember(d, eq, l, r, [y], x);
      var z :| z in EvalRp(d, eq, l, [y]) && x in EvalRp(d, eq, r, [z]);
      assert y in ctx && z in EvalRp(d, eq, l, [y]);
      Pointwise(d, eq, l, ctx, z);
      assert z in EvalRp(d, eq, l, ctx) && x in EvalRp(d, eq, r, [z]);
    }
  }

  lemma {:induction false} PointwiseAll(d: Document, eq: ValueEq, l: Rp, r: Rp, ctx: seq<NodeId>, x: NodeId)
    requires Valid(d)
    ensures x in EvalRp(d, eq, RpAll(l, r), ctx) <==>
      exists y :: y in ctx && x in EvalRp(d, eq, RpAll(l, r), [y])
    decreases RpAll(l, r), 1
  {
    AllMember(d, eq, l, r, ctx, x);
    if x in EvalRp(d, eq, RpAll(l, r), ctx) {
      var z :| z in BreadthFirst(d, EvalRp(d, eq, l, ctx)) && x in EvalRp(d, eq, r, [z]);
      ClosurePointwise(d, eq, l, ctx, z);
      var y :| y in ctx && z in BreadthFirst(d, EvalRp(d, eq, l, [y]));
      AllMember(d, eq, l, r, [y], x);
      assert z in BreadthFirst(d, EvalRp(d, eq, l, [y])) && x in EvalRp(d, eq, r, [z]);
      assert y in ctx && x in EvalRp(d, eq, RpAll(l, r), [y]);
    }
    if exists y :: y in ctx && x in EvalRp(d, eq, RpAll(l, r), [y]) {
      var y :| y in ctx && x in EvalRp(d, eq, RpAll(l, r), [y]);
      AllMember(d, eq, l, r, [y], x);
      var z :| z in BreadthFirst(d, EvalRp(d, eq, l, [y])) && x in EvalRp(d, eq, r, [z]);
      assert y in ctx && z in BreadthFirst(d, EvalRp(d, eq, l, [y]));
      ClosurePointwise(d, eq, l, ctx, z);
      assert z in BreadthFirst(d, EvalRp(d, eq, l, ctx)) && x in EvalRp(d, eq, r, [z]);
    }
  }

  /** The descendant-or-self closure of a path result works node by node. */
  lemma {:induction false} ClosurePointwise(d: Document, eq: ValueEq, l: Rp, ctx: seq<NodeId>, z: NodeId)
    requires Valid(d)
    ensures z in BreadthFirst(d, EvalRp(d, eq, l, ctx)) <==>
      exists y :: y in ctx && z in BreadthFirst(d, EvalRp(d, eq, l, [y]))
    decreases l, 3
  {
    BreadthFirstIn(d, EvalRp(d, eq, l, ctx), z);
    if z in BreadthFirst(d, EvalRp(d, eq, l, ctx)) {
      var w :| w in EvalRp(d, eq, l, ctx) && z in DescendantsOrSelf(d, w);
      Pointwise(d, eq, l, ctx, w);
      var y :| y in ctx && w in EvalRp(d, eq, l, [y]);
      BreadthFirstIn(d, EvalRp(d, eq, l, [y]), z);
      assert w in EvalRp(d, eq, l, [y]) && z in DescendantsOrSelf(d, w);
      assert y in ctx && z in BreadthFirst(d, EvalRp(d, eq, l, [y]));
    }
    if exists y :: y in ctx && z in BreadthFirst(d, EvalRp(d, eq, l, [y])) {
      var y :| y in ctx && z in BreadthFirst(d, EvalRp(d, eq, l, [y]));
      BreadthFirstIn(d, EvalRp(d, eq, l, [y]), z);
      var w :| w in EvalRp(d, eq, l, [y]) && z in DescendantsOrSelf(d, w);
      assert y in ctx && w in EvalRp(d, eq, l, [y]);
      Pointwise(d, eq, l, ctx, w);
      assert w in EvalRp(d, eq, l, ctx) && z in DescendantsOrSelf(d, w);
    }
  }

  /** One unfolding of `rp1/rp2`. */
  lemma ChildrenUnfold(d: Document, eq: ValueEq, rp: Rp, ctx: seq<NodeId>)
    requires Valid(d) && rp.RpChildren?
    ensures EvalRp(d, eq, rp, ctx) == Dedup(EvalRp(d, eq, rp.right, EvalRp(d, eq, rp.left, ctx)))
  {
  }

  /** One unfolding of `rp1//rp2`. */
  lemma AllUnfold(d: Document, eq: ValueEq, rp: Rp, ctx: seq<NodeId>)
    requires Valid(d) && rp.RpAll?
    ensures EvalRp(d, eq, rp, ctx) == Dedup(EvalRp(d, eq, rp.right, BreadthFirst(d, EvalRp(d, eq, rp.left, ctx))))
  {
  }

  /** `rp1/rp2` holds the nodes that `rp2` reaches from some node of `rp1`. */
  lemma {:induction false} ChildrenMember(d: Document, eq: ValueEq, l: Rp, r: Rp, ctx: seq<NodeId>, x: NodeId)
    requires Valid(d)
    ensures x in EvalRp(d, eq, RpChildren(l, r), ctx) <==>
      exists y :: y in EvalRp(d, eq, l, ctx) && x in EvalRp(d, eq, r, [y])
    decreases RpChildren(l, r), 0
  {
    ChildrenUnfold(d, eq, RpChildren(l, r), ctx);
    DedupMember(EvalRp(d, eq, r, EvalRp(d, eq, l, ctx)), x);
    Pointwise(d, eq, r, EvalRp(d, eq, l, ctx), x);
  }

  /** `rp1//rp2` holds the nodes that `rp2` reaches from some node of the
      descendant-or-self closure of the result of `rp1` (see
      `BreadthFirstIn` for that closure). */
  lemma {:induction false} AllMember(d: Document, eq: ValueEq, l: Rp, r: Rp, ctx: seq<NodeId>, x: NodeId)
    requires Valid(d)
    ensures x in EvalRp(d, eq, RpAll(l, r), ctx) <==>
      exists z :: z in BreadthFirst(d, EvalRp(d, eq, l, ctx)) && x in EvalRp(d, eq, r, [z])
    decreases RpAll(l, r), 0
  {
    AllUnfold(d, eq, RpAll(l, r), ctx);
    var s := BreadthFirst(d, EvalRp(d, eq, l, ctx));
    DedupMember(EvalRp(d, eq, r, s), x);
    Pointwise(d, eq, r, s, x);
  }

  /** In a linked store `..` after the children step `*` leads back into
      the context: the path reaches exactly the context nodes that have a
      child. */
  lemma ChildThenParent(d: Document, eq: ValueEq, ctx: seq<NodeId>, x: NodeId)
    requires Valid(d) && Linked(d)
    ensures x in EvalRp(d, eq, RpChildren(RpWildcard, RpParent), ctx) <==> x in ctx && ChildSeq(d, x) != []
  {
    var kids := EvalRp(d, eq, RpWildcard, ctx);
    ChildrenMember(d, eq, RpWildcard, RpParent, ctx, x);
    if x in EvalRp(d, eq, RpChildren(RpWildcard, RpParent), ctx) {
      var y :| y in kids && x in EvalRp(d, eq, RpParent, [y]);
      FlatMapMember(ctx, ChildrenOf(d), y);
      var i :| 0 <= i < |ctx| && y in ChildSeq(d, ctx[i]);
      ParentOfChild(d, ctx[i], y);
      StepSingle(d, eq, RpParent, y);
      assert x == ctx[i];
    }
    if x in ctx && ChildSeq(d, x) != [] {
      var y := ChildSeq(d, x)[0];
      var i :| 0 <= i < |ctx| && ctx[i] == x;
      FlatMapMember(ctx, ChildrenOf(d), y);
      assert y in kids;
      ParentOfChild(d, x, y);
      StepSingle(d, eq, RpParent, y);
      assert x in EvalRp(d, eq, RpParent, [y]);
    }
  }

  /* ------------------------------------------------------------- visitor */

  /** The visitor: every visit reads the context list `nodes`; path visits
      leave their result in `nodes`, filter visits leave `nodes` as they found
      it. */
  class XPathVisitor {
    const doc: Document
    const valueEq: ValueEq
    var nodes: seq<NodeId>

    constructor (doc: Document, valueEq: ValueEq)
      ensures this.doc == doc && this.valueEq == valueEq && nodes == []
    {
      this.doc := doc;
      this.valueEq := valueEq;
      nodes := [];
    }

    method VisitAp(ap: Ap) returns (r: seq<NodeId>)
      requires Valid(doc)
      modifies this
      ensures r == EvalAp(doc, valueEq, ap) && nodes == r
    {
      match ap
      case ApChildren(_, _) => r := VisitApChildren(ap);
      case ApAll(_, _) => r := VisitApAll(ap);
    }

    method VisitApChildren(ap: Ap) returns (r: seq<NodeId>)
      requires Valid(doc) && ap.ApChildren?
      modifies this
      ensures r == EvalAp(doc, valueEq, ap) && nodes == r
    {
      var root := VisitApDoc(ap.doc);
      var res := VisitRp(ap.rp);
      nodes := Unique(res);
      r := nodes;
    }

    method VisitApAll(ap: Ap) returns (r: seq<NodeId>)
      requires Valid(doc) && ap.ApAll?
      modifies this
      ensures r == EvalAp(doc, valueEq, ap) && nodes == r
    {
      var root := VisitApDoc(ap.doc);
      nodes := DescendantsOrSelves(doc, root);
      var res := VisitRp(ap.rp);
      nodes := Unique(res);
      r := nodes;
    }

    /** `doc(file)`: the root of the loaded document, if any. */
    method VisitApDoc(file: string) returns (r: seq<NodeId>)
      modifies this
      ensures r == Root(doc, file) && nodes == r
    {
      nodes := Root(doc, file);
      r := nodes;
    }

    /** The dispatcher `visit(rp)`. */
    method VisitRp(rp: Rp) returns (r: seq<NodeId>)
      requires Valid(doc)
      modifies this
      ensures r == EvalRp(doc, valueEq, rp, old(nodes)) && nodes == r
      decreases rp, 1
    {
      match rp
      case RpTag(_) => r := VisitRpTag(rp);
      case RpWildcard => r := VisitRpWildcard();
      case RpCurrent => r := VisitRpCurrent();
      case RpParent => r := VisitRpParent();
      case RpText => r := VisitRpText();
      case RpAttribute(_) => r := VisitRpAttribute(rp);
      case RpParentheses(_) => r := VisitRpParentheses(rp);
      case RpChildren(_, _) => r := VisitRpChildren(rp);
      case RpAll(_, _) => r := VisitRpAll(rp);
      case RpFilter(_, _) => r := VisitRpFilter(rp);
      case RpPair(_, _) => r := VisitRpPair(rp);
    }

    method VisitRpTag(rp: Rp) returns (r: seq<NodeId>)
      requires Valid(doc) && rp.RpTag?
      modifies this
      ensures r == EvalRp(doc, valueEq, rp, old(nodes)) && nodes == r
    {
      var ctx := nodes;
      var result := [];
      var tag := rp.tag;
      for i := 0 to |ctx|
        invariant result == EvalRp(doc, valueEq, rp, ctx[..i])
      {
        var tagged := ChildrenWithTag(ctx[i], tag);
        result := result + tagged;
        StepPrefix(doc, valueEq, rp, ctx, i);
        StepSingle(doc, valueEq, rp, ctx[i]);
      }
      assert ctx[..|ctx|] == ctx;
      nodes := result;
      r := nodes;
    }

    /** The children of `n` whose tag is `tag`, in document order. */
    method ChildrenWithTag(n: NodeId, tag: string) returns (r: seq<NodeId>)
      ensures r == Filter(ChildSeq(doc, n), HasTag(doc, tag))
    {
      var children := Children(doc, n);
      r := [];
      for j := 0 to |children|
        invariant r == Filter(children[..j], HasTag(doc, tag))
      {
        assert children[..j + 1][..j] == children[..j];
        if Tag(doc, children[j]) == tag {
          r := r + [children[j]];
        }
      }
      assert children[..|children|] == children;
    }

    method VisitRpWildcard() returns (r: seq<NodeId>)
      requires Valid(doc)
      modifies this
      ensures r == EvalRp(doc, valueEq, RpWildcard, old(nodes)) && nodes == r
    {
      var ctx := nodes;
      var result := [];
      for i := 0 to |ctx|
        invariant result == EvalRp(doc, valueEq, RpWildcard, ctx[..i])
      {
        var children := Children(doc, ctx[i]);
        StepPrefix(doc, valueEq, RpWildcard, ctx, i);
        StepSingle(doc, valueEq, RpWildcard, ctx[i]);
        result := result + children;
      }
      assert ctx[..|ctx|] == ctx;
      nodes := result;
      r := nodes;
    }

    method VisitRpCurrent() returns (r: seq<NodeId>)
      requires Valid(doc)
      modifies this
      ensures r == EvalRp(doc, valueEq, RpCurrent, old(nodes)) && nodes == r
    {
      r := nodes;
    }

    method VisitRpParent() returns (r: seq<NodeId>)
      requires Valid(doc)
      modifies this
      ensures r == EvalRp(doc, valueEq, RpParent, old(nodes)) && nodes == r
    {
      var ctx := nodes;
      var result := [];
      for i := 0 to |ctx|
        invariant result == EvalRp(doc, valueEq, RpParent, ctx[..i])
      {
        StepPrefix(doc, valueEq, RpParent, ctx, i);
        StepSingle(doc, valueEq, RpParent, ctx[i]);
        result := result + Parent(doc, ctx[i]);
      }
      assert ctx[..|ctx|] == ctx;
      nodes := result;
      r := nodes;
    }

    method VisitRpText() returns (r: seq<NodeId>)
      requires Valid(doc)
      modifies this
      ensures r == EvalRp(doc, valueEq, RpText, old(nodes)) && nodes == r
    {
      var ctx := nodes;
      var result := [];
      for i := 0 to |ctx|
        invariant result == EvalRp(doc, valueEq, RpText, ctx[..i])
      {
        var texts := Txt(doc, ctx[i]);
        StepPrefix(doc, valueEq, RpText, ctx, i);
        StepSingle(doc, valueEq, RpText, ctx[i]);
        result := result + texts;
      }
      assert ctx[..|ctx|] == ctx;
      nodes := result;
      r := nodes;
    }

    method VisitRpAttribute(rp: Rp) returns (r: seq<NodeId>)
      requires Valid(doc) && rp.RpAttribute?
      modifies this
      ensures r == EvalRp(doc, valueEq, rp, old(nodes)) && nodes == r
    {
      var ctx := nodes;
      var result := [];
      var attId := rp.att;
      for i := 0 to |ctx|
        invariant result == EvalRp(doc, valueEq, rp, ctx[..i])
      {
        StepPrefix(doc, valueEq, rp, ctx, i);
        StepSingle(doc, valueEq, rp, ctx[i]);
        result := result + Attrib(doc, ctx[i], attId);
      }
      assert ctx[..|ctx|] == ctx;
      nodes := result;
      r := nodes;
    }

    method VisitRpParentheses(rp: Rp) returns (r: seq<NodeId>)
      requires Valid(doc) && rp.RpParentheses?
      modifies this
      ensures r == EvalRp(doc, valueEq, rp, old(nodes)) && nodes == r
      decreases rp, 0
    {
      r := VisitRp(rp.inner);
    }

    method VisitRpChildren(rp: Rp) returns (r: seq<NodeId>)
      requires Valid(doc) && rp.RpChildren?
      modifies this
      ensures r == EvalRp(doc, valueEq, rp, old(nodes)) && nodes == r
      decreases rp, 0
    {
      var left := VisitRp(rp.left);
      var right := VisitRp(rp.right);
      nodes := Unique(right);
      r := nodes;
    }

    method VisitRpAll(rp: Rp) returns (r: seq<NodeId>)
      requires Valid(doc) && rp.RpAll?
      modifies this
      ensures r == EvalRp(doc, valueEq, rp, old(nodes)) && nodes == r
      decreases rp, 0
    {
      AllUnfold(doc, valueEq, rp, nodes);
      var left := VisitRp(rp.left);
      nodes := DescendantsOrSelves(doc, left);
      var right := VisitRp(rp.right);
      nodes := Unique(right);
      r := nodes;
    }

    method VisitRpFilter(rp: Rp) returns (r: seq<NodeId>)
      requires Valid(doc) && rp.RpFilter?
      modifies this
      ensures r == EvalRp(doc, valueEq, rp, old(nodes)) && nodes == r
      decreases rp, 0
    {
      var result := [];
      var s := VisitRp(rp.path);
      for i := 0 to |s|
        invariant result == KeepIf(doc, valueEq, rp.filter, s[..i])
      {
        assert s[..i + 1][..i] == s[..i];
        nodes := Singleton(Some(s[i]));
        var holds := VisitF(rp.filter);
        if holds != [] {
          result := result + [s[i]];
        }
      }
      assert s[..|s|] == s;
      nodes := result;
      r := nodes;
    }

    method VisitRpPair(rp: Rp) returns (r: seq<NodeId>)
      requires Valid(doc) && rp.RpPair?
      modifies this
      ensures r == EvalRp(doc, valueEq, rp, old(nodes)) && nodes == r
      decreases rp, 0
    {
      var original := nodes;
      var left := VisitRp(rp.left);
      nodes := original;
      var right := VisitRp(rp.right);
      nodes := left + right;
      r := nodes;
    }

    /** The dispatcher `visit(f)`. */
    method VisitF(f: F) returns (r: seq<NodeId>)
      requires Valid(doc)
      modifies this
      ensures r == EvalF(doc, valueEq, f, old(nodes)) && nodes == old(nodes)
      decreases f, 1
    {
      match f
      case FRelativePath(_) => r := VisitFRelativePath(f);
      case FValueEquality(_, _) => r := VisitFValueEquality(f);
      case FIdentityEquality(_, _) => r := VisitFIdentityEquality(f);
      case FParentheses(_) => r := VisitFParentheses(f);
      case FAnd(_, _) => r := VisitFAnd(f);
      case FOr(_, _) => r := VisitFOr(f);
      case FNot(_) => r := VisitFNot(f);
    }

    method VisitFRelativePath(f: F) returns (r: seq<NodeId>)
      requires Valid(doc) && f.FRelativePath?
      modifies this
      ensures r == EvalF(doc, valueEq, f, old(nodes)) && nodes == old(nodes)
      decreases f, 0
    {
      var saved := nodes;
      var filter := VisitRp(f.rp);
      nodes := saved;
      r := filter;
    }

    method VisitFValueEquality(f: F) returns (r: seq<NodeId>)
      requires Valid(doc) && f.FValueEquality?
      modifies this
      ensures r == EvalF(doc, valueEq, f, old(nodes)) && nodes == old(nodes)
      decreases f, 0
    {
      var saved := nodes;
      var l := VisitRp(f.lhs);
      nodes := saved;
      var rr := VisitRp(f.rhs);
      nodes := saved;
      if ExistsEqual(valueEq, l, rr) {
        r := nodes;
      } else {
        r := [];
      }
    }

    method VisitFIdentityEquality(f: F) returns (r: seq<NodeId>)
      requires Valid(doc) && f.FIdentityEquality?
      modifies this
      ensures r == EvalF(doc, valueEq, f, old(nodes)) && nodes == old(nodes)
      decreases f, 0
    {
      var saved := nodes;
      var l := VisitRp(f.lhs);
      nodes := saved;
      var rr := VisitRp(f.rhs);
      nodes := saved;
      if ExistsSame(l, rr) {
        r := nodes;
      } else {
        r := [];
      }
    }

    method VisitFParentheses(f: F) returns (r: seq<NodeId>)
      requires Valid(doc) && f.FParentheses?
      modifies this
      ensures r == EvalF(doc, valueEq, f, old(nodes)) && nodes == old(nodes)
      decreases f, 0
    {
      r := VisitF(f.inner);
    }

    /** `and` short-circuits: the right filter is visited only when the left
        one holds. */
    method VisitFAnd(f: F) returns (r: seq<NodeId>)
      requires Valid(doc) && f.FAnd?
      modifies this
      ensures r == EvalF(doc, valueEq, f, old(nodes)) && nodes == old(nodes)
      decreases f, 0
    {
      var a := VisitF(f.left);
      if a == [] {
        r := [];
      } else {
        var b := VisitF(f.right);
        r := if b == [] then [] else nodes;
      }
    }

    /** `or` short-circuits: the right filter is visited only when the left
        one fails. */
    method VisitFOr(f: F) returns (r: seq<NodeId>)
      requires Valid(doc) && f.FOr?
      modifies this
      ensures r == EvalF(doc, valueEq, f, old(nodes)) && nodes == old(nodes)
      decreases f, 0
    {
      var a := VisitF(f.left);
      if a != [] {
        r := nodes;
      } else {
        var b := VisitF(f.right);
        r := if b == [] then [] else nodes;
      }
    }

    method VisitFNot(f: F) returns (r: seq<NodeId>)
      requires Valid(doc) && f.FNot?
      modifies this
      ensures r == EvalF(doc, valueEq, f, old(nodes)) && nodes == old(nodes)
      decreases f, 0
    {
      var a := VisitF(f.inner);
      r := if a == [] then nodes else [];
    }
  }
}
