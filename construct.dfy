/** The construction helpers of XQueryEvaluator: `makeElem` builds a new
    element from a tag and a node list, splitting the nodes into attributes
    and children; `makeText` builds a text node; `keyNodeTags` computes the
    key an equi-join groups a tuple node by.

    The evaluator owns a document in which it creates nodes. New nodes are
    appended to the store, so the identifiers of existing nodes, and the
    nodes themselves, are left as they are. */
module Construct {
  import opened Wrappers
  import opened Seqs
  import opened Dom

  /** The node name the DOM gives each text node. */
  const TextName: string := "#text"

  /** Every identifier in `ns` names a node of the store. */
  ghost predicate InStore(nodes: seq<NodeRec>, ns: seq<NodeId>)
  {
    forall i :: 0 <= i < |ns| ==> ns[i] < |nodes|
  }

  predicate IsAttribute(nodes: seq<NodeRec>, n: NodeId)
  {
    n < |nodes| && nodes[n].kind == AttributeNode
  }

  function NotAttribute(nodes: seq<NodeRec>): NodeId -> bool
  {
    (n: NodeId) => !IsAttribute(nodes, n)
  }

  /** The copy `importNode` makes of `r` for element `e`: same kind, name and
      content; an attribute copy is owned by `e`, any other copy is a child
      of `e`. */
  function CopyOf(r: NodeRec, e: NodeId): NodeRec
  {
    if r.kind == AttributeNode then NodeRec(r.kind, r.name, [], None, Some(e), map[], r.text)
    else NodeRec(r.kind, r.name, [], Some(e), None, map[], r.text)
  }

  /** The copies of the inputs, in input order: the copy of `ns[i]` gets
      identifier `e + 1 + i`. */
  function Copies(nodes: seq<NodeRec>, ns: seq<NodeId>, e: NodeId): (r: seq<NodeRec>)
    requires InStore(nodes, ns)
    ensures |r| == |ns|
  {
    if ns == [] then []
    else Copies(nodes, ns[..|ns| - 1], e) + [CopyOf(nodes[ns[|ns| - 1]], e)]
  }

  /** The child list of the new element: the copies of the non-attribute
      inputs. */
  function ElemChildren(nodes: seq<NodeRec>, ns: seq<NodeId>, e: NodeId): seq<NodeId>
  {
    if ns == [] then []
    else
      ElemChildren(nodes, ns[..|ns| - 1], e)
      + (if IsAttribute(nodes, ns[|ns| - 1]) then [] else [e + |ns|])
  }

  /** The attribute map of the new element: the copies of the attribute
      inputs by name; a later attribute of the same name replaces an
      earlier one, as `setAttributeNode` does. */
  function ElemAttributes(nodes: seq<NodeRec>, ns: seq<NodeId>, e: NodeId): map<string, NodeId>
    requires InStore(nodes, ns)
  {
    if ns == [] then map[]
    else
      var m := ElemAttributes(nodes, ns[..|ns| - 1], e);
      var n := ns[|ns| - 1];
      if IsAttribute(nodes, n) then m[nodes[n].name := e + |ns|] else m
  }

  function ElemRec(tag: string, nodes: seq<NodeRec>, ns: seq<NodeId>, e: NodeId): NodeRec
    requires InStore(nodes, ns)
  {
    NodeRec(ElementNode, tag, ElemChildren(nodes, ns, e), None, None, ElemAttributes(nodes, ns, e), "")
  }

  /** The store after `makeElem(tag, ns)`: the new element, then the copies. */
  function Made(nodes: seq<NodeRec>, tag: string, ns: seq<NodeId>): seq<NodeRec>
    requires InStore(nodes, ns)
  {
    nodes + [ElemRec(tag, nodes, ns, |nodes|)] + Copies(nodes, ns, |nodes|)
  }

  /** The DOM refuses to import a document node. */
  ghost predicate Importable(nodes: seq<NodeRec>, ns: seq<NodeId>)
    requires InStore(nodes, ns)
  {
    forall i :: 0 <= i < |ns| ==> nodes[ns[i]].kind != DocumentNode
  }

  function TextRec(content: string): NodeRec
  {
    NodeRec(TextNode, TextName, [], None, None, map[], content)
  }

  /* -------------------------------------------------------- makeElem facts */

  lemma InStorePrefix(nodes: seq<NodeRec>, ns: seq<NodeId>, i: nat)
    requires InStore(nodes, ns) && i <= |ns|
    ensures InStore(nodes, ns[..i])
  {
  }

  /** Importing one more input: the element gains the copy as an attribute
      or as its last child, and the copy is appended to the store. */
  lemma MadeStep(nodes: seq<NodeRec>, tag: string, ns: seq<NodeId>, i: nat)
    requires InStore(nodes, ns) && i < |ns|
    ensures InStore(nodes, ns[..i]) && InStore(nodes, ns[..i + 1])
    ensures var e, c, r := |nodes|, |nodes| + 1 + i, ElemRec(tag, nodes, ns[..i], |nodes|);
      var copy := CopyOf(nodes[ns[i]], e);
      var elem := if copy.kind == AttributeNode then r.(attributes := r.attributes[copy.name := c])
                  else r.(children := r.children + [c]);
      Made(nodes, tag, ns[..i + 1]) == Made(nodes, tag, ns[..i])[e := elem] + [copy]
  {
    var pre := ns[..i + 1][..i];
    assert pre == ns[..i];
    var e, c, r := |nodes|, |nodes| + 1 + i, ElemRec(tag, nodes, ns[..i], |nodes|);
    var copy := CopyOf(nodes[ns[i]], e);
    var elem := if copy.kind == AttributeNode then r.(attributes := r.attributes[copy.name := c])
                else r.(children := r.children + [c]);
    assert ElemRec(tag, nodes, ns[..i + 1], e) == elem;
    assert Copies(nodes, ns[..i + 1], e) == Copies(nodes, ns[..i], e) + [copy];
    var cs := Copies(nodes, ns[..i], e);
    assert (nodes + [r] + cs)[e := elem] == nodes + [elem] + cs;
  }

  /** The children of the new element are the copies of exactly the
      non-attribute inputs, in input order, and in increasing position. */
  lemma {:induction false} ElemChildrenAreCopies(nodes: seq<NodeRec>, ns: seq<NodeId>, e: NodeId)
    requires InStore(nodes, ns)
    ensures var ch, f := ElemChildren(nodes, ns, e), Filter<NodeId>(ns, NotAttribute(nodes));
      |ch| == |f| &&
      (forall j :: 0 <= j < |ch| ==>
         (e < ch[j] <= e + |ns| && f[j] < |nodes| &&
          Copies(nodes, ns, e)[ch[j] - e - 1] == CopyOf(nodes[f[j]], e))) &&
      (forall j, k :: 0 <= j < k < |ch| ==> ch[j] < ch[k])
  {
    if ns != [] {
      var init := ns[..|ns| - 1];
      var n := ns[|ns| - 1];
      ElemChildrenAreCopies(nodes, init, e);
      var ch0, f0 := ElemChildren(nodes, init, e), Filter<NodeId>(init, NotAttribute(nodes));
      var cs0 := Copies(nodes, init, e);
      var cs := Copies(nodes, ns, e);
      assert cs == cs0 + [CopyOf(nodes[n], e)];
      forall j | 0 <= j < |ch0|
        ensures cs[ch0[j] - e - 1] == cs0[ch0[j] - e - 1]
      {
      }
    }
  }

  /** Every attribute input gives the new element an attribute of its name,
      and no other attribute appears; the attribute of a name is the copy of
      the last attribute input of that name. */
  lemma {:induction false} ElemAttributesAreCopies(nodes: seq<NodeRec>, ns: seq<NodeId>, e: NodeId, a: string)
    requires InStore(nodes, ns)
    ensures var m := ElemAttributes(nodes, ns, e);
      (a in m <==> exists i :: 0 <= i < |ns| && IsAttribute(nodes, ns[i]) && nodes[ns[i]].name == a) &&
      (a in m ==>
         var k := m[a] - e - 1;
         0 <= k < |ns| && IsAttribute(nodes, ns[k]) && nodes[ns[k]].name == a &&
         Copies(nodes, ns, e)[k] == CopyOf(nodes[ns[k]], e) &&
         forall i :: k < i < |ns| ==> !(IsAttribute(nodes, ns[i]) && nodes[ns[i]].name == a))
  {
    if ns != [] {
      var init := ns[..|ns| - 1];
      var n := ns[|ns| - 1];
      ElemAttributesAreCopies(nodes, init, e, a);
      var cs0 := Copies(nodes, init, e);
      assert Copies(nodes, ns, e) == cs0 + [CopyOf(nodes[n], e)];
      var m0 := ElemAttributes(nodes, init, e);
      if exists i :: 0 <= i < |ns| && IsAttribute(nodes, ns[i]) && nodes[ns[i]].name == a {
        var i :| 0 <= i < |ns| && IsAttribute(nodes, ns[i]) && nodes[ns[i]].name == a;
        if i < |init| {
          assert init[i] == ns[i];
        }
      }
      if a in m0 {
        var k := m0[a] - e - 1;
        assert init[k] == ns[k];
      }
    }
  }

  /** The store stays a valid tree: the new element's children come after it,
      the copies have no children, and the old nodes are untouched. */
  lemma MadeValid(nodes: seq<NodeRec>, tag: string, ns: seq<NodeId>, roots: map<string, NodeId>)
    requires InStore(nodes, ns)
    requires Valid(Document(nodes, roots))
    ensures Valid(Document(Made(nodes, tag, ns), roots))
  {
    var e := |nodes|;
    var d := Made(nodes, tag, ns);
    ElemChildrenAreCopies(nodes, ns, e);
    forall i | e < i < |d|
      ensures d[i].children == []
    {
      CopiesAt(nodes, ns, e, i - e - 1);
      assert d[i] == Copies(nodes, ns, e)[i - e - 1];
    }
    forall i, j | 0 <= i < |d| && 0 <= j < |d[i].children|
      ensures i < d[i].children[j] < |d|
    {
      if i < e {
        assert d[i] == nodes[i];
      } else if i == e {
        assert d[i] == ElemRec(tag, nodes, ns, e);
      }
    }
  }

  /** The two directions of the tree stay in step: the children of the new
      element are non-attribute copies whose parent is the element, and the
      old nodes and their children are untouched. */
  lemma MadeLinked(nodes: seq<NodeRec>, tag: string, ns: seq<NodeId>, roots: map<string, NodeId>)
    requires InStore(nodes, ns)
    requires Valid(Document(nodes, roots)) && Linked(Document(nodes, roots))
    ensures Linked(Document(Made(nodes, tag, ns), roots))
  {
    var e := |nodes|;
    var d := Made(nodes, tag, ns);
    var cs := Copies(nodes, ns, e);
    ElemChildrenAreCopies(nodes, ns, e);
    var ch, f := ElemChildren(nodes, ns, e), Filter<NodeId>(ns, NotAttribute(nodes));
    assert d[e] == ElemRec(tag, nodes, ns, e);
    forall i | e < i < |d|
      ensures d[i].children == []
    {
      CopiesAt(nodes, ns, e, i - e - 1);
      assert d[i] == cs[i - e - 1];
    }
    forall j | 0 <= j < |ch|
      ensures d[ch[j]].kind != AttributeNode && d[ch[j]].parent == Some(e)
    {
      FilterMember(ns, NotAttribute(nodes), f[j]);
      assert d[ch[j]] == cs[ch[j] - e - 1] == CopyOf(nodes[f[j]], e);
    }
    forall i, j | 0 <= i < |d| && 0 <= j < |d[i].children| && d[i].children[j] < |d|
      ensures d[d[i].children[j]].kind != AttributeNode && d[d[i].children[j]].parent == Some(i)
    {
      if i < e {
        assert d[i] == nodes[i];
        assert d[i].children[j] < e;
        assert d[d[i].children[j]] == nodes[nodes[i].children[j]];
      }
    }
  }

  /** Every copy's parent, as `parent` sees it, is the new element, which
      itself has no parent. */
  lemma MadeParent(nodes: seq<NodeRec>, tag: string, ns: seq<NodeId>, roots: map<string, NodeId>, i: nat)
    requires InStore(nodes, ns) && i < |ns|
    ensures var d := Document(Made(nodes, tag, ns), roots);
      Parent(d, |nodes| + 1 + i) == [|nodes|] && Parent(d, |nodes|) == [] &&
      Tag(d, |nodes|) == tag && Tag(d, |nodes| + 1 + i) == Tag(Document(nodes, roots), ns[i])
  {
    var e := |nodes|;
    var d := Made(nodes, tag, ns);
    CopiesAt(nodes, ns, e, i);
    assert d[e + 1 + i] == Copies(nodes, ns, e)[i];
  }

  lemma {:induction false} CopiesAt(nodes: seq<NodeRec>, ns: seq<NodeId>, e: NodeId, i: nat)
    requires InStore(nodes, ns) && i < |ns|
    ensures Copies(nodes, ns, e)[i] == CopyOf(nodes[ns[i]], e)
  {
    if i < |ns| - 1 {
      CopiesAt(nodes, ns[..|ns| - 1], e, i);
    }
  }

  /* --------------------------------------------------- join keys */

  /** The serializations of the children of every node of `cs` named `t`,
      in the order of `cs`. */
  function KeyPart(d: Document, cs: seq<NodeId>, t: string, ser: seq<NodeId> -> string): string
  {
    if cs == [] then ""
    else
      var c := cs[|cs| - 1];
      KeyPart(d, cs[..|cs| - 1], t, ser) + (if Tag(d, c) == t then ser(ChildSeq(d, c)) else "")
  }

  /** The key parts of every tag, in tag-list order. */
  function KeyOver(d: Document, cs: seq<NodeId>, tags: seq<string>, ser: seq<NodeId> -> string): string
  {
    if tags == [] then ""
    else KeyOver(d, cs, tags[..|tags| - 1], ser) + KeyPart(d, cs, tags[|tags| - 1], ser)
  }

  /** Reference definition of a key: that of the node's child list. */
  function Key(d: Document, n: NodeId, tags: seq<string>, ser: seq<NodeId> -> string): string
  {
    KeyOver(d, ChildSeq(d, n), tags, ser)
  }

  /** The concatenation of `ser` of the children of each node of `cs`. */
  function SerializeAll(d: Document, cs: seq<NodeId>, ser: seq<NodeId> -> string): string
  {
    if cs == [] then "" else SerializeAll(d, cs[..|cs| - 1], ser) + ser(ChildSeq(d, cs[|cs| - 1]))
  }

  function Named(d: Document, t: string): NodeId -> bool
  {
    (c: NodeId) => Tag(d, c) == t
  }

  function NamedIn(d: Document, tags: seq<string>): NodeId -> bool
  {
    (c: NodeId) => Tag(d, c) in tags
  }

  /** `keyNodeTags(node, tags)`, with `IO.NodesToString` as `ser`. */
  method KeyNodeTags(d: Document, n: NodeId, tags: seq<string>, ser: seq<NodeId> -> string) returns (key: string)
    requires Valid(d)
    ensures key == Key(d, n, tags, ser)
    ensures tags == [] ==> key == ""
  {
    key := "";
    for k := 0 to |tags|
      invariant key == KeyOver(d, ChildSeq(d, n), tags[..k], ser)
    {
      var nodes := Children(d, n);
      ghost var before := key;
      for i := 0 to |nodes|
        invariant key == before + KeyPart(d, nodes[..i], tags[k], ser)
      {
        KeyPartStep(d, nodes, tags[k], i, ser);
        var c := nodes[i];
        if Tag(d, c) == tags[k] {
          var ch := Children(d, c);
          Associate(before, KeyPart(d, nodes[..i], tags[k], ser), ser(ch));
          key := key + ser(ch);
        }
      }
      assert nodes[..|nodes|] == nodes;
      assert key == before + KeyPart(d, nodes, tags[k], ser);
      KeyOverStep(d, nodes, tags, k, ser);
    }
    assert tags[..|tags|] == tags;
  }

  lemma KeyOverStep(d: Document, cs: seq<NodeId>, tags: seq<string>, k: nat, ser: seq<NodeId> -> string)
    requires k < |tags|
    ensures KeyOver(d, cs, tags[..k + 1], ser) == KeyOver(d, cs, tags[..k], ser) + KeyPart(d, cs, tags[k], ser)
  {
    assert tags[..k + 1][..k] == tags[..k];
  }

  lemma KeyPartStep(d: Document, cs: seq<NodeId>, t: string, i: nat, ser: seq<NodeId> -> string)
    requires i < |cs|
    ensures KeyPart(d, cs[..i + 1], t, ser)
            == KeyPart(d, cs[..i], t, ser) + (if Tag(d, cs[i]) == t then ser(ChildSeq(d, cs[i])) else "")
  {
    assert cs[..i + 1][..i] == cs[..i];
  }

  /** Within one tag, the matching children are taken in document order. */
  lemma {:induction false} KeyPartMatching(d: Document, cs: seq<NodeId>, t: string, ser: seq<NodeId> -> string)
    ensures KeyPart(d, cs, t, ser) == SerializeAll(d, Filter(cs, Named(d, t)), ser)
  {
    if cs != [] {
      var init := cs[..|cs| - 1];
      var c := cs[|cs| - 1];
      KeyPartMatching(d, init, t, ser);
      var f := Filter(init, Named(d, t));
      if Tag(d, c) == t {
        assert Filter(cs, Named(d, t)) == f + [c];
        assert (f + [c])[..|f|] == f;
        assert SerializeAll(d, f + [c], ser) == SerializeAll(d, f, ser) + ser(ChildSeq(d, c));
      } else {
        assert Filter(cs, Named(d, t)) == f;
      }
    }
  }

  /** A tag that no child carries contributes nothing. */
  lemma KeyPartNone(d: Document, cs: seq<NodeId>, t: string, ser: seq<NodeId> -> string)
    requires forall c :: c in cs ==> Tag(d, c) != t
    ensures KeyPart(d, cs, t, ser) == ""
  {
    KeyPartMatching(d, cs, t, ser);
    if Filter(cs, Named(d, t)) != [] {
      var f := Filter(cs, Named(d, t));
      FilterMember(cs, Named(d, t), f[0]);
    }
  }

  /** The key is the concatenation of the keys of the tags, in tag-list order. */
  lemma {:induction false} KeyConcat(d: Document, cs: seq<NodeId>, a: seq<string>, b: seq<string>, ser: seq<NodeId> -> string)
    ensures KeyOver(d, cs, a + b, ser) == KeyOver(d, cs, a, ser) + KeyOver(d, cs, b, ser)
    decreases |b|
  {
    if b == [] {
      assert a + b == a;
    } else {
      var init, t := b[..|b| - 1], b[|b| - 1];
      var ab := a + b;
      assert ab[..|ab| - 1] == a + init;
      assert ab[|ab| - 1] == t;
      KeyConcat(d, cs, a, init, ser);
      Associate(KeyOver(d, cs, a, ser), KeyOver(d, cs, init, ser), KeyPart(d, cs, t, ser));
    }
  }

  lemma Associate(x: string, y: string, z: string)
    ensures x + y + z == x + (y + z)
  {
  }

  lemma {:induction false} KeyPartLocal(d: Document, cs: seq<NodeId>, t: string, all: seq<string>, ser: seq<NodeId> -> string)
    requires t in all
    ensures KeyPart(d, Filter(cs, NamedIn(d, all)), t, ser) == KeyPart(d, cs, t, ser)
  {
    if cs != [] {
      var init := cs[..|cs| - 1];
      var c := cs[|cs| - 1];
      KeyPartLocal(d, init, t, all, ser);
      var f := Filter(init, NamedIn(d, all));
      if Tag(d, c) in all {
        assert Filter(cs, NamedIn(d, all)) == f + [c];
        assert (f + [c])[..|f|] == f;
        assert KeyPart(d, f + [c], t, ser) == KeyPart(d, f, t, ser) + (if Tag(d, c) == t then ser(ChildSeq(d, c)) else "");
      } else {
        assert Filter(cs, NamedIn(d, all)) == f;
      }
    }
  }

  lemma {:induction false} KeyOverLocal(d: Document, cs: seq<NodeId>, tags: seq<string>, all: seq<string>, ser: seq<NodeId> -> string)
    requires forall t :: t in tags ==> t in all
    ensures KeyOver(d, Filter(cs, NamedIn(d, all)), tags, ser) == KeyOver(d, cs, tags, ser)
  {
    if tags != [] {
      KeyOverLocal(d, cs, tags[..|tags| - 1], all, ser);
      KeyPartLocal(d, cs, tags[|tags| - 1], all, ser);
    }
  }

  /** The key depends only on the children whose name is in the tag list:
      dropping every other child leaves it unchanged. */
  lemma KeyLocal(d: Document, n: NodeId, tags: seq<string>, ser: seq<NodeId> -> string)
    ensures KeyOver(d, Filter(ChildSeq(d, n), NamedIn(d, tags)), tags, ser) == Key(d, n, tags, ser)
  {
    KeyOverLocal(d, ChildSeq(d, n), tags, tags, ser);
  }

  /* =============================================================== class */

  /** The evaluator's node factory: the document it creates nodes in. */
  class XQueryEvaluator {
    var doc: Document

    /** An evaluator creating nodes in a store that already holds the
        loaded documents, whose nodes `makeElem` imports. */
    constructor(loaded: Document)
      ensures doc == loaded
    {
      doc := loaded;
    }

    /** `makeElem(tag, ns)`: a new element named `tag`, with a copy of every
        input; attribute copies become its attributes, the other copies its
        children, in input order. Importing a document node fails; the nodes
        created until then stay in the store. */
    method MakeElem(tag: string, ns: seq<NodeId>) returns (r: Option<NodeId>)
      requires InStore(doc.nodes, ns)
      modifies this
      ensures doc.roots == old(doc.roots)
      ensures r.Some? <==> Importable(old(doc.nodes), ns)
      ensures r.Some? ==> r.value == |old(doc.nodes)| && doc.nodes == Made(old(doc.nodes), tag, ns)
      ensures |old(doc.nodes)| < |doc.nodes| && doc.nodes[..|old(doc.nodes)|] == old(doc.nodes)
    {
      ghost var nodes0 := doc.nodes;
      var e := |doc.nodes|;
      doc := doc.(nodes := doc.nodes + [NodeRec(ElementNode, tag, [], None, None, map[], "")]);
      var i := 0;
      while i < |ns|
        invariant 0 <= i <= |ns|
        invariant doc.roots == old(doc.roots)
        invariant InStore(nodes0, ns[..i]) && Importable(nodes0, ns[..i])
        invariant doc.nodes == Made(nodes0, tag, ns[..i])
      {
        InStorePrefix(nodes0, ns, i + 1);
        ghost var pre := ns[..i + 1][..i];
        assert pre == ns[..i];
        var n := ns[i];
        assert doc.nodes[n] == nodes0[n];
        if doc.nodes[n].kind == DocumentNode {
          r := None;
          return;
        }
        var c := |doc.nodes|;
        var copy := CopyOf(doc.nodes[n], e);
        var elem := doc.nodes[e];
        if copy.kind == AttributeNode {
          elem := elem.(attributes := elem.attributes[copy.name := c]);
        } else {
          elem := elem.(children := elem.children + [c]);
        }
        MadeStep(nodes0, tag, ns, i);
        doc := doc.(nodes := doc.nodes[e := elem] + [copy]);
        i := i + 1;
      }
      assert ns[..i] == ns;
      r := Some(e);
    }

    /** `makeText(content)`: a new text node holding `content`. */
    method MakeText(content: string) returns (r: NodeId)
      modifies this
      ensures r == |old(doc.nodes)| && doc == old(doc).(nodes := old(doc.nodes) + [TextRec(content)])
    {
      r := |doc.nodes|;
      doc := doc.(nodes := doc.nodes + [TextRec(content)]);
    }
  }

  /** A made text node holds exactly the given content, and it is one of the
      texts `txt` keeps in a child list iff the content is non-empty. */
  lemma MadeText(d: Document, content: string)
    ensures var d' := d.(nodes := d.nodes + [TextRec(content)]);
      HasKind(d', |d.nodes|, TextNode) && d'.nodes[|d.nodes|].text == content &&
      (IsNonEmptyText(d', |d.nodes|) <==> content != "") &&
      (Valid(d) ==> Valid(d')) && (Valid(d) && Linked(d) ==> Linked(d'))
  {
    var d' := d.(nodes := d.nodes + [TextRec(content)]);
    if Valid(d) {
      forall i, j | 0 <= i < |d'.nodes| && 0 <= j < |d'.nodes[i].children|
        ensures i < d'.nodes[i].children[j] < |d'.nodes|
      {
        assert i < |d.nodes|;
        assert d'.nodes[i] == d.nodes[i];
      }
      if Linked(d) {
        forall i, j | 0 <= i < |d'.nodes| && 0 <= j < |d'.nodes[i].children| && d'.nodes[i].children[j] < |d'.nodes|
          ensures d'.nodes[d'.nodes[i].children[j]] == d.nodes[d.nodes[i].children[j]]
        {
          assert i < |d.nodes|;
          assert d'.nodes[i] == d.nodes[i];
        }
      }
    }
  }
}
