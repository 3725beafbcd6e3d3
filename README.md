# XQuery engine core

A Dafny model of the core of an XPath/XQuery engine written in Java. It
evaluates a restricted XPath dialect over an ordered node tree, renames the
variables of an XQuery abstract syntax tree, builds result elements and
equi-join keys, and pretty-prints queries through two printers: the
formatter and the older single-buffer printer.

The modules follow the program's pieces:

- `Wrappers`: `Option`.
- `Seqs`: filters, flat maps, subsequences and first-occurrence indices.
- `Text`: decimal rendering, joining, spaces, both Java trims (`String.trim` and trimming by `Character.isWhitespace`), and `String.length` in UTF-16 code units.
- `Dom`: the node tree and the XPath node-list primitives.
- `Ast`: the query syntax.
- `XPath`: a reference evaluator and the visitor class over its `nodes` field.
- `Renamer`: alpha-renaming as a pure function, plus the renaming class with its `vars` scope and `varNum` counter.
- `Construct`: element and text construction and join keys.
- `Formatter`: the formatter class, proved against pure layout functions. The layout functions take a `Rules` argument: `AsWritten` is the source's own rules, which the class follows; `Corrected` repairs the two rules listed under Findings, and the line-end lemmas are about it.
- `Printer`: the old printer class over its `query` buffer, proved against pure buffer transformers.

Design choices:

- A document is a sequence of node records indexed by `NodeId`. Node identity is `NodeId` equality.
- `Valid` requires every child to have a larger id than its parent, which bounds every walk of the tree. `Linked` adds that every child records that parent and is not an attribute node; building elements and text nodes keeps both.
- Value equality between nodes (`existsEqual`) and the node serializer used by join keys are parameters.
- Every class method is proved to compute exactly a pure function of the old state, and to leave the counters it borrows as it found them.
- The properties are proved about those functions.

## Model

| member | source | states |
|---|---|---|
| Seqs.IndexOf | src/main/java/edu/ucsd/cse232b/jsidrach/xpath/XPathEvaluator.java:50-58 | the index is that of the first occurrence of the element |
| Seqs.FilterMember | src/main/java/edu/ucsd/cse232b/jsidrach/xpath/XPathEvaluator.java:131-140 | an element is kept by a filter iff it is in the input and satisfies the predicate |
| Seqs.FilterConcat | src/main/java/edu/ucsd/cse232b/jsidrach/xpath/XPathVisitor.java:92-105 | filtering distributes over concatenation, so per-node results are appended in context order |
| Seqs.FilterIsSubseq | src/main/java/edu/ucsd/cse232b/jsidrach/xpath/XPathEvaluator.java:131-140 | a filter result is an order-preserving subsequence of its input |
| Seqs.FlatMapConcat | src/main/java/edu/ucsd/cse232b/jsidrach/xpath/XPathVisitor.java:118-125 | a node-by-node step over a concatenated context is the concatenation of the steps |
| Seqs.FlatMapMember | src/main/java/edu/ucsd/cse232b/jsidrach/xpath/XPathVisitor.java:118-125 | a node is in a node-by-node result iff it comes from some context position |
| Seqs.FlatMapPointwise | src/main/java/edu/ucsd/cse232b/jsidrach/xpath/XPathVisitor.java:229-252 | membership in a node-by-node result is decided one context node at a time |
| Text.NatToString | src/main/java/edu/ucsd/cse232b/jsidrach/xquery/optimizer/XQueryVarsRenamer.java:47-50 | the decimal rendering is non-empty and made of digits |
| Text.ParseNatToString | src/main/java/edu/ucsd/cse232b/jsidrach/xquery/optimizer/XQueryVarsRenamer.java:47-50 | reading the rendering of a counter back gives the counter |
| Text.NatToStringInjective | src/main/java/edu/ucsd/cse232b/jsidrach/xquery/optimizer/XQueryVarsRenamer.java:47-50 | different counters are rendered differently |
| Text.JoinConcat | src/main/java/edu/ucsd/cse232b/jsidrach/xquery/optimizer/XQueryFormatter.java:386-397 | joining two non-empty lists puts exactly one separator at the seam |
| Text.SpacesAreSpaces | src/main/java/edu/ucsd/cse232b/jsidrach/xquery/optimizer/XQueryFormatter.java:46-54 | the indentation run consists of spaces only |
| Text.LTrimBySpec | src/main/java/edu/ucsd/cse232b/jsidrach/xquery/optimizer/XQueryFormatter.java:72-78 | left trimming gives the suffix that starts at the first character kept, and everything removed satisfies the predicate |
| Text.RTrimBySpec | src/main/java/edu/ucsd/cse232b/jsidrach/xquery/optimizer/XQueryFormatter.java:86-92 | right trimming gives the prefix that ends at the last character kept, and everything removed satisfies the predicate |
| Text.LTrimByIdempotent | src/main/java/edu/ucsd/cse232b/jsidrach/xquery/optimizer/XQueryFormatter.java:72-78 | left trimming twice is left trimming once |
| Text.RTrimByIdempotent | src/main/java/edu/ucsd/cse232b/jsidrach/xquery/optimizer/XQueryFormatter.java:86-92 | right trimming twice is right trimming once |
| Text.JavaTrimSpec | src/main/java/edu/ucsd/cse232b/jsidrach/xquery/optimizer/XQueryFormatter.java:207-211 | `trim` returns the factor of the input between the removed leading and trailing characters up to U+0020 |
| Text.Utf16LengthConcat | src/main/java/edu/ucsd/cse232b/jsidrach/xquery/optimizer/XQueryFormatter.java:207 | the length in UTF-16 code units of a concatenation is the sum of the lengths |
| Text.Utf16LengthBmp | src/main/java/edu/ucsd/cse232b/jsidrach/xquery/optimizer/XQueryFormatter.java:417 | the length in code units equals the number of characters exactly when no character lies beyond U+FFFF |
| Dom.Root | src/main/java/edu/ucsd/cse232b/jsidrach/xpath/XPathEvaluator.java:25-42 | the root list has at most one node; it is non-empty exactly when the quoted file name, stripped of its quotes, names a loaded document, and then it holds that document node |
| Dom.Unique | src/main/java/edu/ucsd/cse232b/jsidrach/xpath/XPathEvaluator.java:50-58 | the loop computes the first-occurrence deduplication of its input |
| Dom.DedupSpec | src/main/java/edu/ucsd/cse232b/jsidrach/xpath/XPathEvaluator.java:50-58 | the result has no duplicates, holds the same nodes as the input, is no longer, and keeps first occurrences in input order |
| Dom.DedupMember | src/main/java/edu/ucsd/cse232b/jsidrach/xpath/XPathEvaluator.java:50-58 | a node is in the deduplicated list iff it is in the input |
| Dom.DedupOfNoDup | src/main/java/edu/ucsd/cse232b/jsidrach/xpath/XPathEvaluator.java:50-58 | a list without duplicates is returned unchanged |
| Dom.DedupIdempotent | src/main/java/edu/ucsd/cse232b/jsidrach/xpath/XPathEvaluator.java:50-58 | deduplicating twice is deduplicating once |
| Dom.Children | src/main/java/edu/ucsd/cse232b/jsidrach/xpath/XPathEvaluator.java:66-73 | the loop returns the node's child sequence in document order |
| Dom.DescendantsOrSelf | src/main/java/edu/ucsd/cse232b/jsidrach/xpath/XPathEvaluator.java:81-93 | the descendants-or-self of a node start with the node itself |
| Dom.ForestIsExpand | src/main/java/edu/ucsd/cse232b/jsidrach/xpath/XPathEvaluator.java:81-93 | the recursive descendant definition agrees with its unfolding over a child list |
| Dom.ExpandMember | src/main/java/edu/ucsd/cse232b/jsidrach/xpath/XPathEvaluator.java:81-93 | a node is among the descendants-or-self of a list iff it is a descendant-or-self of one of its nodes |
| Dom.BfsStepShrinks | src/main/java/edu/ucsd/cse232b/jsidrach/xpath/XPathEvaluator.java:81-93 | each loop iteration removes a node from the tree still to visit, so the queue loop terminates |
| Dom.DescendantsOrSelves | src/main/java/edu/ucsd/cse232b/jsidrach/xpath/XPathEvaluator.java:81-93 | the queue loop computes the breadth-first walk |
| Dom.BfsPrefix | src/main/java/edu/ucsd/cse232b/jsidrach/xpath/XPathEvaluator.java:81-93 | the walk only appends to its output |
| Dom.BfsMultiset | src/main/java/edu/ucsd/cse232b/jsidrach/xpath/XPathEvaluator.java:81-93 | the walk adds exactly the descendants of the queued nodes |
| Dom.BreadthFirstSpec | src/main/java/edu/ucsd/cse232b/jsidrach/xpath/XPathEvaluator.java:81-93 | the input list is a prefix of the output, and the output holds exactly the descendants-or-self of the inputs, with multiplicity |
| Dom.BreadthFirstMember | src/main/java/edu/ucsd/cse232b/jsidrach/xpath/XPathEvaluator.java:81-93 | a node is in the output iff it is a descendant-or-self of an input node (both directions) |
| Dom.BreadthFirstIn | src/main/java/edu/ucsd/cse232b/jsidrach/xpath/XPathEvaluator.java:81-93 | the same membership fact, stated by node rather than by position |
| Dom.Parent | src/main/java/edu/ucsd/cse232b/jsidrach/xpath/XPathEvaluator.java:102-112 | at most one node; the owner element of an attribute node, otherwise the parent; empty when there is none |
| Dom.ParentOfChild | src/main/java/edu/ucsd/cse232b/jsidrach/xpath/XPathEvaluator.java:102-112 | in a linked store the parent of any child is the node it is a child of |
| Dom.Txt | src/main/java/edu/ucsd/cse232b/jsidrach/xpath/XPathEvaluator.java:131-140 | the loop returns the non-empty text children |
| Dom.TextChildrenSpec | src/main/java/edu/ucsd/cse232b/jsidrach/xpath/XPathEvaluator.java:131-140 | exactly the children that are text nodes with non-empty content, as a subsequence of the children |
| Dom.Attrib | src/main/java/edu/ucsd/cse232b/jsidrach/xpath/XPathEvaluator.java:150-161 | empty for a non-element node or a missing attribute, otherwise the singleton holding that attribute node |
| Dom.Singleton | src/main/java/edu/ucsd/cse232b/jsidrach/xpath/XPathEvaluator.java:169-175 | empty for a missing node, otherwise the one-element list |
| XPath.EvalF | src/main/java/edu/ucsd/cse232b/jsidrach/xpath/XPathVisitor.java:313-448 | a condition filter (`=`, `==`, `is`, `and`, `or`, `not`) yields the whole context or nothing |
| XPath.KeepIfIsFilter | src/main/java/edu/ucsd/cse232b/jsidrach/xpath/XPathVisitor.java:265-277 | `rp[f]` keeps, in order, the nodes at which the filter holds |
| XPath.PathsNoDup | src/main/java/edu/ucsd/cse232b/jsidrach/xpath/XPathVisitor.java:229-252 | the results of `rp1/rp2` and `rp1//rp2` have no duplicates |
| XPath.AbsolutePathNoDup | src/main/java/edu/ucsd/cse232b/jsidrach/xpath/XPathVisitor.java:42-63 | the results of `doc(f)/rp` and `doc(f)//rp` have no duplicates |
| XPath.StepConcat | src/main/java/edu/ucsd/cse232b/jsidrach/xpath/XPathVisitor.java:92-201 | a node-by-node step distributes over concatenation of the context |
| XPath.StepSingle | src/main/java/edu/ucsd/cse232b/jsidrach/xpath/XPathVisitor.java:92-201 | on one node, the steps are the tag-filtered children, the children, the parent, the text children and the attribute |
| XPath.TagStepMember | src/main/java/edu/ucsd/cse232b/jsidrach/xpath/XPathVisitor.java:92-105 | a tag step returns exactly the children of context nodes with that tag, each node's part a subsequence of its children |
| XPath.KeepIfSpec | src/main/java/edu/ucsd/cse232b/jsidrach/xpath/XPathVisitor.java:265-277 | `rp[f]` keeps exactly the nodes where `f` holds, as a subsequence |
| XPath.FilterPath | src/main/java/edu/ucsd/cse232b/jsidrach/xpath/XPathVisitor.java:265-277 | the result of `rp[f]` is the subsequence of the result of `rp` at whose nodes `f` is non-empty |
| XPath.ConditionTruth | src/main/java/edu/ucsd/cse232b/jsidrach/xpath/XPathVisitor.java:403-448 | on a non-empty context, `and`, `or` and `not` are non-empty iff both, either, or neither operand is |
| XPath.ExistsEqualIff | src/main/java/edu/ucsd/cse232b/jsidrach/xpath/XPathVisitor.java:335-345 | some value-equal pair exists iff some element of each side is value-equal |
| XPath.ExistsSameIff | src/main/java/edu/ucsd/cse232b/jsidrach/xpath/XPathVisitor.java:362-372 | some identical pair exists iff the two sides share a node |
| XPath.ComparisonTruth | src/main/java/edu/ucsd/cse232b/jsidrach/xpath/XPathVisitor.java:335-372 | `rp1 = rp2` and `rp1 == rp2` hold at a node iff some pair of the results is value-equal, or identical |
| XPath.Pointwise | src/main/java/edu/ucsd/cse232b/jsidrach/xpath/XPathVisitor.java:92-298 | a node is in the result of any path iff it is in the result from some single context node |
| XPath.ChildrenMember | src/main/java/edu/ucsd/cse232b/jsidrach/xpath/XPathVisitor.java:229-233 | `rp1/rp2` returns exactly the nodes `rp2` reaches from some node `rp1` reaches |
| XPath.ChildThenParent | src/main/java/edu/ucsd/cse232b/jsidrach/xpath/XPathVisitor.java:153-160 | in a linked store `..` after `*` reaches exactly the context nodes that have a child |
| XPath.AllMember | src/main/java/edu/ucsd/cse232b/jsidrach/xpath/XPathVisitor.java:248-252 | `rp1//rp2` returns exactly the nodes `rp2` reaches from some descendant-or-self of a node `rp1` reaches |
| XPath.ClosurePointwise | src/main/java/edu/ucsd/cse232b/jsidrach/xpath/XPathVisitor.java:248-252 | the descendants-or-self of a path result are decided one context node at a time |
| XPath.XPathVisitor.VisitAp | src/main/java/edu/ucsd/cse232b/jsidrach/xpath/XPathVisitor.java:42-79 | visiting an absolute path returns its evaluation and leaves it in `nodes` |
| XPath.XPathVisitor.VisitApChildren | src/main/java/edu/ucsd/cse232b/jsidrach/xpath/XPathVisitor.java:42-46 | `doc(f)/rp` is the deduplicated result of `rp` from the document node |
| XPath.XPathVisitor.VisitApAll | src/main/java/edu/ucsd/cse232b/jsidrach/xpath/XPathVisitor.java:59-63 | `doc(f)//rp` is the deduplicated result of `rp` from the descendants-or-self of the document node |
| XPath.XPathVisitor.VisitApDoc | src/main/java/edu/ucsd/cse232b/jsidrach/xpath/XPathVisitor.java:76-79 | `doc(f)` sets `nodes` to the loaded root |
| XPath.XPathVisitor.VisitRp | src/main/java/edu/ucsd/cse232b/jsidrach/xpath/XPathVisitor.java:92-298 | every relative-path visit returns its evaluation on the old context and leaves `nodes` equal to the result |
| XPath.XPathVisitor.VisitRpTag | src/main/java/edu/ucsd/cse232b/jsidrach/xpath/XPathVisitor.java:92-105 | the tag step over the old context, left in `nodes` |
| XPath.XPathVisitor.ChildrenWithTag | src/main/java/edu/ucsd/cse232b/jsidrach/xpath/XPathVisitor.java:96-102 | the inner loop collects, in order, the children of a node with the given tag |
| XPath.XPathVisitor.VisitRpWildcard | src/main/java/edu/ucsd/cse232b/jsidrach/xpath/XPathVisitor.java:118-125 | the concatenation of the children of the context nodes |
| XPath.XPathVisitor.VisitRpCurrent | src/main/java/edu/ucsd/cse232b/jsidrach/xpath/XPathVisitor.java:138-140 | the context, unchanged |
| XPath.XPathVisitor.VisitRpParent | src/main/java/edu/ucsd/cse232b/jsidrach/xpath/XPathVisitor.java:153-160 | the concatenation of the parents, without deduplication |
| XPath.XPathVisitor.VisitRpText | src/main/java/edu/ucsd/cse232b/jsidrach/xpath/XPathVisitor.java:173-180 | the concatenation of the text children |
| XPath.XPathVisitor.VisitRpAttribute | src/main/java/edu/ucsd/cse232b/jsidrach/xpath/XPathVisitor.java:193-201 | the concatenation of the named attributes |
| XPath.XPathVisitor.VisitRpParentheses | src/main/java/edu/ucsd/cse232b/jsidrach/xpath/XPathVisitor.java:214-216 | the result of the inner path |
| XPath.XPathVisitor.VisitRpChildren | src/main/java/edu/ucsd/cse232b/jsidrach/xpath/XPathVisitor.java:229-233 | `rp1/rp2`: `rp2` run on the result of `rp1`, deduplicated |
| XPath.XPathVisitor.VisitRpAll | src/main/java/edu/ucsd/cse232b/jsidrach/xpath/XPathVisitor.java:248-252 | `rp1//rp2`: `rp2` run on the descendants-or-self of the result of `rp1`, deduplicated |
| XPath.XPathVisitor.VisitRpFilter | src/main/java/edu/ucsd/cse232b/jsidrach/xpath/XPathVisitor.java:265-277 | `rp[f]`: the nodes of `rp`'s result at which `f` is non-empty, in order, with `nodes` restored inside the loop |
| XPath.XPathVisitor.VisitRpPair | src/main/java/edu/ucsd/cse232b/jsidrach/xpath/XPathVisitor.java:290-298 | `rp1, rp2`: both paths on the same original context, concatenated |
| XPath.XPathVisitor.VisitF | src/main/java/edu/ucsd/cse232b/jsidrach/xpath/XPathVisitor.java:313-448 | every filter visit returns its evaluation and leaves `nodes` as it found it |
| XPath.XPathVisitor.VisitFRelativePath | src/main/java/edu/ucsd/cse232b/jsidrach/xpath/XPathVisitor.java:313-318 | a path filter is the path's result, with `nodes` restored |
| XPath.XPathVisitor.VisitFValueEquality | src/main/java/edu/ucsd/cse232b/jsidrach/xpath/XPathVisitor.java:335-345 | the context if some pair of the two results is value-equal, else empty |
| XPath.XPathVisitor.VisitFIdentityEquality | src/main/java/edu/ucsd/cse232b/jsidrach/xpath/XPathVisitor.java:362-372 | the context if the two results share a node, else empty |
| XPath.XPathVisitor.VisitFParentheses | src/main/java/edu/ucsd/cse232b/jsidrach/xpath/XPathVisitor.java:386-388 | the inner filter's result |
| XPath.XPathVisitor.VisitFAnd | src/main/java/edu/ucsd/cse232b/jsidrach/xpath/XPathVisitor.java:403-408 | the context if both operands are non-empty, else empty |
| XPath.XPathVisitor.VisitFOr | src/main/java/edu/ucsd/cse232b/jsidrach/xpath/XPathVisitor.java:423-428 | the context if either operand is non-empty, else empty |
| XPath.XPathVisitor.VisitFNot | src/main/java/edu/ucsd/cse232b/jsidrach/xpath/XPathVisitor.java:443-448 | the context if the operand is empty, else empty |
| Renamer.VarName | src/main/java/edu/ucsd/cse232b/jsidrach/xquery/optimizer/XQueryVarsRenamer.java:47-50 | every generated name starts with `$v` followed by digits |
| Renamer.VarNameInjective | src/main/java/edu/ucsd/cse232b/jsidrach/xquery/optimizer/XQueryVarsRenamer.java:47-50 | generated names from different counter values differ, and none is `$Undefined` |
| Renamer.VarNamesAt | src/main/java/edu/ucsd/cse232b/jsidrach/xquery/optimizer/XQueryVarsRenamer.java:47-50 | the names issued between two counter values are `$v(a+1)` … `$vb`, in order |
| Renamer.VarNamesConcat | src/main/java/edu/ucsd/cse232b/jsidrach/xquery/optimizer/XQueryVarsRenamer.java:108-168 | the names issued over two consecutive runs are those of the whole run |
| Renamer.VarNamesNoDup | src/main/java/edu/ucsd/cse232b/jsidrach/xquery/optimizer/XQueryVarsRenamer.java:47-50 | the names issued within one run are pairwise distinct |
| Renamer.RenameBindingsStep | src/main/java/edu/ucsd/cse232b/jsidrach/xquery/optimizer/XQueryVarsRenamer.java:108-121 | adding binding `i` renames its source in the scope left by bindings `0..i-1`, then binds the variable to the next name |
| Renamer.BindersRenamedXq | src/main/java/edu/ucsd/cse232b/jsidrach/xquery/optimizer/XQueryVarsRenamer.java:80-168 | the counter never decreases, and the binders of the renamed query are exactly the names issued, in order |
| Renamer.BindersRenamedCond | src/main/java/edu/ucsd/cse232b/jsidrach/xquery/optimizer/XQueryVarsRenamer.java:152-168 | the same for conditions |
| Renamer.BindersRenamedBindings | src/main/java/edu/ucsd/cse232b/jsidrach/xquery/optimizer/XQueryVarsRenamer.java:108-143 | the same for a binding list |
| Renamer.BindersRenamedWhere | src/main/java/edu/ucsd/cse232b/jsidrach/xquery/optimizer/XQueryVarsRenamer.java:94-99 | the same for an optional `where` condition |
| Renamer.BindersDistinct | src/main/java/edu/ucsd/cse232b/jsidrach/xquery/optimizer/XQueryVarsRenamer.java:47-50 | every binder of a renamed query has its own name, one per counter step |
| Renamer.IdempotentXq | src/test/java/edu/ucsd/cse232b/jsidrach/xquery/XQueryTests.java:147-150 | renaming a renamed query in a scope that maps every issued name to itself gives the same query and counter |
| Renamer.IdempotentBindings | src/test/java/edu/ucsd/cse232b/jsidrach/xquery/XQueryTests.java:147-150 | the same for a binding list, and the scopes stay related |
| Renamer.IdempotentCond | src/test/java/edu/ucsd/cse232b/jsidrach/xquery/XQueryTests.java:147-150 | the same for conditions |
| Renamer.RenameIdempotent | src/test/java/edu/ucsd/cse232b/jsidrach/xquery/XQueryTests.java:147-150 | renaming is idempotent from the empty scope |
| Renamer.RenameBindingsPrefix | src/main/java/edu/ucsd/cse232b/jsidrach/xquery/optimizer/XQueryVarsRenamer.java:108-121 | renaming a prefix of the bindings gives the prefix of the renamed bindings |
| Renamer.BindingScope | src/main/java/edu/ucsd/cse232b/jsidrach/xquery/optimizer/XQueryVarsRenamer.java:111-114 | binding `i` gets the next name, and its source is renamed in the outer scope extended by bindings `0..i-1` only |
| Renamer.SelfReferenceUndefined | src/main/java/edu/ucsd/cse232b/jsidrach/xquery/optimizer/XQueryVarsRenamer.java:111-114 | in `for $x in $x` with no outer `$x`, the source refers to `$Undefined` |
| Renamer.TextsStep | src/main/java/edu/ucsd/cse232b/jsidrach/xquery/optimizer/XQueryVarsRenamer.java:110-118 | the clause text gets a comma between bindings and none after the last |
| Renamer.VarsRenamer.NextVarName | src/main/java/edu/ucsd/cse232b/jsidrach/xquery/optimizer/XQueryVarsRenamer.java:47-50 | the counter goes up by one, the scope is unchanged, and the name is `$v` and the new counter |
| Renamer.VarsRenamer.GetVarName | src/main/java/edu/ucsd/cse232b/jsidrach/xquery/optimizer/XQueryVarsRenamer.java:58-60 | the mapped name for a bound variable, `$Undefined` for an unbound one |
| Renamer.VarsRenamer.VisitXq | src/main/java/edu/ucsd/cse232b/jsidrach/xquery/optimizer/XQueryVarsRenamer.java:69-168 | the visit computes the pure renaming and restores the scope |
| Renamer.VarsRenamer.VisitXqVariable | src/main/java/edu/ucsd/cse232b/jsidrach/xquery/optimizer/XQueryVarsRenamer.java:69-71 | a variable becomes its mapped name |
| Renamer.VarsRenamer.VisitXqLet | src/main/java/edu/ucsd/cse232b/jsidrach/xquery/optimizer/XQueryVarsRenamer.java:80-85 | the pure renaming of `let`, with the scope restored on exit |
| Renamer.VarsRenamer.VisitXqFLWR | src/main/java/edu/ucsd/cse232b/jsidrach/xquery/optimizer/XQueryVarsRenamer.java:94-99 | the pure renaming of a FLWR expression, with the scope restored on exit |
| Renamer.VarsRenamer.VisitWhere | src/main/java/edu/ucsd/cse232b/jsidrach/xquery/optimizer/XQueryVarsRenamer.java:94-99 | the pure renaming of the `where` condition, with the scope restored |
| Renamer.VarsRenamer.VisitForClause | src/main/java/edu/ucsd/cse232b/jsidrach/xquery/optimizer/XQueryVarsRenamer.java:108-121 | the renamed bindings and the extended scope, and the text ` for $vK in xq` joined by commas |
| Renamer.VarsRenamer.VisitLetClause | src/main/java/edu/ucsd/cse232b/jsidrach/xquery/optimizer/XQueryVarsRenamer.java:130-143 | the same with ` let $vK:=xq` |
| Renamer.VarsRenamer.VisitBindings | src/main/java/edu/ucsd/cse232b/jsidrach/xquery/optimizer/XQueryVarsRenamer.java:110-118 | the loop renames the bindings one by one and joins their texts with commas |
| Renamer.VarsRenamer.VisitCond | src/main/java/edu/ucsd/cse232b/jsidrach/xquery/optimizer/XQueryVarsRenamer.java:152-168 | the pure renaming of a condition, with the scope restored |
| Renamer.VarsRenamer.VisitCondSome | src/main/java/edu/ucsd/cse232b/jsidrach/xquery/optimizer/XQueryVarsRenamer.java:152-168 | the renamed `some`, the scope restored, and the text ` some … satisfies cond` |
| Construct.Copies | src/main/java/edu/ucsd/cse232b/jsidrach/xquery/XQueryEvaluator.java:41-53 | one imported copy per input node |
| Construct.CopiesAt | src/main/java/edu/ucsd/cse232b/jsidrach/xquery/XQueryEvaluator.java:47 | copy `i` is the copy of input node `i`, owned by the new element |
| Construct.MadeStep | src/main/java/edu/ucsd/cse232b/jsidrach/xquery/XQueryEvaluator.java:46-53 | one loop step appends the copy, and adds it as an attribute or as a child |
| Construct.ElemChildrenAreCopies | src/main/java/edu/ucsd/cse232b/jsidrach/xquery/XQueryEvaluator.java:46-53 | the children of the new element are copies of the non-attribute inputs, in input order |
| Construct.ElemAttributesAreCopies | src/main/java/edu/ucsd/cse232b/jsidrach/xquery/XQueryEvaluator.java:46-53 | the element has an attribute named `a` iff some attribute input has that name, and it is a copy of such an input |
| Construct.MadeValid | src/main/java/edu/ucsd/cse232b/jsidrach/xquery/XQueryEvaluator.java:44-55 | building the element keeps the node tree well formed |
| Construct.MadeLinked | src/main/java/edu/ucsd/cse232b/jsidrach/xquery/XQueryEvaluator.java:44-55 | building the element keeps every child's parent link: the element's children are non-attribute copies whose parent is the element |
| Construct.XQueryEvaluator.constructor | src/main/java/edu/ucsd/cse232b/jsidrach/xquery/XQueryEvaluator.java:31-35 | the evaluator creates its nodes in the given store |
| Construct.MadeParent | src/main/java/edu/ucsd/cse232b/jsidrach/xquery/XQueryEvaluator.java:44-53 | each copy's parent is the new element, the element has no parent, is named by the tag, and copies keep their names |
| Construct.XQueryEvaluator.MakeElem | src/main/java/edu/ucsd/cse232b/jsidrach/xquery/XQueryEvaluator.java:44-55 | builds a fresh element of the given name exactly when every input can be imported; the old nodes are unchanged |
| Construct.XQueryEvaluator.MakeText | src/main/java/edu/ucsd/cse232b/jsidrach/xquery/XQueryEvaluator.java:63-65 | appends a text node with the given content and returns its id |
| Construct.MadeText | src/main/java/edu/ucsd/cse232b/jsidrach/xquery/XQueryEvaluator.java:63-65 | the new node is a text node holding the content, it is kept by `txt` iff the content is non-empty, and the tree stays well formed and linked |
| Construct.KeyNodeTags | src/main/java/edu/ucsd/cse232b/jsidrach/xquery/XQueryEvaluator.java:74-90 | the nested loops compute the key, and an empty tag list gives `""` |
| Construct.KeyPartMatching | src/main/java/edu/ucsd/cse232b/jsidrach/xquery/XQueryEvaluator.java:80-82 | one tag contributes the serializations of the matching children, in document order |
| Construct.KeyPartNone | src/main/java/edu/ucsd/cse232b/jsidrach/xquery/XQueryEvaluator.java:80 | a tag with no matching child contributes nothing |
| Construct.KeyConcat | src/main/java/edu/ucsd/cse232b/jsidrach/xquery/XQueryEvaluator.java:76-88 | the key over a concatenated tag list is the concatenation of the keys |
| Construct.KeyLocal | src/main/java/edu/ucsd/cse232b/jsidrach/xquery/XQueryEvaluator.java:80 | the key depends only on the children whose name is in the tag list |
| Formatter.IndentedSpec | src/main/java/edu/ucsd/cse232b/jsidrach/xquery/optimizer/XQueryFormatter.java:46-54 | `indent(s)` is `2*level + extraSpaces` spaces (none when negative) followed by `s` |
| Formatter.RTrimmedLine | src/main/java/edu/ucsd/cse232b/jsidrach/xquery/optimizer/XQueryFormatter.java:62-64 | right-trimming `line(s)` removes exactly the line end when `s` ends with a visible character |
| Formatter.LTrimmedNonBlank | src/main/java/edu/ucsd/cse232b/jsidrach/xquery/optimizer/XQueryFormatter.java:72-78 | left trimming leaves a string that starts visibly unchanged |
| Formatter.LTrimmedLine | src/main/java/edu/ucsd/cse232b/jsidrach/xquery/optimizer/XQueryFormatter.java:62-78 | left-trimming `line(s)` of a token leaves `s` and the line end |
| Formatter.TagLayout | src/main/java/edu/ucsd/cse232b/jsidrach/xquery/optimizer/XQueryFormatter.java:200-213 | a tag construction is run together on one indented line when the trimmed body is at most 20 UTF-16 code units, and that line is left open as written and ended by the corrected rule; otherwise the opening tag, the body and the closing tag are on separate lines |
| Formatter.TagAsWrittenLeavesLineOpen | src/main/java/edu/ucsd/cse232b/jsidrach/xquery/optimizer/XQueryFormatter.java:207-211 | as written, an inline tag ends with `>` and no line end |
| Formatter.ParenthesesAsWrittenLeaveLineOpen | src/main/java/edu/ucsd/cse232b/jsidrach/xquery/optimizer/XQueryFormatter.java:508-516 | as written, condition parentheses end with `)` and no line end |
| Formatter.XqEndsLine | src/main/java/edu/ucsd/cse232b/jsidrach/xquery/optimizer/XQueryFormatter.java:105-373 | with the corrected rules, every formatted expression is non-blank and ends its line |
| Formatter.CondEndsLine | src/main/java/edu/ucsd/cse232b/jsidrach/xquery/optimizer/XQueryFormatter.java:410-573 | with the corrected rules, every formatted condition is non-blank and ends its line |
| Formatter.JoinTextEndsLine | src/main/java/edu/ucsd/cse232b/jsidrach/xquery/optimizer/XQueryFormatter.java:222-237 | the join layout ends with `)` on its own line end |
| Formatter.ReturnEndsLine | src/main/java/edu/ucsd/cse232b/jsidrach/xquery/optimizer/XQueryFormatter.java:365-373 | the `return` clause ends its line |
| Formatter.ComparisonEndsLine | src/main/java/edu/ucsd/cse232b/jsidrach/xquery/optimizer/XQueryFormatter.java:410-445 | a comparison is on one line when both trimmed sides together are at most 20 UTF-16 code units, and either way it ends its line when its right side does |
| Formatter.ItemsStep | src/main/java/edu/ucsd/cse232b/jsidrach/xquery/optimizer/XQueryFormatter.java:286-308 | the text over bindings `0..i` is the text over `0..i-1` extended by binding `i` |
| Formatter.XQueryFormatter.Indent | src/main/java/edu/ucsd/cse232b/jsidrach/xquery/optimizer/XQueryFormatter.java:46-54 | the loop builds the indentation followed by `s` |
| Formatter.XQueryFormatter.Line | src/main/java/edu/ucsd/cse232b/jsidrach/xquery/optimizer/XQueryFormatter.java:62-64 | `line(s)` is `indent(s + lineSeparator)` |
| Formatter.XQueryFormatter.LTrim | src/main/java/edu/ucsd/cse232b/jsidrach/xquery/optimizer/XQueryFormatter.java:72-78 | the loop removes the leading whitespace |
| Formatter.XQueryFormatter.RTrim | src/main/java/edu/ucsd/cse232b/jsidrach/xquery/optimizer/XQueryFormatter.java:86-92 | the loop removes the trailing whitespace |
| Formatter.XQueryFormatter.VisitXq | src/main/java/edu/ucsd/cse232b/jsidrach/xquery/optimizer/XQueryFormatter.java:105-273 | every expression visit returns the layout text under the rules as written and leaves `level` and `extraSpaces` as it found them |
| Formatter.XQueryFormatter.VisitXqParentheses | src/main/java/edu/ucsd/cse232b/jsidrach/xquery/optimizer/XQueryFormatter.java:138-146 | parentheses, with the extra indentation paired |
| Formatter.XQueryFormatter.VisitXqPair | src/main/java/edu/ucsd/cse232b/jsidrach/xquery/optimizer/XQueryFormatter.java:155-161 | a pair, comma-separated |
| Formatter.XQueryFormatter.VisitXqChildren | src/main/java/edu/ucsd/cse232b/jsidrach/xquery/optimizer/XQueryFormatter.java:170-176 | `xq/rp` |
| Formatter.XQueryFormatter.VisitXqAll | src/main/java/edu/ucsd/cse232b/jsidrach/xquery/optimizer/XQueryFormatter.java:185-191 | `xq//rp` |
| Formatter.XQueryFormatter.VisitXqTag | src/main/java/edu/ucsd/cse232b/jsidrach/xquery/optimizer/XQueryFormatter.java:200-213 | the tag layout as written (run together, the bare closing tag is left-trimmed and the line stays open), with the level paired |
| Formatter.XQueryFormatter.VisitXqJoin | src/main/java/edu/ucsd/cse232b/jsidrach/xquery/optimizer/XQueryFormatter.java:222-237 | the join layout, with the extra indentation paired |
| Formatter.XQueryFormatter.VisitXqLet | src/main/java/edu/ucsd/cse232b/jsidrach/xquery/optimizer/XQueryFormatter.java:246-253 | the `let` clause, then the body one level deeper |
| Formatter.XQueryFormatter.VisitXqFLWR | src/main/java/edu/ucsd/cse232b/jsidrach/xquery/optimizer/XQueryFormatter.java:262-273 | `for`, then `let` when present, then `where` when present, then `return` |
| Formatter.XQueryFormatter.VisitForClause | src/main/java/edu/ucsd/cse232b/jsidrach/xquery/optimizer/XQueryFormatter.java:286-308 | the `for` clause text, with the counters restored |
| Formatter.XQueryFormatter.VisitLetClause | src/main/java/edu/ucsd/cse232b/jsidrach/xquery/optimizer/XQueryFormatter.java:317-339 | the `let` clause text, with the counters restored |
| Formatter.XQueryFormatter.VisitClause | src/main/java/edu/ucsd/cse232b/jsidrach/xquery/optimizer/XQueryFormatter.java:286-308 | the loop over the bindings builds the clause text |
| Formatter.XQueryFormatter.VisitBinding | src/main/java/edu/ucsd/cse232b/jsidrach/xquery/optimizer/XQueryFormatter.java:290-306 | one binding: the variable and word, the trimmed source, a comma unless last, and the line end |
| Formatter.XQueryFormatter.VisitWhereClause | src/main/java/edu/ucsd/cse232b/jsidrach/xquery/optimizer/XQueryFormatter.java:348-356 | the `where` clause text |
| Formatter.XQueryFormatter.VisitReturnClause | src/main/java/edu/ucsd/cse232b/jsidrach/xquery/optimizer/XQueryFormatter.java:365-373 | the `return` clause text |
| Formatter.XQueryFormatter.VisitTagList | src/main/java/edu/ucsd/cse232b/jsidrach/xquery/optimizer/XQueryFormatter.java:386-397 | `line("[" + names joined by ", " + "]")` |
| Formatter.XQueryFormatter.VisitCond | src/main/java/edu/ucsd/cse232b/jsidrach/xquery/optimizer/XQueryFormatter.java:410-573 | every condition visit returns the layout text under the rules as written and restores the counters |
| Formatter.XQueryFormatter.VisitCondValueEquality | src/main/java/edu/ucsd/cse232b/jsidrach/xquery/optimizer/XQueryFormatter.java:410-423 | `=` inline when the trimmed sides total at most 20 UTF-16 code units, otherwise on the next line |
| Formatter.XQueryFormatter.VisitCondIdentityEquality | src/main/java/edu/ucsd/cse232b/jsidrach/xquery/optimizer/XQueryFormatter.java:432-445 | `==` inline when the trimmed sides total at most 20 UTF-16 code units, otherwise on the next line |
| Formatter.XQueryFormatter.VisitCondEmpty | src/main/java/edu/ucsd/cse232b/jsidrach/xquery/optimizer/XQueryFormatter.java:454-463 | `empty(` with the trimmed expression and `)` |
| Formatter.XQueryFormatter.VisitCondSome | src/main/java/edu/ucsd/cse232b/jsidrach/xquery/optimizer/XQueryFormatter.java:472-499 | the `some` clause and `satisfies` |
| Formatter.XQueryFormatter.VisitCondParentheses | src/main/java/edu/ucsd/cse232b/jsidrach/xquery/optimizer/XQueryFormatter.java:508-516 | `(`, the trimmed condition and `)`, with no line end, as written |
| Formatter.XQueryFormatter.VisitCondAnd | src/main/java/edu/ucsd/cse232b/jsidrach/xquery/optimizer/XQueryFormatter.java:525-536 | `and` starting the right operand's line |
| Formatter.XQueryFormatter.VisitCondOr | src/main/java/edu/ucsd/cse232b/jsidrach/xquery/optimizer/XQueryFormatter.java:545-556 | `or` starting the right operand's line |
| Formatter.XQueryFormatter.VisitCondNot | src/main/java/edu/ucsd/cse232b/jsidrach/xquery/optimizer/XQueryFormatter.java:565-573 | `not` and the operand |
| Printer.EmitSpec | src/main/java/edu/ucsd/cse232b/jsidrach/xquery/XQueryOptimizer.java:50-61 | `output(s, inline, newline)` appends `2*level` spaces only when not inline, then `s`, then a line feed only when `newline`; the old buffer is a prefix |
| Printer.KeepsRefl | src/main/java/edu/ucsd/cse232b/jsidrach/xquery/XQueryOptimizer.java:84-90 | every buffer keeps its own visible content |
| Printer.KeepsAppend | src/main/java/edu/ucsd/cse232b/jsidrach/xquery/XQueryOptimizer.java:50-61 | appending keeps the visible content of the old buffer |
| Printer.KeepsTrim | src/main/java/edu/ucsd/cse232b/jsidrach/xquery/XQueryOptimizer.java:84-90 | trimming trailing whitespace keeps it too |
| Printer.KeepsTrans | src/main/java/edu/ucsd/cse232b/jsidrach/xquery/XQueryOptimizer.java:84-90 | keeping is transitive |
| Printer.KeepsEmit | src/main/java/edu/ucsd/cse232b/jsidrach/xquery/XQueryOptimizer.java:50-61 | every `output` call keeps it |
| Printer.RTrimmedEmitLine | src/main/java/edu/ucsd/cse232b/jsidrach/xquery/XQueryOptimizer.java:68-90 | trimming a just-emitted line removes exactly its line feed |
| Printer.PrintRpAppends | src/main/java/edu/ucsd/cse232b/jsidrach/xquery/XQueryOptimizer.java:585-721 | every relative-path rule only appends to the buffer, so the text of a path does not depend on what precedes it |
| Printer.PrintFAppends | src/main/java/edu/ucsd/cse232b/jsidrach/xquery/XQueryOptimizer.java:734-820 | every filter rule only appends to the buffer |
| Printer.PrintApAppends | src/main/java/edu/ucsd/cse232b/jsidrach/xquery/XQueryOptimizer.java:541-572 | the absolute-path rules only append to the buffer |
| Printer.PairParenthesized | src/main/java/edu/ucsd/cse232b/jsidrach/xquery/XQueryOptimizer.java:714-721 | a relative-path pair is always printed as `(rp1, rp2)` |
| Printer.SameRpText | src/main/java/edu/ucsd/cse232b/jsidrach/xquery/XQueryOptimizer.java:585-705 | without pairs and `not`, the old printer and the formatter print a relative path identically |
| Printer.SameFText | src/main/java/edu/ucsd/cse232b/jsidrach/xquery/XQueryOptimizer.java:734-820 | the same for filters |
| Printer.PairTextDiffers | src/main/java/edu/ucsd/cse232b/jsidrach/xquery/XQueryOptimizer.java:714-721 | the old printer parenthesizes a pair where the formatter does not, so the two texts differ |
| Printer.AndPrintedAsOr | src/main/java/edu/ucsd/cse232b/jsidrach/xquery/XQueryOptimizer.java:496-501 | as written, `and` is printed exactly as `or` |
| Printer.AndOrDistinct | src/main/java/edu/ucsd/cse232b/jsidrach/xquery/XQueryOptimizer.java:490-501 | with the keyword corrected (`PrintCondAndCorrected`), `and` and `or` print differently |
| Printer.KeepsXq | src/main/java/edu/ucsd/cse232b/jsidrach/xquery/XQueryOptimizer.java:103-394 | no expression rule loses visible buffer content, even with its in-place trims |
| Printer.KeepsCond | src/main/java/edu/ucsd/cse232b/jsidrach/xquery/XQueryOptimizer.java:407-528 | no condition rule loses visible buffer content |
| Printer.KeepsClause | src/main/java/edu/ucsd/cse232b/jsidrach/xquery/XQueryOptimizer.java:298-338 | no clause rule loses visible buffer content |
| Printer.KeepsWhere | src/main/java/edu/ucsd/cse232b/jsidrach/xquery/XQueryOptimizer.java:348-354 | nor does the `where` rule |
| Printer.FLWROrder | src/main/java/edu/ucsd/cse232b/jsidrach/xquery/XQueryOptimizer.java:274-284 | a FLWR expression is printed in the order `for`, `let` when present, `where` when present, `return`, each keeping what came before |
| Printer.AbsolutePathLine | src/main/java/edu/ucsd/cse232b/jsidrach/xquery/XQueryOptimizer.java:127-132 | an absolute path is printed on its own indented line |
| Printer.PrintItemsStep | src/main/java/edu/ucsd/cse232b/jsidrach/xquery/XQueryOptimizer.java:298-313 | the clause text over bindings `0..i` extends the text over `0..i-1` by binding `i` |
| Printer.XQueryOptimizer.Output | src/main/java/edu/ucsd/cse232b/jsidrach/xquery/XQueryOptimizer.java:50-61 | the loop emits the indentation, the text and the optional line feed |
| Printer.XQueryOptimizer.Line | src/main/java/edu/ucsd/cse232b/jsidrach/xquery/XQueryOptimizer.java:68-70 | `line(s)` is `output(s, false, true)` |
| Printer.XQueryOptimizer.Inline | src/main/java/edu/ucsd/cse232b/jsidrach/xquery/XQueryOptimizer.java:77-79 | `inline(s)` appends `s` |
| Printer.XQueryOptimizer.RTrim | src/main/java/edu/ucsd/cse232b/jsidrach/xquery/XQueryOptimizer.java:84-90 | the loop truncates the buffer to its trailing-whitespace-free prefix |
| Printer.XQueryOptimizer.VisitXq | src/main/java/edu/ucsd/cse232b/jsidrach/xquery/XQueryOptimizer.java:103-394 | every expression visit leaves the buffer equal to the transformer's result, leaves `level` unchanged, and returns the whole buffer |
| Printer.XQueryOptimizer.VisitXqParentheses | src/main/java/edu/ucsd/cse232b/jsidrach/xquery/XQueryOptimizer.java:141-148 | parentheses, with the level paired |
| Printer.XQueryOptimizer.VisitXqPair | src/main/java/edu/ucsd/cse232b/jsidrach/xquery/XQueryOptimizer.java:157-163 | a pair, with the comma after the trimmed left side |
| Printer.XQueryOptimizer.VisitXqChildren | src/main/java/edu/ucsd/cse232b/jsidrach/xquery/XQueryOptimizer.java:172-181 | `xq/rp` |
| Printer.XQueryOptimizer.VisitXqAll | src/main/java/edu/ucsd/cse232b/jsidrach/xquery/XQueryOptimizer.java:190-199 | `xq//rp` |
| Printer.XQueryOptimizer.VisitXqTag | src/main/java/edu/ucsd/cse232b/jsidrach/xquery/XQueryOptimizer.java:208-215 | the tag lines, the closing tag written with the opening identifier |
| Printer.XQueryOptimizer.VisitXqJoin | src/main/java/edu/ucsd/cse232b/jsidrach/xquery/XQueryOptimizer.java:224-247 | the join layout |
| Printer.XQueryOptimizer.VisitJoinOperand | src/main/java/edu/ucsd/cse232b/jsidrach/xquery/XQueryOptimizer.java:226-234 | one join operand one level deeper, followed by a comma |
| Printer.XQueryOptimizer.VisitXqLet | src/main/java/edu/ucsd/cse232b/jsidrach/xquery/XQueryOptimizer.java:256-262 | the `let` clause, then the body |
| Printer.XQueryOptimizer.VisitXqFLWR | src/main/java/edu/ucsd/cse232b/jsidrach/xquery/XQueryOptimizer.java:274-284 | the four clauses in order |
| Printer.XQueryOptimizer.VisitForClause | src/main/java/edu/ucsd/cse232b/jsidrach/xquery/XQueryOptimizer.java:298-313 | the `for` clause |
| Printer.XQueryOptimizer.VisitLetClause | src/main/java/edu/ucsd/cse232b/jsidrach/xquery/XQueryOptimizer.java:323-338 | the `let` clause |
| Printer.XQueryOptimizer.VisitClause | src/main/java/edu/ucsd/cse232b/jsidrach/xquery/XQueryOptimizer.java:298-313 | the loop over the bindings |
| Printer.XQueryOptimizer.VisitBinding | src/main/java/edu/ucsd/cse232b/jsidrach/xquery/XQueryOptimizer.java:302-311 | one binding, with a comma unless it is the last |
| Printer.XQueryOptimizer.VisitWhereClause | src/main/java/edu/ucsd/cse232b/jsidrach/xquery/XQueryOptimizer.java:348-354 | the `where` clause |
| Printer.XQueryOptimizer.VisitReturnClause | src/main/java/edu/ucsd/cse232b/jsidrach/xquery/XQueryOptimizer.java:364-370 | the `return` clause |
| Printer.XQueryOptimizer.VisitTagList | src/main/java/edu/ucsd/cse232b/jsidrach/xquery/XQueryOptimizer.java:383-394 | `[a, b, …]` on its own line |
| Printer.XQueryOptimizer.VisitCond | src/main/java/edu/ucsd/cse232b/jsidrach/xquery/XQueryOptimizer.java:407-528 | every condition visit leaves the buffer equal to the transformer's result, `and` printed with the keyword `or` as written |
| Printer.XQueryOptimizer.VisitCondEmpty | src/main/java/edu/ucsd/cse232b/jsidrach/xquery/XQueryOptimizer.java:435-443 | `empty(` … `)` |
| Printer.XQueryOptimizer.VisitCondSome | src/main/java/edu/ucsd/cse232b/jsidrach/xquery/XQueryOptimizer.java:452-471 | the `some` clause and `satisfies` |
| Printer.XQueryOptimizer.VisitCondParentheses | src/main/java/edu/ucsd/cse232b/jsidrach/xquery/XQueryOptimizer.java:480-487 | parentheses around the condition |
| Printer.XQueryOptimizer.VisitCondAnd | src/main/java/edu/ucsd/cse232b/jsidrach/xquery/XQueryOptimizer.java:496-501 | the `and` rule as written: the keyword line reads `or` |
| Printer.XQueryOptimizer.VisitCondOr | src/main/java/edu/ucsd/cse232b/jsidrach/xquery/XQueryOptimizer.java:510-515 | the `or` rule |
| Printer.XQueryOptimizer.VisitAp | src/main/java/edu/ucsd/cse232b/jsidrach/xquery/XQueryOptimizer.java:541-572 | the absolute path appended inline |
| Printer.XQueryOptimizer.VisitRp | src/main/java/edu/ucsd/cse232b/jsidrach/xquery/XQueryOptimizer.java:585-721 | the relative path appended inline |
| Printer.XQueryOptimizer.VisitF | src/main/java/edu/ucsd/cse232b/jsidrach/xquery/XQueryOptimizer.java:734-820 | the filter appended inline |

## Left out

- Loading a document from a file and parsing it: the loaded documents are the map `roots` of the model. Exceptions while loading give an empty root list.
- Value equality of nodes (`existsEqual`, `isEqualNode`) is a parameter of the model. `existsSame` is identity of `NodeId`s.
- The node serializer of the join keys is a parameter. The exceptions `keyNodeTags` swallows while serializing are not modelled.
- Construct.XQueryEvaluator.MakeElem: `importNode` is modelled as a shallow copy (kind, name, text). The copy's own children and attributes are not copied, and the replacement rules of `setAttributeNode` beyond "the last attribute of a name wins" are not modelled.
- The XQuery evaluator (FLWR, `some`, `join` evaluation) and the base serializer's default text. The source of neither is shown. Renamer.VarsRenamer therefore renames AST to AST, and its clause text takes the serializer as a parameter `show`.
- The join-rewriting optimizer (src/main/java/edu/ucsd/cse232b/jsidrach/xquery/optimizer/XQueryOptimizer.java:23) is an empty stub.
- Renamer.VarsRenamer.NextVarName: the counter is unbounded; Java's `int` wrap-around after 2^31 names is not modelled.
- Formatter idempotence (formatting the parsed formatted text gives the same text) needs the parser, which is not part of this model.
- Formatter.XQueryFormatter: the Java methods return strings built in local variables. The class builds the same strings in the same order, under the rules as written, and tracks `level` and `extraSpaces` as class fields.
- Formatter.XqEndsLine and Formatter.CondEndsLine are proved for the corrected rules only; as written, an inline tag and condition parentheses leave their line open (see Findings). They assume that variables and constants are tokens: non-empty, starting with a visible character (the lexer guarantees this).
- `System.lineSeparator()` is taken to be a line feed.
- Construct.XQueryEvaluator.constructor: one store holds the nodes of every document, so the evaluator's new document (`newDocument`) is not a separate store; the constructor takes the store of the loaded documents.
- The ANTLR parse trees, command-line front ends, JUnit test classes and `System.err` diagnostics.
- The reference description of the `..` step speaks of distinct parents. The code concatenates parents without deduplication, and the model follows the code.

## Findings

| source | as written | input that shows it | evidently intended | confidence | as-written member | corrected member |
|---|---|---|---|---|---|---|
| src/main/java/edu/ucsd/cse232b/jsidrach/xquery/XQueryOptimizer.java:496-501 | the `and` rule prints the keyword `or` | `where empty($a) and empty($b)` prints `empty($a)` / `or` / `empty($b)` | keyword `and`, as the rule's doc comment at line 490 says (`PrintCondAndCorrected`) | high, not executed | Printer.AndPrintedAsOr | Printer.AndOrDistinct |
| src/main/java/edu/ucsd/cse232b/jsidrach/xquery/optimizer/XQueryFormatter.java:508-516 | condition parentheses end with `)` but no line separator | the top-level `for $a in $d where (empty($a)) return $a` prints `where (empty($a))return $a` on one line | like every other rule, end the line after `)` (`Rules.Corrected`) | high, not executed | Formatter.ParenthesesAsWrittenLeaveLineOpen | Formatter.CondEndsLine |
| src/main/java/edu/ucsd/cse232b/jsidrach/xquery/optimizer/XQueryFormatter.java:207-211 | an inline tag appends `lTrim(endTag)`, the bare closing text, which has no line end | the top-level `for $x in $d where $x = <a>{$y}</a> return $x` prints `where $x = <a>{$y}</a>return $x` on one line | left-trim the closing `line(endTag)`, so that the tag ends its line as the multi-line layout does (`Rules.Corrected`) | high, not executed | Formatter.TagAsWrittenLeavesLineOpen | Formatter.TagLayout |
