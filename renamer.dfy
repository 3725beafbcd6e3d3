/** Alpha-renaming of XQuery variables. Every binder (`for`, `let`, `some`)
    receives a fresh name `$v1`, `$v2`, ... from a counter, in the order the
    binders are met; a variable reference is replaced by the fresh name of
    the binding in scope, or by `$Undefined` when none is.

    The pure functions `RenameXq`, `RenameCond` and `RenameBindings` state
    the renaming; the class `VarsRenamer` computes it with a mutable scope
    map `vars` and a mutable counter `varNum`, and is proved equal to them.
    The renamer returns the renamed syntax tree; the printed query is the
    serializer's rendering of that tree, except for the clause texts, which
    the renamer builds itself and which are modelled here. */
module Renamer {
  import opened Wrappers
  import opened Seqs
  import opened Text
  import opened Ast

  type Scope = map<string, string>

  const Undefined: string := "$Undefined"

  /** The name handed out when the counter has reached `k`. */
  function VarName(k: nat): (r: string)
    ensures |r| >= 3 && r[..2] == "$v"
  {
    "$v" + NatToString(k)
  }

  /** The renamed name of `x` in scope `vars`. */
  function Lookup(vars: Scope, x: string): string
  {
    if x in vars then vars[x] else Undefined
  }

  /* ------------------------------------------------------------ renaming */

  /** Renames `e` in scope `vars` with the counter at `n`; gives the renamed
      expression and the counter afterwards. */
  function RenameXq(e: Xq, vars: Scope, n: nat): (Xq, nat)
    decreases e
  {
    match e
    case XqVariable(x) => (XqVariable(Lookup(vars, x)), n)
    case XqConstant(_) => (e, n)
    case XqAbsolutePath(_) => (e, n)
    case XqParentheses(a) =>
      var ra := RenameXq(a, vars, n);
      (XqParentheses(ra.0), ra.1)
    case XqPair(a, b) =>
      var ra := RenameXq(a, vars, n);
      var rb := RenameXq(b, vars, ra.1);
      (XqPair(ra.0, rb.0), rb.1)
    case XqChildren(a, rp) =>
      var ra := RenameXq(a, vars, n);
      (XqChildren(ra.0, rp), ra.1)
    case XqAll(a, rp) =>
      var ra := RenameXq(a, vars, n);
      (XqAll(ra.0, rp), ra.1)
    case XqTag(o, a, c) =>
      var ra := RenameXq(a, vars, n);
      (XqTag(o, ra.0, c), ra.1)
    case XqJoin(a, b, lt, rt) =>
      var ra := RenameXq(a, vars, n);
      var rb := RenameXq(b, vars, ra.1);
      (XqJoin(ra.0, rb.0, lt, rt), rb.1)
    case XqLet(bs, body) =>
      var rs := RenameBindings(bs, vars, n);
      var rbody := RenameXq(body, rs.1, rs.2);
      (XqLet(rs.0, rbody.0), rbody.1)
    case XqFLWR(fs, ls, w, ret) =>
      var rf := RenameBindings(fs, vars, n);
      var rl := RenameBindings(ls, rf.1, rf.2);
      var rw := RenameWhere(w, rl.1, rl.2);
      var rr := RenameXq(ret, rl.1, rw.1);
      (XqFLWR(rf.0, rl.0, rw.0, rr.0), rr.1)
  }

  /** The optional `where` clause of a FLWR expression. */
  function RenameWhere(w: Option<Cond>, vars: Scope, n: nat): (Option<Cond>, nat)
    decreases w
  {
    match w
    case None => (None, n)
    case Some(c) =>
      var rc := RenameCond(c, vars, n);
      (Some(rc.0), rc.1)
  }

  function RenameCond(c: Cond, vars: Scope, n: nat): (Cond, nat)
    decreases c
  {
    match c
    case CondValueEquality(a, b) =>
      var ra := RenameXq(a, vars, n);
      var rb := RenameXq(b, vars, ra.1);
      (CondValueEquality(ra.0, rb.0), rb.1)
    case CondIdentityEquality(a, b) =>
      var ra := RenameXq(a, vars, n);
      var rb := RenameXq(b, vars, ra.1);
      (CondIdentityEquality(ra.0, rb.0), rb.1)
    case CondEmpty(a) =>
      var ra := RenameXq(a, vars, n);
      (CondEmpty(ra.0), ra.1)
    case CondSome(bs, body) =>
      var rs := RenameBindings(bs, vars, n);
      var rbody := RenameCond(body, rs.1, rs.2);
      (CondSome(rs.0, rbody.0), rbody.1)
    case CondParentheses(a) =>
      var ra := RenameCond(a, vars, n);
      (CondParentheses(ra.0), ra.1)
    case CondAnd(a, b) =>
      var ra := RenameCond(a, vars, n);
      var rb := RenameCond(b, vars, ra.1);
      (CondAnd(ra.0, rb.0), rb.1)
    case CondOr(a, b) =>
      var ra := RenameCond(a, vars, n);
      var rb := RenameCond(b, vars, ra.1);
      (CondOr(ra.0, rb.0), rb.1)
    case CondNot(a) =>
      var ra := RenameCond(a, vars, n);
      (CondNot(ra.0), ra.1)
  }

  /** The bindings of one clause, left to right: the last binding takes the
      next name, its source is renamed in the scope left by the earlier
      bindings, and only then is its variable bound. Gives the renamed
      bindings, the scope afterwards and the counter afterwards. */
  function RenameBindings(bs: seq<Binding>, vars: Scope, n: nat): (seq<Binding>, Scope, nat)
    decreases bs
  {
    if bs == [] then ([], vars, n)
    else
      var pre := RenameBindings(bs[..|bs| - 1], vars, n);
      var b := bs[|bs| - 1];
      var src := RenameXq(b.source, pre.1, pre.2 + 1);
      (pre.0 + [Binding(VarName(pre.2 + 1), src.0)], pre.1[b.variable := VarName(pre.2 + 1)], src.1)
  }

  /** The renaming a fresh renamer produces. */
  function Renamed(e: Xq): Xq
  {
    RenameXq(e, map[], 0).0
  }

  /* --------------------------------------------------------- clause text */

  /** `v + sep + xq` for every binding, where `xq` is the printed source. */
  function BindingTexts(bs: seq<Binding>, sep: string, show: Xq -> string): seq<string>
  {
    if bs == [] then []
    else
      var b := bs[|bs| - 1];
      BindingTexts(bs[..|bs| - 1], sep, show) + [b.variable + sep + show(b.source)]
  }

  /** The text of a clause: the keyword, then the bindings separated by commas. */
  function ClauseText(keyword: string, bs: seq<Binding>, sep: string, show: Xq -> string): string
  {
    keyword + Join(BindingTexts(bs, sep, show), ",")
  }

  /** Renaming one more binding extends the result of the shorter prefix. */
  lemma RenameBindingsStep(bs: seq<Binding>, vars: Scope, n: nat, i: nat)
    requires i < |bs|
    ensures var pre := RenameBindings(bs[..i], vars, n);
      var src := RenameXq(bs[i].source, pre.1, pre.2 + 1);
      RenameBindings(bs[..i + 1], vars, n)
        == (pre.0 + [Binding(VarName(pre.2 + 1), src.0)], pre.1[bs[i].variable := VarName(pre.2 + 1)], src.1)
  {
    assert bs[..i + 1][..i] == bs[..i];
  }

  /** Appending one binding to a clause adds a comma, unless it is the first. */
  lemma TextsStep(rs: seq<Binding>, b: Binding, sep: string, show: Xq -> string)
    ensures Join(BindingTexts(rs + [b], sep, show), ",")
         == (if rs == [] then "" else Join(BindingTexts(rs, sep, show), ",") + ",")
            + (b.variable + sep + show(b.source))
  {
    var item := b.variable + sep + show(b.source);
    assert (rs + [b])[..|rs + [b]| - 1] == rs;
    assert BindingTexts(rs + [b], sep, show) == BindingTexts(rs, sep, show) + [item];
    if rs != [] {
      BindingTextsNonEmpty(rs, sep, show);
      JoinConcat(BindingTexts(rs, sep, show), [item], ",");
    }
  }

  lemma BindingTextsNonEmpty(rs: seq<Binding>, sep: string, show: Xq -> string)
    requires rs != []
    ensures BindingTexts(rs, sep, show) != []
  {
  }

  /* ------------------------------------------------------ binder names */

  /** The names `$v(a+1)`, ..., `$v(b)`. */
  function VarNames(a: nat, b: nat): seq<string>
    decreases b
  {
    if b <= a then [] else VarNames(a, b - 1) + [VarName(b)]
  }

  lemma {:induction false} VarNamesAt(a: nat, b: nat)
    requires a <= b
    ensures |VarNames(a, b)| == b - a
    ensures forall i :: 0 <= i < b - a ==> VarNames(a, b)[i] == VarName(a + 1 + i)
    decreases b
  {
    if a < b {
      VarNamesAt(a, b - 1);
    }
  }

  /** The binder names of an expression in the order they are met: each
      binding's variable comes before the binders of its source. */
  function BindersXq(e: Xq): seq<string>
    decreases e
  {
    match e
    case XqVariable(_) => []
    case XqConstant(_) => []
    case XqAbsolutePath(_) => []
    case XqParentheses(a) => BindersXq(a)
    case XqPair(a, b) => BindersXq(a) + BindersXq(b)
    case XqChildren(a, _) => BindersXq(a)
    case XqAll(a, _) => BindersXq(a)
    case XqTag(_, a, _) => BindersXq(a)
    case XqJoin(a, b, _, _) => BindersXq(a) + BindersXq(b)
    case XqLet(bs, body) => BindersOf(bs) + BindersXq(body)
    case XqFLWR(fs, ls, w, ret) =>
      BindersOf(fs) + BindersOf(ls) + BindersWhere(w) + BindersXq(ret)
  }

  function BindersWhere(w: Option<Cond>): seq<string>
    decreases w
  {
    match w
    case None => []
    case Some(c) => BindersCond(c)
  }

  function BindersCond(c: Cond): seq<string>
    decreases c
  {
    match c
    case CondValueEquality(a, b) => BindersXq(a) + BindersXq(b)
    case CondIdentityEquality(a, b) => BindersXq(a) + BindersXq(b)
    case CondEmpty(a) => BindersXq(a)
    case CondSome(bs, body) => BindersOf(bs) + BindersCond(body)
    case CondParentheses(a) => BindersCond(a)
    case CondAnd(a, b) => BindersCond(a) + BindersCond(b)
    case CondOr(a, b) => BindersCond(a) + BindersCond(b)
    case CondNot(a) => BindersCond(a)
  }

  function BindersOf(bs: seq<Binding>): seq<string>
    decreases bs
  {
    if bs == [] then []
    else
      var b := bs[|bs| - 1];
      BindersOf(bs[..|bs| - 1]) + [b.variable] + BindersXq(b.source)
  }

  /* ------------------------------------------------------------ lemmas */

  /** Successive counter values give different names, none of them `$Undefined`. */
  lemma VarNameInjective(a: nat, b: nat)
    ensures VarName(a) == VarName(b) <==> a == b
    ensures VarName(a) != Undefined
  {
    assert VarName(a)[1] == 'v';
    if VarName(a) == VarName(b) {
      assert VarName(a)[2..] == NatToString(a);
      assert VarName(b)[2..] == NatToString(b);
      NatToStringInjective(a, b);
    }
  }

  lemma {:induction false} VarNamesConcat(a: nat, b: nat, c: nat)
    requires a <= b <= c
    ensures VarNames(a, b) + VarNames(b, c) == VarNames(a, c)
    decreases c
  {
    if b < c {
      VarNamesConcat(a, b, c - 1);
    }
  }

  lemma VarNamesSplit(a: nat, b: nat, c: nat)
    requires a <= b < c
    ensures VarNames(a, c) == VarNames(a, b) + [VarName(b + 1)] + VarNames(b + 1, c)
  {
    assert VarNames(b, b + 1) == [VarName(b + 1)];
    VarNamesConcat(b, b + 1, c);
    VarNamesConcat(a, b, c);
  }

  /** The names handed out between two counter values are pairwise distinct. */
  lemma VarNamesNoDup(a: nat, b: nat)
    ensures NoDup(VarNames(a, b))
  {
    if a <= b {
      VarNamesAt(a, b);
    }
    var r := VarNames(a, b);
    forall i, j | 0 <= i < j < |r|
      ensures r[i] != r[j]
    {
      VarNameInjective(a + 1 + i, a + 1 + j);
    }
  }

  /** Renaming gives the binders, in the order they are met, the names
      `$v(n+1)` up to `$v(n')`, where `n'` is the counter afterwards. */
  lemma {:induction false} BindersRenamedXq(e: Xq, vars: Scope, n: nat)
    ensures n <= RenameXq(e, vars, n).1
    ensures BindersXq(RenameXq(e, vars, n).0) == VarNames(n, RenameXq(e, vars, n).1)
    decreases e, 1
  {
    match e
    case XqVariable(_) =>
    case XqConstant(_) =>
    case XqAbsolutePath(_) =>
    case XqParentheses(a) => BindersRenamedXq(a, vars, n);
    case XqPair(_, _) => BindersRenamedTwo(e, vars, n);
    case XqChildren(a, _) => BindersRenamedXq(a, vars, n);
    case XqAll(a, _) => BindersRenamedXq(a, vars, n);
    case XqTag(_, a, _) => BindersRenamedXq(a, vars, n);
    case XqJoin(_, _, _, _) => BindersRenamedTwo(e, vars, n);
    case XqLet(_, _) => BindersRenamedLet(e, vars, n);
    case XqFLWR(_, _, _, _) => BindersRenamedFLWR(e, vars, n);
  }

  lemma {:induction false} BindersRenamedTwo(e: Xq, vars: Scope, n: nat)
    requires e.XqPair? || e.XqJoin?
    ensures n <= RenameXq(e, vars, n).1
    ensures BindersXq(RenameXq(e, vars, n).0) == VarNames(n, RenameXq(e, vars, n).1)
    decreases e, 0
  {
    var ra := RenameXq(e.left, vars, n);
    var rb := RenameXq(e.right, vars, ra.1);
    BindersRenamedXq(e.left, vars, n);
    BindersRenamedXq(e.right, vars, ra.1);
    VarNamesConcat(n, ra.1, rb.1);
  }

  lemma {:induction false} BindersRenamedLet(e: Xq, vars: Scope, n: nat)
    requires e.XqLet?
    ensures n <= RenameXq(e, vars, n).1
    ensures BindersXq(RenameXq(e, vars, n).0) == VarNames(n, RenameXq(e, vars, n).1)
    decreases e, 0
  {
    var rs := RenameBindings(e.bindings, vars, n);
    var rb := RenameXq(e.body, rs.1, rs.2);
    BindersRenamedBindings(e.bindings, vars, n);
    BindersRenamedXq(e.body, rs.1, rs.2);
    VarNamesConcat(n, rs.2, rb.1);
  }

  lemma {:induction false} BindersRenamedFLWR(e: Xq, vars: Scope, n: nat)
    requires e.XqFLWR?
    ensures n <= RenameXq(e, vars, n).1
    ensures BindersXq(RenameXq(e, vars, n).0) == VarNames(n, RenameXq(e, vars, n).1)
    decreases e, 0
  {
    var rf := RenameBindings(e.forBindings, vars, n);
    var rl := RenameBindings(e.letBindings, rf.1, rf.2);
    var rw := RenameWhere(e.where, rl.1, rl.2);
    var rr := RenameXq(e.ret, rl.1, rw.1);
    assert RenameXq(e, vars, n) == (XqFLWR(rf.0, rl.0, rw.0, rr.0), rr.1);
    BindersRenamedBindings(e.forBindings, vars, n);
    BindersRenamedBindings(e.letBindings, rf.1, rf.2);
    BindersRenamedWhere(e.where, rl.1, rl.2);
    BindersRenamedXq(e.ret, rl.1, rw.1);
    VarNamesConcat(n, rf.2, rl.2);
    VarNamesConcat(n, rl.2, rw.1);
    VarNamesConcat(n, rw.1, rr.1);
  }

  lemma {:induction false} BindersRenamedWhere(w: Option<Cond>, vars: Scope, n: nat)
    ensures n <= RenameWhere(w, vars, n).1
    ensures BindersWhere(RenameWhere(w, vars, n).0) == VarNames(n, RenameWhere(w, vars, n).1)
    decreases w
  {
    match w
    case None =>
    case Some(c) => BindersRenamedCond(c, vars, n);
  }

  lemma {:induction false} BindersRenamedCond(c: Cond, vars: Scope, n: nat)
    ensures n <= RenameCond(c, vars, n).1
    ensures BindersCond(RenameCond(c, vars, n).0) == VarNames(n, RenameCond(c, vars, n).1)
    decreases c, 1
  {
    match c
    case CondValueEquality(_, _) => BindersRenamedComparison(c, vars, n);
    case CondIdentityEquality(_, _) => BindersRenamedComparison(c, vars, n);
    case CondEmpty(a) => BindersRenamedXq(a, vars, n);
    case CondSome(_, _) => BindersRenamedSome(c, vars, n);
    case CondParentheses(a) => BindersRenamedCond(a, vars, n);
    case CondAnd(_, _) => BindersRenamedConnective(c, vars, n);
    case CondOr(_, _) => BindersRenamedConnective(c, vars, n);
    case CondNot(a) => BindersRenamedCond(a, vars, n);
  }

  lemma {:induction false} BindersRenamedComparison(c: Cond, vars: Scope, n: nat)
    requires c.CondValueEquality? || c.CondIdentityEquality?
    ensures n <= RenameCond(c, vars, n).1
    ensures BindersCond(RenameCond(c, vars, n).0) == VarNames(n, RenameCond(c, vars, n).1)
    decreases c, 0
  {
    var ra := RenameXq(c.lhs, vars, n);
    BindersRenamedXq(c.lhs, vars, n);
    BindersRenamedXq(c.rhs, vars, ra.1);
    VarNamesConcat(n, ra.1, RenameXq(c.rhs, vars, ra.1).1);
  }

  lemma {:induction false} BindersRenamedSome(c: Cond, vars: Scope, n: nat)
    requires c.CondSome?
    ensures n <= RenameCond(c, vars, n).1
    ensures BindersCond(RenameCond(c, vars, n).0) == VarNames(n, RenameCond(c, vars, n).1)
    decreases c, 0
  {
    var rs := RenameBindings(c.bindings, vars, n);
    BindersRenamedBindings(c.bindings, vars, n);
    BindersRenamedCond(c.cond, rs.1, rs.2);
    VarNamesConcat(n, rs.2, RenameCond(c.cond, rs.1, rs.2).1);
  }

  lemma {:induction false} BindersRenamedConnective(c: Cond, vars: Scope, n: nat)
    requires c.CondAnd? || c.CondOr?
    ensures n <= RenameCond(c, vars, n).1
    ensures BindersCond(RenameCond(c, vars, n).0) == VarNames(n, RenameCond(c, vars, n).1)
    decreases c, 0
  {
    var ra := RenameCond(c.left, vars, n);
    BindersRenamedCond(c.left, vars, n);
    BindersRenamedCond(c.right, vars, ra.1);
    VarNamesConcat(n, ra.1, RenameCond(c.right, vars, ra.1).1);
  }

  lemma {:induction false} BindersRenamedBindings(bs: seq<Binding>, vars: Scope, n: nat)
    ensures n <= RenameBindings(bs, vars, n).2
    ensures BindersOf(RenameBindings(bs, vars, n).0) == VarNames(n, RenameBindings(bs, vars, n).2)
    decreases bs
  {
    if bs != [] {
      var init := bs[..|bs| - 1];
      var pre := RenameBindings(init, vars, n);
      var b := bs[|bs| - 1];
      var src := RenameXq(b.source, pre.1, pre.2 + 1);
      var out := pre.0 + [Binding(VarName(pre.2 + 1), src.0)];
      assert RenameBindings(bs, vars, n) == (out, pre.1[b.variable := VarName(pre.2 + 1)], src.1);
      BindersRenamedBindings(init, vars, n);
      BindersRenamedXq(b.source, pre.1, pre.2 + 1);
      assert out[..|out| - 1] == pre.0;
      assert BindersOf(out) == BindersOf(pre.0) + [VarName(pre.2 + 1)] + BindersXq(src.0);
      VarNamesSplit(n, pre.2, src.1);
    }
  }

  /** The binders of a renamed query have pairwise distinct names, and there
      are as many as the counter advanced. */
  lemma BindersDistinct(e: Xq)
    ensures NoDup(BindersXq(Renamed(e)))
    ensures |BindersXq(Renamed(e))| == RenameXq(e, map[], 0).1
  {
    BindersRenamedXq(e, map[], 0);
    VarNamesAt(0, RenameXq(e, map[], 0).1);
    VarNamesNoDup(0, RenameXq(e, map[], 0).1);
  }

  /* ---------------------------------------------------------- idempotence */

  /** Renaming again in scope `again` leaves every name that renaming in
      scope `vars` produces as it is. */
  ghost predicate Stable(vars: Scope, again: Scope)
  {
    forall x :: Lookup(again, Lookup(vars, x)) == Lookup(vars, x)
  }

  lemma StableBind(vars: Scope, again: Scope, x: string, v: string)
    requires Stable(vars, again)
    ensures Stable(vars[x := v], again[v := v])
  {
    var vars', again' := vars[x := v], again[v := v];
    forall y
      ensures Lookup(again', Lookup(vars', y)) == Lookup(vars', y)
    {
      if y != x {
        assert Lookup(vars', y) == Lookup(vars, y);
      }
    }
  }

  lemma {:induction false} IdempotentXq(e: Xq, vars: Scope, again: Scope, n: nat)
    requires Stable(vars, again)
    ensures RenameXq(RenameXq(e, vars, n).0, again, n) == RenameXq(e, vars, n)
    decreases e, 1
  {
    match e
    case XqVariable(x) =>
    case XqConstant(_) =>
    case XqAbsolutePath(_) =>
    case XqParentheses(a) => IdempotentXq(a, vars, again, n);
    case XqPair(a, b) =>
      IdempotentXq(a, vars, again, n);
      IdempotentXq(b, vars, again, RenameXq(a, vars, n).1);
    case XqChildren(a, _) => IdempotentXq(a, vars, again, n);
    case XqAll(a, _) => IdempotentXq(a, vars, again, n);
    case XqTag(_, a, _) => IdempotentXq(a, vars, again, n);
    case XqJoin(a, b, _, _) =>
      IdempotentXq(a, vars, again, n);
      IdempotentXq(b, vars, again, RenameXq(a, vars, n).1);
    case XqLet(bs, body) =>
      var rs := RenameBindings(bs, vars, n);
      IdempotentBindings(bs, vars, again, n);
      IdempotentXq(body, rs.1, RenameBindings(rs.0, again, n).1, rs.2);
    case XqFLWR(_, _, _, _) => IdempotentFLWR(e, vars, again, n);
  }

  lemma {:induction false} IdempotentFLWR(e: Xq, vars: Scope, again: Scope, n: nat)
    requires e.XqFLWR? && Stable(vars, again)
    ensures RenameXq(RenameXq(e, vars, n).0, again, n) == RenameXq(e, vars, n)
    decreases e, 0
  {
    var rf := RenameBindings(e.forBindings, vars, n);
    IdempotentBindings(e.forBindings, vars, again, n);
    var af := RenameBindings(rf.0, again, n).1;
    var rl := RenameBindings(e.letBindings, rf.1, rf.2);
    IdempotentBindings(e.letBindings, rf.1, af, rf.2);
    var al := RenameBindings(rl.0, af, rf.2).1;
    var rw := RenameWhere(e.where, rl.1, rl.2);
    IdempotentWhere(e.where, rl.1, al, rl.2);
    var rr := RenameXq(e.ret, rl.1, rw.1);
    IdempotentXq(e.ret, rl.1, al, rw.1);
    assert RenameXq(e, vars, n) == (XqFLWR(rf.0, rl.0, rw.0, rr.0), rr.1);
  }

  lemma {:induction false} IdempotentWhere(w: Option<Cond>, vars: Scope, again: Scope, n: nat)
    requires Stable(vars, again)
    ensures RenameWhere(RenameWhere(w, vars, n).0, again, n) == RenameWhere(w, vars, n)
    decreases w
  {
    match w
    case None =>
    case Some(c) => IdempotentCond(c, vars, again, n);
  }

  lemma {:induction false} IdempotentCond(c: Cond, vars: Scope, again: Scope, n: nat)
    requires Stable(vars, again)
    ensures RenameCond(RenameCond(c, vars, n).0, again, n) == RenameCond(c, vars, n)
    decreases c
  {
    match c
    case CondValueEquality(a, b) =>
      IdempotentXq(a, vars, again, n);
      IdempotentXq(b, vars, again, RenameXq(a, vars, n).1);
    case CondIdentityEquality(a, b) =>
      IdempotentXq(a, vars, again, n);
      IdempotentXq(b, vars, again, RenameXq(a, vars, n).1);
    case CondEmpty(a) => IdempotentXq(a, vars, again, n);
    case CondSome(bs, body) =>
      var rs := RenameBindings(bs, vars, n);
      IdempotentBindings(bs, vars, again, n);
      IdempotentCond(body, rs.1, RenameBindings(rs.0, again, n).1, rs.2);
    case CondParentheses(a) => IdempotentCond(a, vars, again, n);
    case CondAnd(a, b) =>
      IdempotentCond(a, vars, again, n);
      IdempotentCond(b, vars, again, RenameCond(a, vars, n).1);
    case CondOr(a, b) =>
      IdempotentCond(a, vars, again, n);
      IdempotentCond(b, vars, again, RenameCond(a, vars, n).1);
    case CondNot(a) => IdempotentCond(a, vars, again, n);
  }

  lemma {:induction false} IdempotentBindings(bs: seq<Binding>, vars: Scope, again: Scope, n: nat)
    requires Stable(vars, again)
    ensures var r := RenameBindings(bs, vars, n);
      var r2 := RenameBindings(r.0, again, n);
      r2.0 == r.0 && r2.2 == r.2 && Stable(r.1, r2.1)
    decreases bs
  {
    if bs != [] {
      var init := bs[..|bs| - 1];
      var pre := RenameBindings(init, vars, n);
      var b := bs[|bs| - 1];
      var v := VarName(pre.2 + 1);
      var src := RenameXq(b.source, pre.1, pre.2 + 1);
      var out := pre.0 + [Binding(v, src.0)];
      assert RenameBindings(bs, vars, n) == (out, pre.1[b.variable := v], src.1);
      IdempotentBindings(init, vars, again, n);
      var pre2 := RenameBindings(pre.0, again, n);
      assert out[..|out| - 1] == pre.0;
      IdempotentXq(b.source, pre.1, pre2.1, pre.2 + 1);
      StableBind(pre.1, pre2.1, b.variable, v);
    }
  }

  /** Renaming a renamed query again yields the identical query. */
  lemma RenameIdempotent(e: Xq)
    ensures Renamed(Renamed(e)) == Renamed(e)
  {
    assert Stable(map[], map[]);
    IdempotentXq(e, map[], map[], 0);
  }

  /* ------------------------------------------------------------- scoping */

  /** Renaming a prefix of the bindings gives a prefix of the result. */
  lemma {:induction false} RenameBindingsPrefix(bs: seq<Binding>, vars: Scope, n: nat, i: nat)
    requires i <= |bs|
    ensures |RenameBindings(bs, vars, n).0| == |bs|
    ensures RenameBindings(bs, vars, n).0[..i] == RenameBindings(bs[..i], vars, n).0
    decreases bs
  {
    if bs != [] {
      var init := bs[..|bs| - 1];
      RenameBindingsPrefix(init, vars, n, if i < |bs| then i else |init|);
      if i == |bs| {
        assert bs[..i] == bs;
      } else {
        assert init[..i] == bs[..i];
      }
    }
  }

  /** Binding `i` takes the next name after the first `i` bindings, and its
      source is renamed in the scope those bindings leave: the outer scope
      extended by bindings `0..i-1`, without binding `i` itself. */
  lemma BindingScope(bs: seq<Binding>, vars: Scope, n: nat, i: nat)
    requires i < |bs|
    ensures var pre := RenameBindings(bs[..i], vars, n);
      |RenameBindings(bs, vars, n).0| == |bs| &&
      RenameBindings(bs, vars, n).0[i]
        == Binding(VarName(pre.2 + 1), RenameXq(bs[i].source, pre.1, pre.2 + 1).0)
  {
    var p := bs[..i + 1];
    assert p[..i] == bs[..i];
    assert p[i] == bs[i];
    RenameBindingsPrefix(bs, vars, n, i + 1);
    RenameBindingsPrefix(bs[..i], vars, n, i);
    var pre := RenameBindings(bs[..i], vars, n);
    var b := Binding(VarName(pre.2 + 1), RenameXq(bs[i].source, pre.1, pre.2 + 1).0);
    assert RenameBindings(p, vars, n).0 == pre.0 + [b];
    assert RenameBindings(bs, vars, n).0[..i + 1][i] == b;
  }

  /** `for $x in $x` outside any binding of `$x`: the source refers to
      nothing, because `$x` is bound only after its source is renamed. */
  lemma SelfReferenceUndefined(x: string)
    ensures RenameBindings([Binding(x, XqVariable(x))], map[], 0).0
         == [Binding(VarName(1), XqVariable(Undefined))]
  {
    assert [Binding(x, XqVariable(x))][..0] == [];
  }

  /* =============================================================== class */

  /** The renamer: the scope map `vars` and the counter `varNum`, with the
      serializer's rendering of expressions and conditions as `show` and
      `showCond`. */
  class VarsRenamer {
    var vars: Scope
    var varNum: nat
    const show: Xq -> string
    const showCond: Cond -> string

    constructor(show: Xq -> string, showCond: Cond -> string)
      ensures vars == map[] && varNum == 0
      ensures this.show == show && this.showCond == showCond
    {
      vars := map[];
      varNum := 0;
      this.show := show;
      this.showCond := showCond;
    }

    /** Advances the counter by one and returns the name for its new value. */
    method NextVarName() returns (v: string)
      modifies this
      ensures varNum == old(varNum) + 1 && vars == old(vars)
      ensures v == VarName(varNum)
    {
      varNum := varNum + 1;
      v := "$v" + NatToString(varNum);
    }

    /** The name `x` is renamed to: its binding in scope, or `$Undefined`. */
    method GetVarName(x: string) returns (v: string)
      ensures x in vars ==> v == vars[x]
      ensures x !in vars ==> v == Undefined
    {
      v := if x in vars then vars[x] else Undefined;
    }

    method VisitXq(e: Xq) returns (r: Xq)
      modifies this
      ensures (r, varNum) == RenameXq(e, old(vars), old(varNum))
      ensures vars == old(vars)
      decreases e, 2
    {
      match e
      case XqVariable(_) => r := VisitXqVariable(e);
      case XqConstant(_) => r := e;
      case XqAbsolutePath(_) => r := e;
      case XqParentheses(a) =>
        var ra := VisitXq(a);
        r := XqParentheses(ra);
      case XqPair(a, b) =>
        var ra := VisitXq(a);
        var rb := VisitXq(b);
        r := XqPair(ra, rb);
      case XqChildren(a, rp) =>
        var ra := VisitXq(a);
        r := XqChildren(ra, rp);
      case XqAll(a, rp) =>
        var ra := VisitXq(a);
        r := XqAll(ra, rp);
      case XqTag(o, a, c) =>
        var ra := VisitXq(a);
        r := XqTag(o, ra, c);
      case XqJoin(a, b, lt, rt) =>
        var ra := VisitXq(a);
        var rb := VisitXq(b);
        r := XqJoin(ra, rb, lt, rt);
      case XqLet(_, _) => r := VisitXqLet(e);
      case XqFLWR(_, _, _, _) => r := VisitXqFLWR(e);
    }

    method VisitXqVariable(e: Xq) returns (r: Xq)
      requires e.XqVariable?
      ensures r == XqVariable(Lookup(vars, e.name))
    {
      var v := GetVarName(e.name);
      r := XqVariable(v);
    }

    /** `let` bindings, then the body; the scope on entry is restored. */
    method VisitXqLet(e: Xq) returns (r: Xq)
      requires e.XqLet?
      modifies this
      ensures (r, varNum) == RenameXq(e, old(vars), old(varNum))
      ensures vars == old(vars)
      decreases e, 1
    {
      var saved := vars;
      var bs, _ := VisitLetClause(e.bindings);
      var body := VisitXq(e.body);
      vars := saved;
      r := XqLet(bs, body);
    }

    /** `for`, then `let` and `where` when present, then `return`; the scope
        on entry is restored. */
    method VisitXqFLWR(e: Xq) returns (r: Xq)
      requires e.XqFLWR?
      modifies this
      ensures (r, varNum) == RenameXq(e, old(vars), old(varNum))
      ensures vars == old(vars)
      decreases e, 1
    {
      var saved := vars;
      var fs, _ := VisitForClause(e.forBindings);
      var ls := [];
      if e.letBindings != [] {
        var q;
        ls, q := VisitLetClause(e.letBindings);
      }
      var w := VisitWhere(e.where);
      var ret := VisitXq(e.ret);
      vars := saved;
      r := XqFLWR(fs, ls, w, ret);
    }

    /** The `where` clause of a FLWR expression, when there is one. */
    method VisitWhere(w: Option<Cond>) returns (r: Option<Cond>)
      modifies this
      ensures (r, varNum) == RenameWhere(w, old(vars), old(varNum))
      ensures vars == old(vars)
      decreases w, 3
    {
      r := None;
      if w.Some? {
        var c := VisitCond(w.value);
        r := Some(c);
      }
    }

    /** ` for $vK in xq, ...`; the bound variables stay in scope for the
        rest of the enclosing FLWR expression. */
    method VisitForClause(bs: seq<Binding>) returns (rs: seq<Binding>, q: string)
      modifies this
      ensures (rs, vars, varNum) == RenameBindings(bs, old(vars), old(varNum))
      ensures q == ClauseText(" for ", rs, " in ", show)
      decreases bs, 1
    {
      var items;
      rs, items := VisitBindings(bs, " in ");
      q := " for " + items;
    }

    /** ` let $vK:=xq, ...`; the bound variables stay in scope for the rest
        of the enclosing expression. */
    method VisitLetClause(bs: seq<Binding>) returns (rs: seq<Binding>, q: string)
      modifies this
      ensures (rs, vars, varNum) == RenameBindings(bs, old(vars), old(varNum))
      ensures q == ClauseText(" let ", rs, ":=", show)
      decreases bs, 1
    {
      var items;
      rs, items := VisitBindings(bs, ":=");
      q := " let " + items;
    }

    /** The loop shared by the three clauses: for each binding, take the
        next name, rename the source, then bind the variable; the texts
        `v + sep + xq` are separated by commas. */
    method VisitBindings(bs: seq<Binding>, sep: string) returns (rs: seq<Binding>, q: string)
      modifies this
      ensures (rs, vars, varNum) == RenameBindings(bs, old(vars), old(varNum))
      ensures q == Join(BindingTexts(rs, sep, show), ",")
      decreases bs, 0
    {
      ghost var vars0, n0 := vars, varNum;
      rs, q := [], "";
      var i := 0;
      while i < |bs|
        invariant 0 <= i <= |bs|
        invariant (rs, vars, varNum) == RenameBindings(bs[..i], vars0, n0)
        invariant q == Join(BindingTexts(rs, sep, show), ",") + (if 0 < i < |bs| then "," else "")
      {
        RenameBindingsStep(bs, vars0, n0, i);
        TextsStep(rs, Binding(VarName(varNum + 1), RenameXq(bs[i].source, vars, varNum + 1).0), sep, show);
        var v := NextVarName();
        var src := VisitXq(bs[i].source);
        vars := vars[bs[i].variable := v];
        rs := rs + [Binding(v, src)];
        q := q + (v + sep + show(src));
        if i != |bs| - 1 {
          q := q + ",";
        }
        i := i + 1;
      }
      assert bs[..i] == bs;
    }

    method VisitCond(c: Cond) returns (r: Cond)
      modifies this
      ensures (r, varNum) == RenameCond(c, old(vars), old(varNum))
      ensures vars == old(vars)
      decreases c, 2
    {
      match c
      case CondValueEquality(a, b) =>
        var ra := VisitXq(a);
        var rb := VisitXq(b);
        r := CondValueEquality(ra, rb);
      case CondIdentityEquality(a, b) =>
        var ra := VisitXq(a);
        var rb := VisitXq(b);
        r := CondIdentityEquality(ra, rb);
      case CondEmpty(a) =>
        var ra := VisitXq(a);
        r := CondEmpty(ra);
      case CondSome(_, _) =>
        var q;
        r, q := VisitCondSome(c);
      case CondParentheses(a) =>
        var ra := VisitCond(a);
        r := CondParentheses(ra);
      case CondAnd(a, b) =>
        var ra := VisitCond(a);
        var rb := VisitCond(b);
        r := CondAnd(ra, rb);
      case CondOr(a, b) =>
        var ra := VisitCond(a);
        var rb := VisitCond(b);
        r := CondOr(ra, rb);
      case CondNot(a) =>
        var ra := VisitCond(a);
        r := CondNot(ra);
    }

    /** ` some $vK in xq, ... satisfies cond`; the scope on entry is
        restored. */
    method VisitCondSome(c: Cond) returns (r: Cond, q: string)
      requires c.CondSome?
      modifies this
      ensures (r, varNum) == RenameCond(c, old(vars), old(varNum))
      ensures vars == old(vars)
      ensures q == ClauseText(" some ", r.bindings, " in ", show) + " satisfies " + showCond(r.cond)
      decreases c, 1
    {
      var saved := vars;
      var bs, items := VisitBindings(c.bindings, " in ");
      q := " some " + items;
      var body := VisitCond(c.cond);
      q := q + " satisfies " + showCond(body);
      vars := saved;
      r := CondSome(bs, body);
    }
  }
}
