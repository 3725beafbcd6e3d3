/** The abstract syntax shared by the XPath evaluator, the variable renamer
    and the two query printers: absolute paths, relative paths and filters of
    the XPath dialect, and the expressions, bindings and conditions of the
    XQuery dialect. Identifiers, variables ("$x") and string constants keep
    the exact text of their tokens. */
module Ast {
  import opened Wrappers

  /** `doc(file)/rp` and `doc(file)//rp`; `file` is the quoted literal. */
  datatype Ap =
    | ApChildren(doc: string, rp: Rp)
    | ApAll(doc: string, rp: Rp)

  datatype Rp =
    | RpTag(tag: string)
    | RpWildcard
    | RpCurrent
    | RpParent
    | RpText
    | RpAttribute(att: string)
    | RpParentheses(inner: Rp)
    | RpChildren(left: Rp, right: Rp)
    | RpAll(left: Rp, right: Rp)
    | RpFilter(path: Rp, filter: F)
    | RpPair(left: Rp, right: Rp)

  datatype F =
    | FRelativePath(rp: Rp)
    | FValueEquality(lhs: Rp, rhs: Rp)
    | FIdentityEquality(lhs: Rp, rhs: Rp)
    | FParentheses(inner: F)
    | FAnd(left: F, right: F)
    | FOr(left: F, right: F)
    | FNot(inner: F)

  /** `$var in source` (for, some) or `$var := source` (let). */
  datatype Binding = Binding(variable: string, source: Xq)

  datatype Xq =
    | XqVariable(name: string)
    | XqConstant(literal: string)
    | XqAbsolutePath(ap: Ap)
    | XqParentheses(inner: Xq)
    | XqPair(left: Xq, right: Xq)
    | XqChildren(xq: Xq, rp: Rp)
    | XqAll(xq: Xq, rp: Rp)
    | XqTag(openTag: string, body: Xq, closeTag: string)
    | XqJoin(left: Xq, right: Xq, leftTags: seq<string>, rightTags: seq<string>)
    | XqLet(bindings: seq<Binding>, body: Xq)
    /** `letBindings` is empty when there is no `let` clause: a `let`
        clause binds at least one variable. */
    | XqFLWR(forBindings: seq<Binding>, letBindings: seq<Binding>, where: Option<Cond>, ret: Xq)

  datatype Cond =
    | CondValueEquality(lhs: Xq, rhs: Xq)
    | CondIdentityEquality(lhs: Xq, rhs: Xq)
    | CondEmpty(xq: Xq)
    | CondSome(bindings: seq<Binding>, cond: Cond)
    | CondParentheses(inner: Cond)
    | CondAnd(left: Cond, right: Cond)
    | CondOr(left: Cond, right: Cond)
    | CondNot(inner: Cond)
}
