/** The older query printer: it serializes a query by appending to one text
    buffer, `query`. `output` appends `SpacesPerLevel * level` spaces (unless
    inline), the text and a line feed (if asked); `rTrim` cuts the trailing
    whitespace off the buffer in place; the XQuery and condition rules raise
    `level` around their sub-queries, and the XPath rules append inline.
    Every rule returns the whole buffer.

    The effect of every rule is specified by a function from the buffer and
    the level before the rule to the buffer after it; the class
    `XQueryOptimizer` implements the rules as methods over its two fields and
    is proved to have exactly that effect and to leave `level` unchanged. */
module Printer {
  import opened Wrappers
  import opened Text
  import opened Ast
  import Formatter

  const SpacesPerLevel: int := 2

  /* ------------------------------------------------------------ buffer */

  /** The buffer after `output(s, inline, newline)`. */
  function Emit(q: string, level: int, s: string, inline: bool, newline: bool): string
  {
    var q1 := if inline then q else q + Spaces(SpacesPerLevel * level);
    var q2 := q1 + s;
    if newline then q2 + "\n" else q2
  }

  /** The buffer after `line(s)`. */
  function EmitLine(q: string, level: int, s: string): string
  {
    Emit(q, level, s, false, true)
  }

  /** `output` only appends: the indentation when not inline, the text, and
      the line feed only when asked for. */
  lemma EmitSpec(q: string, level: int, s: string, inline: bool, newline: bool)
    ensures var r := Emit(q, level, s, inline, newline);
      var k := if inline || SpacesPerLevel * level <= 0 then 0 else SpacesPerLevel * level;
      var n := if newline then 1 else 0;
      |r| == |q| + k + |s| + n && q <= r &&
      (forall i :: |q| <= i < |q| + k ==> r[i] == ' ') &&
      r[|q| + k..|q| + k + |s|] == s &&
      (newline ==> r[|r| - 1] == '\n')
  {
    SpacesAreSpaces(SpacesPerLevel * level);
    var q1 := if inline then q else q + Spaces(SpacesPerLevel * level);
    var q2 := q1 + s;
    assert q2[|q1|..] == s;
    assert |q1| == |q| + (if inline || SpacesPerLevel * level <= 0 then 0 else SpacesPerLevel * level);
    if newline {
      assert (q2 + "\n")[..|q2|] == q2;
    }
  }

  /* ------------------------------------------------- trimmed prefixes */

  /** `r` starts with `q` without its trailing whitespace: what the text of
      `q` still is once `rTrim` and further output have been applied. */
  ghost predicate Keeps(q: string, r: string)
  {
    RTrimmed(q) <= r
  }

  lemma KeepsRefl(q: string)
    ensures Keeps(q, q)
  {
    RTrimBySpec(q, Whitespace());
  }

  lemma KeepsAppend(q: string, r: string, t: string)
    requires Keeps(q, r)
    ensures Keeps(q, r + t)
  {
    assert (r + t)[..|r|] == r;
  }

  /** `rTrim` never cuts into text that ends in a non-whitespace character. */
  lemma {:induction false} KeepsTrim(q: string, r: string)
    requires Keeps(q, r)
    ensures Keeps(q, RTrimmed(r))
    decreases |r|
  {
    var p := RTrimmed(q);
    RTrimBySpec(q, Whitespace());
    if r != [] && Whitespace()(r[|r| - 1]) && |p| < |r| {
      var init := r[..|r| - 1];
      assert init[..|p|] == r[..|p|];
      KeepsTrim(q, init);
    }
  }

  lemma KeepsTrans(q: string, r: string, t: string)
    requires Keeps(q, r) && Keeps(r, t)
    ensures Keeps(q, t)
  {
    KeepsTrim(q, r);
  }

  lemma KeepsEmit(q: string, level: int, s: string, inline: bool, newline: bool)
    ensures Keeps(q, Emit(q, level, s, inline, newline))
  {
    KeepsRefl(q);
    var q1 := if inline then q else q + Spaces(SpacesPerLevel * level);
    KeepsAppend(q, q, Spaces(SpacesPerLevel * level));
    KeepsAppend(q, q1, s);
    KeepsAppend(q, q1 + s, "\n");
  }

  /** Trimming a line whose text ends in a non-whitespace character leaves
      the buffer, the indentation and the text. */
  lemma RTrimmedEmitLine(q: string, level: int, s: string)
    requires s != [] && !IsWhitespace(s[|s| - 1])
    ensures RTrimmed(EmitLine(q, level, s)) == q + Spaces(SpacesPerLevel * level) + s
  {
    var r := q + Spaces(SpacesPerLevel * level) + s;
    var t := EmitLine(q, level, s);
    assert t == r + "\n";
    assert t[..|t| - 1] == r;
    assert Whitespace()('\n');
    assert RTrimBy(t, Whitespace()) == RTrimBy(r, Whitespace());
    assert r[|r| - 1] == s[|s| - 1];
    assert !Whitespace()(r[|r| - 1]);
  }

  /* -------------------------------------------------------- XPath rules */

  function PrintAp(ap: Ap, q: string): string
    decreases ap
  {
    match ap
    case ApChildren(file, rp) => PrintRp(rp, q + ("doc(" + file + ")") + "/")
    case ApAll(file, rp) => PrintRp(rp, q + ("doc(" + file + ")") + "//")
  }

  function PrintRp(rp: Rp, q: string): string
    decreases rp
  {
    match rp
    case RpTag(t) => q + t
    case RpWildcard => q + "*"
    case RpCurrent => q + "."
    case RpParent => q + ".."
    case RpText => q + "text()"
    case RpAttribute(a) => q + ("@" + a)
    case RpParentheses(p) => PrintRp(p, q + "(") + ")"
    case RpChildren(a, b) => PrintRp(b, PrintRp(a, q) + "/")
    case RpAll(a, b) => PrintRp(b, PrintRp(a, q) + "//")
    case RpFilter(p, f) => PrintF(f, PrintRp(p, q) + "[") + "]"
    case RpPair(a, b) => PrintRp(b, PrintRp(a, q + "(") + ", ") + ")"
  }

  function PrintF(f: F, q: string): string
    decreases f
  {
    match f
    case FRelativePath(rp) => PrintRp(rp, q)
    case FValueEquality(a, b) => PrintRp(b, PrintRp(a, q) + " = ")
    case FIdentityEquality(a, b) => PrintRp(b, PrintRp(a, q) + " == ")
    case FParentheses(g) => PrintF(g, q + "(") + ")"
    case FAnd(g, h) => PrintF(h, PrintF(g, q) + " and ")
    case FOr(g, h) => PrintF(h, PrintF(g, q) + " or ")
    case FNot(g) => PrintF(g, q + " not ")
  }

  /** The XPath rules only append: what a path adds does not depend on the
      buffer before it. */
  lemma {:induction false} PrintRpAppends(rp: Rp, q: string)
    ensures PrintRp(rp, q) == q + PrintRp(rp, "")
    decreases rp, 1
  {
    match rp
    case RpParentheses(p) =>
      PrintRpAppends(p, q + "(");
      PrintRpAppends(p, "(");
      assert "" + "(" == "(";
      Concat3(q, "(", PrintRp(p, ""), ")");
    case RpChildren(a, b) => RpAppendsBinary(rp, "/", q);
    case RpAll(a, b) => RpAppendsBinary(rp, "//", q);
    case RpFilter(p, f) => RpAppendsFilter(rp, q);
    case RpPair(a, b) => RpAppendsPair(rp, q);
    case RpTag(t) => assert "" + t == t;
    case RpAttribute(a) => assert "" + ("@" + a) == "@" + a;
    case RpWildcard => assert "" + "*" == "*";
    case RpCurrent => assert "" + "." == ".";
    case RpParent => assert "" + ".." == "..";
    case RpText => assert "" + "text()" == "text()";
  }

  /** Re-association of a buffer followed by three pieces. */
  lemma Concat3(q: string, a: string, b: string, c: string)
    ensures q + a + b + c == q + (a + b + c)
  {
  }

  lemma {:induction false} RpAppendsBinary(rp: Rp, sep: string, q: string)
    requires rp.RpChildren? || rp.RpAll?
    ensures PrintRp(rp.right, PrintRp(rp.left, q) + sep) == q + PrintRp(rp.right, PrintRp(rp.left, "") + sep)
    decreases rp, 0
  {
    var a, b := rp.left, rp.right;
    PrintRpAppends(a, q);
    PrintRpAppends(b, PrintRp(a, q) + sep);
    PrintRpAppends(b, PrintRp(a, "") + sep);
    Concat3(q, PrintRp(a, ""), sep, PrintRp(b, ""));
  }

  lemma {:induction false} RpAppendsFilter(rp: Rp, q: string)
    requires rp.RpFilter?
    ensures PrintF(rp.filter, PrintRp(rp.path, q) + "[") + "]" == q + (PrintF(rp.filter, PrintRp(rp.path, "") + "[") + "]")
    decreases rp, 0
  {
    var p, f := rp.path, rp.filter;
    PrintRpAppends(p, q);
    PrintFAppends(f, PrintRp(p, q) + "[");
    PrintFAppends(f, PrintRp(p, "") + "[");
    var P, G := PrintRp(p, ""), PrintF(f, "");
    assert PrintF(f, PrintRp(p, q) + "[") + "]" == q + P + "[" + G + "]";
    assert q + (P + "[" + G + "]") == q + P + "[" + G + "]";
  }

  lemma {:induction false} RpAppendsPair(rp: Rp, q: string)
    requires rp.RpPair?
    ensures PrintRp(rp, q) == q + PrintRp(rp, "")
    ensures PrintRp(rp, q) == q + "(" + PrintRp(rp.left, "") + ", " + PrintRp(rp.right, "") + ")"
    decreases rp, 0
  {
    var a, b := rp.left, rp.right;
    PrintRpAppends(a, q + "(");
    PrintRpAppends(a, "(");
    PrintRpAppends(b, PrintRp(a, q + "(") + ", ");
    PrintRpAppends(b, PrintRp(a, "(") + ", ");
    var A, B := PrintRp(a, ""), PrintRp(b, "");
    assert "" + "(" == "(";
    assert PrintRp(rp, q) == q + "(" + A + ", " + B + ")";
    assert PrintRp(rp, "") == "(" + A + ", " + B + ")";
    assert q + ("(" + A + ", " + B + ")") == q + "(" + A + ", " + B + ")";
  }

  lemma {:induction false} PrintFAppends(f: F, q: string)
    ensures PrintF(f, q) == q + PrintF(f, "")
    decreases f, 1
  {
    match f
    case FRelativePath(rp) => PrintRpAppends(rp, q);
    case FValueEquality(a, b) =>
      PrintRpAppends(a, q);
      PrintRpAppends(b, PrintRp(a, q) + " = ");
      PrintRpAppends(b, PrintRp(a, "") + " = ");
      Concat3(q, PrintRp(a, ""), " = ", PrintRp(b, ""));
    case FIdentityEquality(a, b) =>
      PrintRpAppends(a, q);
      PrintRpAppends(b, PrintRp(a, q) + " == ");
      PrintRpAppends(b, PrintRp(a, "") + " == ");
      Concat3(q, PrintRp(a, ""), " == ", PrintRp(b, ""));
    case FParentheses(g) =>
      PrintFAppends(g, q + "(");
      PrintFAppends(g, "(");
      assert "" + "(" == "(";
      Concat3(q, "(", PrintF(g, ""), ")");
    case FAnd(g, h) =>
      PrintFAppends(g, q);
      PrintFAppends(h, PrintF(g, q) + " and ");
      PrintFAppends(h, PrintF(g, "") + " and ");
      Concat3(q, PrintF(g, ""), " and ", PrintF(h, ""));
    case FOr(g, h) =>
      PrintFAppends(g, q);
      PrintFAppends(h, PrintF(g, q) + " or ");
      PrintFAppends(h, PrintF(g, "") + " or ");
      Concat3(q, PrintF(g, ""), " or ", PrintF(h, ""));
    case FNot(g) =>
      PrintFAppends(g, q + " not ");
      PrintFAppends(g, " not ");
      assert "" + " not " == " not ";
      assert q + " not " + PrintF(g, "") == q + (" not " + PrintF(g, ""));
  }

  /** A relative-path pair is always printed between parentheses. */
  lemma PairParenthesized(a: Rp, b: Rp, q: string)
    ensures PrintRp(RpPair(a, b), q) == q + "(" + PrintRp(a, "") + ", " + PrintRp(b, "") + ")"
  {
    RpAppendsPair(RpPair(a, b), q);
  }

  /** A path without pairs and without `not` filters: the two rules whose
      text differs between the two printers. */
  predicate PortableRp(rp: Rp)
  {
    match rp
    case RpParentheses(p) => PortableRp(p)
    case RpChildren(a, b) => PortableRp(a) && PortableRp(b)
    case RpAll(a, b) => PortableRp(a) && PortableRp(b)
    case RpFilter(p, f) => PortableRp(p) && PortableF(f)
    case RpPair(_, _) => false
    case _ => true
  }

  predicate PortableF(f: F)
  {
    match f
    case FRelativePath(rp) => PortableRp(rp)
    case FValueEquality(a, b) => PortableRp(a) && PortableRp(b)
    case FIdentityEquality(a, b) => PortableRp(a) && PortableRp(b)
    case FParentheses(g) => PortableF(g)
    case FAnd(g, h) => PortableF(g) && PortableF(h)
    case FOr(g, h) => PortableF(g) && PortableF(h)
    case FNot(_) => false
  }

  /** Apart from pairs and `not`, the old printer writes a path exactly as
      the formatter does. */
  lemma {:induction false} SameRpText(rp: Rp)
    requires PortableRp(rp)
    ensures PrintRp(rp, "") == Formatter.RpString(rp)
    decreases rp
  {
    match rp
    case RpParentheses(p) =>
      SameRpText(p);
      PrintRpAppends(p, "(");
      assert "" + "(" == "(";
    case RpChildren(a, b) =>
      SameRpText(a);
      SameRpText(b);
      PrintRpAppends(b, PrintRp(a, "") + "/");
    case RpAll(a, b) =>
      SameRpText(a);
      SameRpText(b);
      PrintRpAppends(b, PrintRp(a, "") + "//");
    case RpFilter(p, f) =>
      SameRpText(p);
      SameFText(f);
      PrintFAppends(f, PrintRp(p, "") + "[");
    case _ =>
  }

  lemma {:induction false} SameFText(f: F)
    requires PortableF(f)
    ensures PrintF(f, "") == Formatter.FString(f)
    decreases f
  {
    match f
    case FRelativePath(rp) => SameRpText(rp);
    case FValueEquality(a, b) =>
      SameRpText(a);
      SameRpText(b);
      PrintRpAppends(b, PrintRp(a, "") + " = ");
    case FIdentityEquality(a, b) =>
      SameRpText(a);
      SameRpText(b);
      PrintRpAppends(b, PrintRp(a, "") + " == ");
    case FParentheses(g) =>
      SameFText(g);
      PrintFAppends(g, "(");
      assert "" + "(" == "(";
    case FAnd(g, h) =>
      SameFText(g);
      SameFText(h);
      PrintFAppends(h, PrintF(g, "") + " and ");
    case FOr(g, h) =>
      SameFText(g);
      SameFText(h);
      PrintFAppends(h, PrintF(g, "") + " or ");
  }

  /** ... and a pair of such paths is where they part: the old printer adds
      the parentheses the formatter leaves out. */
  lemma PairTextDiffers(a: Rp, b: Rp)
    requires PortableRp(a) && PortableRp(b)
    ensures PrintRp(RpPair(a, b), "") == "(" + Formatter.RpString(RpPair(a, b)) + ")"
    ensures PrintRp(RpPair(a, b), "") != Formatter.RpString(RpPair(a, b))
  {
    var A, B := PrintRp(a, ""), PrintRp(b, "");
    var r := PrintRp(RpPair(a, b), "");
    PairParenthesized(a, b, "");
    SameRpText(a);
    SameRpText(b);
    Wrapped(A, B);
  }

  lemma Wrapped(a: string, b: string)
    ensures "" + "(" + a + ", " + b + ")" == "(" + (a + ", " + b) + ")"
    ensures "" + "(" + a + ", " + b + ")" != a + ", " + b
  {
    assert |"" + "(" + a + ", " + b + ")"| == |a + ", " + b| + 2;
  }

  /* ------------------------------------------------------- XQuery rules */

  /** The buffer after printing `e` at `level` onto `q`. */
  function PrintXq(e: Xq, q: string, level: int): string
    decreases e, 1
  {
    match e
    case XqVariable(v) => EmitLine(q, level, v)
    case XqConstant(c) => EmitLine(q, level, c)
    case XqAbsolutePath(ap) => Emit(PrintAp(ap, Emit(q, level, "", false, false)), level, "\n", true, false)
    case XqParentheses(a) => EmitLine(PrintXq(a, EmitLine(q, level, "("), level + 1), level, ")")
    case XqPair(a, b) => PrintXq(b, TrimComma(PrintXq(a, q, level), level), level)
    case XqChildren(a, rp) =>
      var q1 := Emit(RTrimmed(PrintXq(a, q, level)), level + 1, "/", true, false);
      Emit(PrintRp(rp, q1), level + 1, "\n", true, false)
    case XqAll(a, rp) =>
      var q1 := Emit(RTrimmed(PrintXq(a, q, level)), level + 1, "//", true, false);
      Emit(PrintRp(rp, q1), level + 1, "\n", true, false)
    case XqTag(o, a, _) =>
      EmitLine(PrintXq(a, EmitLine(q, level, "<" + o + ">{"), level + 1), level, "}</" + o + ">")
    case XqJoin(a, b, lt, rt) =>
      var q1 := JoinOperand(a, EmitLine(EmitLine(q, level, "join"), level, "("), level);
      JoinTags(lt, rt, JoinOperand(b, q1, level), level)
    case XqLet(bs, body) => PrintXq(body, PrintClause("let", " := ", bs, q, level), level + 1)
    case XqFLWR(fs, ls, w, ret) =>
      var q1 := PrintClause("for", " in ", fs, q, level);
      var q2 := if ls != [] then PrintClause("let", " := ", ls, q1, level) else q1;
      PrintReturn(ret, PrintWhere(w, q2, level), level)
  }

  /** The two tag lists of a join one level deeper, separated by a comma
      after the trimmed first one, and the closing parenthesis. */
  function JoinTags(lt: seq<string>, rt: seq<string>, q: string, level: int): string
  {
    var q1 := TrimComma(PrintTagList(lt, q, level + 1), level);
    EmitLine(PrintTagList(rt, q1, level + 1), level, ")")
  }

  /** `rTrim`, then a comma and a line feed. */
  function TrimComma(q: string, level: int): string
  {
    Emit(RTrimmed(q), level, ",", true, true)
  }

  /** A join operand one level deeper, followed by a comma. */
  function JoinOperand(x: Xq, q: string, level: int): string
    decreases x, 2
  {
    TrimComma(PrintXq(x, q, level + 1), level)
  }

  function PrintWhere(w: Option<Cond>, q: string, level: int): string
    decreases w, 1
  {
    match w
    case None => q
    case Some(c) => PrintCond(c, EmitLine(q, level, "where"), level + 1)
  }

  function PrintReturn(ret: Xq, q: string, level: int): string
    decreases ret, 2
  {
    PrintXq(ret, EmitLine(q, level, "return"), level + 1)
  }

  /** `[a, b, c]` on a line of its own. */
  function PrintTagList(tags: seq<string>, q: string, level: int): string
  {
    EmitLine(q, level, "[" + Join(tags, ", ") + "]")
  }

  /** A `for`, `let` or `some` clause: the keyword on a line, then each
      binding one level deeper. */
  function PrintClause(keyword: string, word: string, bs: seq<Binding>, q: string, level: int): string
    decreases bs, 2
  {
    PrintItems(bs, word, EmitLine(q, level, keyword), level + 1, |bs|)
  }

  /** The first `|bs|` bindings of a clause of `n`. */
  function PrintItems(bs: seq<Binding>, word: string, q: string, level: int, n: nat): string
    decreases bs, 1
  {
    if bs == [] then q
    else
      var k := |bs| - 1;
      PrintItem(bs[k], word, PrintItems(bs[..k], word, q, level, n), level, k == n - 1)
  }

  /** `$x in ` (or `$x := `) on a line, the source one level deeper, and a
      comma after it, on its last line, unless the binding is the last. */
  function PrintItem(b: Binding, word: string, q: string, level: int, last: bool): string
    decreases b, 1
  {
    var q1 := PrintXq(b.source, EmitLine(q, level, b.variable + word), level + 1);
    if last then q1 else TrimComma(q1, level + 1)
  }

  /** The buffer after printing condition `c` at `level` onto `q`. As the
      source has it, `and` conditions are printed with the keyword `or`. */
  function PrintCond(c: Cond, q: string, level: int): string
    decreases c, 1
  {
    match c
    case CondValueEquality(a, b) => PrintXq(b, EmitLine(PrintXq(a, q, level), level, "="), level)
    case CondIdentityEquality(a, b) => PrintXq(b, EmitLine(PrintXq(a, q, level), level, "=="), level)
    case CondEmpty(a) =>
      EmitLine(PrintXq(a, EmitLine(EmitLine(q, level, "empty"), level, "("), level + 1), level, ")")
    case CondSome(bs, d) =>
      PrintCond(d, EmitLine(PrintClause("some", " in ", bs, q, level), level, "satisfies"), level + 1)
    case CondParentheses(d) => EmitLine(PrintCond(d, EmitLine(q, level, "("), level + 1), level, ")")
    case CondAnd(a, b) => PrintCond(b, EmitLine(PrintCond(a, q, level), level, "or"), level)
    case CondOr(a, b) => PrintCond(b, EmitLine(PrintCond(a, q, level), level, "or"), level)
    case CondNot(d) => PrintCond(d, EmitLine(q, level, "not"), level)
  }

  /** The `and` rule with the keyword its documentation names: the
      operands as above, with `and` on the line between them. */
  function PrintCondAndCorrected(a: Cond, b: Cond, q: string, level: int): string
  {
    PrintCond(b, EmitLine(PrintCond(a, q, level), level, "and"), level)
  }

  /** As written, `a and b` is printed exactly as `a or b` is. */
  lemma AndPrintedAsOr(a: Cond, b: Cond, q: string, level: int)
    ensures PrintCond(CondAnd(a, b), q, level) == PrintCond(CondOr(a, b), q, level)
  {
  }

  /* ---------------------------------------- the buffer is only extended */

  /** Printing a query keeps the text already in the buffer, up to its
      trailing whitespace: `rTrim` is the only rule that takes text away, and
      it only takes whitespace. */
  lemma {:induction false} KeepsXq(e: Xq, q: string, level: int)
    ensures Keeps(q, PrintXq(e, q, level))
    decreases e, 2
  {
    match e
    case XqVariable(v) => KeepsEmit(q, level, v, false, true);
    case XqConstant(c) => KeepsEmit(q, level, c, false, true);
    case XqAbsolutePath(ap) =>
      var q1 := Emit(q, level, "", false, false);
      KeepsEmit(q, level, "", false, false);
      PrintApAppends(ap, q1);
      KeepsAppend(q, q1, PrintAp(ap, ""));
      KeepsAppend(q, PrintAp(ap, q1), "\n");
    case XqParentheses(a) =>
      var q1 := EmitLine(q, level, "(");
      KeepsEmit(q, level, "(", false, true);
      KeepsXq(a, q1, level + 1);
      KeepsTrans(q, q1, PrintXq(a, q1, level + 1));
      KeepsLine(q, PrintXq(a, q1, level + 1), level, ")");
    case XqPair(a, b) =>
      var q1 := PrintXq(a, q, level);
      KeepsXq(a, q, level);
      var q2 := KeepsTrimComma(q, q1, level);
      KeepsXq(b, q2, level);
      KeepsTrans(q, q2, PrintXq(b, q2, level));
    case XqChildren(_, _) => KeepsPath(e, "/", q, level);
    case XqAll(_, _) => KeepsPath(e, "//", q, level);
    case XqTag(o, a, _) =>
      var q1 := EmitLine(q, level, "<" + o + ">{");
      KeepsEmit(q, level, "<" + o + ">{", false, true);
      KeepsXq(a, q1, level + 1);
      KeepsTrans(q, q1, PrintXq(a, q1, level + 1));
      KeepsLine(q, PrintXq(a, q1, level + 1), level, "}</" + o + ">");
    case XqJoin(_, _, _, _) => KeepsJoin(e, q, level);
    case XqLet(bs, body) =>
      var q1 := PrintClause("let", " := ", bs, q, level);
      KeepsClause("let", " := ", bs, q, level);
      KeepsXq(body, q1, level + 1);
      KeepsTrans(q, q1, PrintXq(body, q1, level + 1));
    case XqFLWR(_, _, _, _) => KeepsFLWR(e, q, level);
  }

  /** A line after text that keeps `q` keeps it too. */
  lemma KeepsLine(q: string, r: string, level: int, s: string)
    requires Keeps(q, r)
    ensures Keeps(q, EmitLine(r, level, s))
  {
    KeepsEmit(r, level, s, false, true);
    KeepsTrans(q, r, EmitLine(r, level, s));
  }

  /** `rTrim` then an inline comma and a line feed. */
  lemma KeepsTrimComma(q: string, r: string, level: int) returns (t: string)
    requires Keeps(q, r)
    ensures t == TrimComma(r, level) && Keeps(q, t)
  {
    KeepsTrim(q, r);
    t := Emit(RTrimmed(r), level, ",", true, true);
    KeepsEmit(RTrimmed(r), level, ",", true, true);
    KeepsTrans(q, RTrimmed(r), t);
  }

  lemma PrintApAppends(ap: Ap, q: string)
    ensures PrintAp(ap, q) == q + PrintAp(ap, "")
  {
    match ap
    case ApChildren(file, rp) =>
      PrintRpAppends(rp, q + ("doc(" + file + ")") + "/");
      PrintRpAppends(rp, "" + ("doc(" + file + ")") + "/");
    case ApAll(file, rp) =>
      PrintRpAppends(rp, q + ("doc(" + file + ")") + "//");
      PrintRpAppends(rp, "" + ("doc(" + file + ")") + "//");
  }

  lemma {:induction false} KeepsPath(e: Xq, sep: string, q: string, level: int)
    requires e.XqChildren? || e.XqAll?
    ensures var q1 := Emit(RTrimmed(PrintXq(e.xq, q, level)), level + 1, sep, true, false);
      Keeps(q, Emit(PrintRp(e.rp, q1), level + 1, "\n", true, false))
    decreases e, 1
  {
    var a, rp := e.xq, e.rp;
    var q0 := PrintXq(a, q, level);
    KeepsXq(a, q, level);
    KeepsTrim(q, q0);
    var q1 := Emit(RTrimmed(q0), level + 1, sep, true, false);
    KeepsAppend(q, RTrimmed(q0), sep);
    PrintRpAppends(rp, q1);
    KeepsAppend(q, q1, PrintRp(rp, ""));
    KeepsAppend(q, PrintRp(rp, q1), "\n");
  }

  lemma {:induction false} KeepsJoin(e: Xq, q: string, level: int)
    requires e.XqJoin?
    ensures Keeps(q, PrintXq(e, q, level))
    decreases e, 1
  {
    var q0 := EmitLine(EmitLine(q, level, "join"), level, "(");
    KeepsEmit(q, level, "join", false, true);
    KeepsLine(q, EmitLine(q, level, "join"), level, "(");
    var p1 := PrintXq(e.left, q0, level + 1);
    KeepsXq(e.left, q0, level + 1);
    KeepsTrans(q, q0, p1);
    var q1 := KeepsTrimComma(q, p1, level);
    var p2 := PrintXq(e.right, q1, level + 1);
    KeepsXq(e.right, q1, level + 1);
    KeepsTrans(q, q1, p2);
    var q2 := KeepsTrimComma(q, p2, level);
    var p3 := PrintTagList(e.leftTags, q2, level + 1);
    KeepsLine(q, q2, level + 1, "[" + Join(e.leftTags, ", ") + "]");
    var q3 := KeepsTrimComma(q, p3, level);
    KeepsLine(q, q3, level + 1, "[" + Join(e.rightTags, ", ") + "]");
    KeepsLine(q, PrintTagList(e.rightTags, q3, level + 1), level, ")");
  }

  lemma {:induction false} KeepsFLWR(e: Xq, q: string, level: int)
    requires e.XqFLWR?
    ensures Keeps(q, PrintXq(e, q, level))
    decreases e, 1
  {
    var q1 := PrintClause("for", " in ", e.forBindings, q, level);
    KeepsClause("for", " in ", e.forBindings, q, level);
    var q2 := if e.letBindings != [] then PrintClause("let", " := ", e.letBindings, q1, level) else q1;
    if e.letBindings != [] {
      KeepsClause("let", " := ", e.letBindings, q1, level);
      KeepsTrans(q, q1, q2);
    }
    var q3 := PrintWhere(e.where, q2, level);
    KeepsWhere(e.where, q2, level);
    KeepsTrans(q, q2, q3);
    var q4 := EmitLine(q3, level, "return");
    KeepsLine(q, q3, level, "return");
    KeepsXq(e.ret, q4, level + 1);
    KeepsTrans(q, q4, PrintXq(e.ret, q4, level + 1));
  }

  lemma {:induction false} KeepsWhere(w: Option<Cond>, q: string, level: int)
    ensures Keeps(q, PrintWhere(w, q, level))
    decreases w, 2
  {
    match w
    case None => KeepsRefl(q);
    case Some(c) =>
      var q1 := EmitLine(q, level, "where");
      KeepsEmit(q, level, "where", false, true);
      KeepsCond(c, q1, level + 1);
      KeepsTrans(q, q1, PrintCond(c, q1, level + 1));
  }

  lemma {:induction false} KeepsClause(keyword: string, word: string, bs: seq<Binding>, q: string, level: int)
    ensures Keeps(q, PrintClause(keyword, word, bs, q, level))
    decreases bs, 3
  {
    var q1 := EmitLine(q, level, keyword);
    KeepsEmit(q, level, keyword, false, true);
    KeepsItems(bs, word, q1, level + 1, |bs|);
    KeepsTrans(q, q1, PrintItems(bs, word, q1, level + 1, |bs|));
  }

  lemma {:induction false} KeepsItems(bs: seq<Binding>, word: string, q: string, level: int, n: nat)
    ensures Keeps(q, PrintItems(bs, word, q, level, n))
    decreases bs, 2
  {
    if bs == [] {
      KeepsRefl(q);
    } else {
      var k := |bs| - 1;
      var q1 := PrintItems(bs[..k], word, q, level, n);
      KeepsItems(bs[..k], word, q, level, n);
      KeepsItem(bs[k], word, q1, level, k == n - 1);
      KeepsTrans(q, q1, PrintItem(bs[k], word, q1, level, k == n - 1));
    }
  }

  lemma {:induction false} KeepsItem(b: Binding, word: string, q: string, level: int, last: bool)
    ensures Keeps(q, PrintItem(b, word, q, level, last))
    decreases b, 2
  {
    var q0 := EmitLine(q, level, b.variable + word);
    KeepsEmit(q, level, b.variable + word, false, true);
    var q1 := PrintXq(b.source, q0, level + 1);
    KeepsXq(b.source, q0, level + 1);
    KeepsTrans(q, q0, q1);
    if !last {
      var t := KeepsTrimComma(q, q1, level + 1);
    }
  }

  lemma {:induction false} KeepsCond(c: Cond, q: string, level: int)
    ensures Keeps(q, PrintCond(c, q, level))
    decreases c, 2
  {
    match c
    case CondValueEquality(_, _) => KeepsComparison(c, "=", q, level);
    case CondIdentityEquality(_, _) => KeepsComparison(c, "==", q, level);
    case CondEmpty(a) =>
      var q0 := EmitLine(EmitLine(q, level, "empty"), level, "(");
      KeepsEmit(q, level, "empty", false, true);
      KeepsLine(q, EmitLine(q, level, "empty"), level, "(");
      KeepsXq(a, q0, level + 1);
      KeepsTrans(q, q0, PrintXq(a, q0, level + 1));
      KeepsLine(q, PrintXq(a, q0, level + 1), level, ")");
    case CondSome(bs, d) =>
      var q1 := PrintClause("some", " in ", bs, q, level);
      KeepsClause("some", " in ", bs, q, level);
      KeepsLine(q, q1, level, "satisfies");
      var q2 := EmitLine(q1, level, "satisfies");
      KeepsCond(d, q2, level + 1);
      KeepsTrans(q, q2, PrintCond(d, q2, level + 1));
    case CondParentheses(d) =>
      var q1 := EmitLine(q, level, "(");
      KeepsEmit(q, level, "(", false, true);
      KeepsCond(d, q1, level + 1);
      KeepsTrans(q, q1, PrintCond(d, q1, level + 1));
      KeepsLine(q, PrintCond(d, q1, level + 1), level, ")");
    case CondAnd(_, _) => KeepsConnective(c, "or", q, level);
    case CondOr(_, _) => KeepsConnective(c, "or", q, level);
    case CondNot(d) =>
      var q1 := EmitLine(q, level, "not");
      KeepsEmit(q, level, "not", false, true);
      KeepsCond(d, q1, level);
      KeepsTrans(q, q1, PrintCond(d, q1, level));
  }

  lemma {:induction false} KeepsComparison(c: Cond, op: string, q: string, level: int)
    requires c.CondValueEquality? || c.CondIdentityEquality?
    ensures Keeps(q, PrintXq(c.rhs, EmitLine(PrintXq(c.lhs, q, level), level, op), level))
    decreases c, 1
  {
    var a, b := c.lhs, c.rhs;
    var q1 := PrintXq(a, q, level);
    KeepsXq(a, q, level);
    KeepsLine(q, q1, level, op);
    var q2 := EmitLine(q1, level, op);
    KeepsXq(b, q2, level);
    KeepsTrans(q, q2, PrintXq(b, q2, level));
  }

  lemma {:induction false} KeepsConnective(c: Cond, op: string, q: string, level: int)
    requires c.CondAnd? || c.CondOr?
    ensures Keeps(q, PrintCond(c.right, EmitLine(PrintCond(c.left, q, level), level, op), level))
    decreases c, 1
  {
    var a, b := c.left, c.right;
    var q1 := PrintCond(a, q, level);
    KeepsCond(a, q, level);
    KeepsLine(q, q1, level, op);
    var q2 := EmitLine(q1, level, op);
    KeepsCond(b, q2, level);
    KeepsTrans(q, q2, PrintCond(b, q2, level));
  }

  /* ---------------------------------------------------- what it shows */

  /** With the keyword corrected, `a and b` and `a or b` are printed
      differently, whatever the conditions, the buffer and the level. */
  lemma AndOrDistinct(a: Cond, b: Cond, q: string, level: int)
    ensures PrintCondAndCorrected(a, b, q, level) != PrintCond(CondOr(a, b), q, level)
  {
    var q1 := PrintCond(a, q, level);
    var p := q1 + Spaces(SpacesPerLevel * level);
    var qa := EmitLine(q1, level, "and");
    var qo := EmitLine(q1, level, "or");
    RTrimmedEmitLine(q1, level, "and");
    RTrimmedEmitLine(q1, level, "or");
    KeepsCond(b, qa, level);
    KeepsCond(b, qo, level);
    var ra := PrintCond(b, qa, level);
    var ro := PrintCond(b, qo, level);
    assert p + "and" <= ra && p + "or" <= ro;
    assert ra[|p|] == 'a' && ro[|p|] == 'o';
  }

  /** The clauses of a FLWR expression are printed in the order `for`,
      `let` (when present), `where` (when present), `return`: the text of
      each earlier clause is kept, up to trailing whitespace, at the start of
      the text after each later one. */
  lemma FLWROrder(fs: seq<Binding>, ls: seq<Binding>, w: Option<Cond>, ret: Xq, q: string, level: int)
    ensures var q1 := PrintClause("for", " in ", fs, q, level);
      var q2 := if ls != [] then PrintClause("let", " := ", ls, q1, level) else q1;
      var q3 := PrintWhere(w, q2, level);
      var r := PrintXq(XqFLWR(fs, ls, w, ret), q, level);
      r == PrintReturn(ret, q3, level) &&
      Keeps(q, q1) && Keeps(q1, q2) && Keeps(q2, q3) && Keeps(q3, r)
  {
    var q1 := PrintClause("for", " in ", fs, q, level);
    KeepsClause("for", " in ", fs, q, level);
    var q2 := if ls != [] then PrintClause("let", " := ", ls, q1, level) else q1;
    if ls != [] {
      KeepsClause("let", " := ", ls, q1, level);
    } else {
      KeepsRefl(q1);
    }
    var q3 := PrintWhere(w, q2, level);
    KeepsWhere(w, q2, level);
    var q4 := EmitLine(q3, level, "return");
    KeepsEmit(q3, level, "return", false, true);
    KeepsXq(ret, q4, level + 1);
    KeepsTrans(q3, q4, PrintXq(ret, q4, level + 1));
  }

  /** An absolute path is printed as one line, like a variable. */
  lemma AbsolutePathLine(ap: Ap, q: string, level: int)
    ensures PrintXq(XqAbsolutePath(ap), q, level) == EmitLine(q, level, PrintAp(ap, ""))
  {
    var q1 := Emit(q, level, "", false, false);
    PrintApAppends(ap, q1);
    assert q1 == q + Spaces(SpacesPerLevel * level);
  }

  /* ------------------------------------------------------------ the class */

  class XQueryOptimizer {
    /** The text printed so far. */
    var query: string
    /** Current level of indentation. */
    var level: int

    constructor()
      ensures query == "" && level == 0
    {
      query := "";
      level := 0;
    }

    /** Appends the indentation (unless `inline`), `s`, and a line feed (if
        `newline`). */
    method Output(s: string, inline: bool, newline: bool)
      modifies this
      ensures query == Emit(old(query), level, s, inline, newline) && level == old(level)
    {
      if !inline {
        var spaces := SpacesPerLevel * level;
        ghost var q0 := query;
        var i := 0;
        while i < spaces
          invariant 0 <= i && (i <= spaces || i == 0)
          invariant query == q0 + Spaces(i) && level == old(level)
        {
          query := query + " ";
          i := i + 1;
        }
      }
      query := query + s;
      if newline {
        query := query + "\n";
      }
    }

    method Line(s: string)
      modifies this
      ensures query == EmitLine(old(query), level, s) && level == old(level)
    {
      Output(s, false, true);
    }

    method Inline(s: string)
      modifies this
      ensures query == old(query) + s && level == old(level)
    {
      Output(s, true, false);
    }

    /** Cuts the trailing whitespace off the buffer. */
    method RTrim()
      modifies this
      ensures query == RTrimmed(old(query)) && level == old(level)
    {
      var i := |query| - 1;
      assert query[..i + 1] == query;
      while i >= 0 && IsWhitespace(query[i])
        invariant -1 <= i < |query|
        invariant RTrimmed(query[..i + 1]) == RTrimmed(old(query)) && query == old(query)
      {
        assert query[..i + 1][..i] == query[..i];
        i := i - 1;
      }
      query := query[..i + 1];
    }

    /* XQuery rules: each one has the effect its function specifies, leaves
       `level` as it found it and returns the whole buffer. */

    method VisitXq(e: Xq) returns (r: string)
      modifies this
      ensures query == PrintXq(e, old(query), old(level)) && level == old(level) && r == query
      decreases e, 2
    {
      match e {
      case XqVariable(v) => Line(v);
      case XqConstant(c) => Line(c);
      case XqAbsolutePath(ap) =>
        Output("", false, false);
        var _ := VisitAp(ap);
        Inline("\n");
      case XqParentheses(_) => var _ := VisitXqParentheses(e);
      case XqPair(_, _) => var _ := VisitXqPair(e);
      case XqChildren(_, _) => var _ := VisitXqChildren(e);
      case XqAll(_, _) => var _ := VisitXqAll(e);
      case XqTag(_, _, _) => var _ := VisitXqTag(e);
      case XqJoin(_, _, _, _) => var _ := VisitXqJoin(e);
      case XqLet(_, _) => var _ := VisitXqLet(e);
      case XqFLWR(_, _, _, _) => var _ := VisitXqFLWR(e);
      }
      r := query;
    }

    method VisitXqParentheses(e: Xq) returns (r: string)
      requires e.XqParentheses?
      modifies this
      ensures query == PrintXq(e, old(query), old(level)) && level == old(level) && r == query
      decreases e, 1
    {
      Line("(");
      level := level + 1;
      var _ := VisitXq(e.inner);
      level := level - 1;
      Line(")");
      r := query;
    }

    method VisitXqPair(e: Xq) returns (r: string)
      requires e.XqPair?
      modifies this
      ensures query == PrintXq(e, old(query), old(level)) && level == old(level) && r == query
      decreases e, 1
    {
      var _ := VisitXq(e.left);
      RTrim();
      Output(",", true, true);
      var _ := VisitXq(e.right);
      r := query;
    }

    method VisitXqChildren(e: Xq) returns (r: string)
      requires e.XqChildren?
      modifies this
      ensures query == PrintXq(e, old(query), old(level)) && level == old(level) && r == query
      decreases e, 1
    {
      var _ := VisitXq(e.xq);
      RTrim();
      level := level + 1;
      Output("/", true, false);
      var _ := VisitRp(e.rp);
      Inline("\n");
      level := level - 1;
      r := query;
    }

    method VisitXqAll(e: Xq) returns (r: string)
      requires e.XqAll?
      modifies this
      ensures query == PrintXq(e, old(query), old(level)) && level == old(level) && r == query
      decreases e, 1
    {
      var _ := VisitXq(e.xq);
      RTrim();
      level := level + 1;
      Output("//", true, false);
      var _ := VisitRp(e.rp);
      Inline("\n");
      level := level - 1;
      r := query;
    }

    /** The closing tag repeats the name of the opening tag. */
    method VisitXqTag(e: Xq) returns (r: string)
      requires e.XqTag?
      modifies this
      ensures query == PrintXq(e, old(query), old(level)) && level == old(level) && r == query
      decreases e, 1
    {
      Line("<" + e.openTag + ">{");
      level := level + 1;
      var _ := VisitXq(e.body);
      level := level - 1;
      Line("}</" + e.openTag + ">");
      r := query;
    }

    method VisitXqJoin(e: Xq) returns (r: string)
      requires e.XqJoin?
      modifies this
      ensures query == PrintXq(e, old(query), old(level)) && level == old(level) && r == query
      decreases e, 1
    {
      ghost var l := level;
      Line("join");
      Line("(");
      ghost var q0 := query;
      VisitJoinOperand(e.left);
      assert query == JoinOperand(e.left, q0, l);
      VisitJoinOperand(e.right);
      ghost var q2 := query;
      level := level + 1;
      var _ := VisitTagList(e.leftTags);
      level := level - 1;
      RTrim();
      Output(",", true, true);
      level := level + 1;
      var _ := VisitTagList(e.rightTags);
      level := level - 1;
      Line(")");
      assert query == JoinTags(e.leftTags, e.rightTags, q2, l);
      r := query;
    }

    /** One operand of a join, one level deeper, then `rTrim` and a comma. */
    method VisitJoinOperand(x: Xq)
      modifies this
      ensures query == JoinOperand(x, old(query), old(level)) && level == old(level)
      decreases x, 3
    {
      level := level + 1;
      var _ := VisitXq(x);
      level := level - 1;
      RTrim();
      Output(",", true, true);
    }

    method VisitXqLet(e: Xq) returns (r: string)
      requires e.XqLet?
      modifies this
      ensures query == PrintXq(e, old(query), old(level)) && level == old(level) && r == query
      decreases e, 1
    {
      var _ := VisitLetClause(e.bindings);
      level := level + 1;
      var _ := VisitXq(e.body);
      level := level - 1;
      r := query;
    }

    /** `for`, then `let` and `where` when present, then `return`. */
    method VisitXqFLWR(e: Xq) returns (r: string)
      requires e.XqFLWR?
      modifies this
      ensures query == PrintXq(e, old(query), old(level)) && level == old(level) && r == query
      decreases e, 1
    {
      var _ := VisitForClause(e.forBindings);
      if e.letBindings != [] {
        var _ := VisitLetClause(e.letBindings);
      }
      if e.where.Some? {
        var _ := VisitWhereClause(e.where.value);
      }
      var _ := VisitReturnClause(e.ret);
      r := query;
    }

    method VisitForClause(bs: seq<Binding>) returns (r: string)
      modifies this
      ensures query == PrintClause("for", " in ", bs, old(query), old(level))
      ensures level == old(level) && r == query
      decreases bs, 4
    {
      r := VisitClause("for", " in ", bs);
    }

    method VisitLetClause(bs: seq<Binding>) returns (r: string)
      modifies this
      ensures query == PrintClause("let", " := ", bs, old(query), old(level))
      ensures level == old(level) && r == query
      decreases bs, 4
    {
      r := VisitClause("let", " := ", bs);
    }

    /** The loop shared by the `for`, `let` and `some` clauses. */
    method VisitClause(keyword: string, word: string, bs: seq<Binding>) returns (r: string)
      modifies this
      ensures query == PrintClause(keyword, word, bs, old(query), old(level))
      ensures level == old(level) && r == query
      decreases bs, 3
    {
      Line(keyword);
      ghost var q1 := query;
      level := level + 1;
      var i := 0;
      while i < |bs|
        invariant 0 <= i <= |bs|
        invariant level == old(level) + 1
        invariant query == PrintItems(bs[..i], word, q1, level, |bs|)
      {
        PrintItemsStep(bs, i, word, q1, level);
        VisitBinding(bs[i], word, i == |bs| - 1);
        i := i + 1;
      }
      assert bs[..i] == bs;
      level := level - 1;
      r := query;
    }

    /** One binding of a clause, at the level of the clause body. */
    method VisitBinding(b: Binding, word: string, last: bool)
      modifies this
      ensures query == PrintItem(b, word, old(query), old(level), last) && level == old(level)
      decreases b, 2
    {
      Line(b.variable + word);
      level := level + 1;
      var _ := VisitXq(b.source);
      if !last {
        RTrim();
        Output(",", true, true);
      }
      level := level - 1;
    }

    method VisitWhereClause(c: Cond) returns (r: string)
      modifies this
      ensures query == PrintWhere(Some(c), old(query), old(level)) && level == old(level) && r == query
      decreases c, 3
    {
      Line("where");
      level := level + 1;
      var _ := VisitCond(c);
      level := level - 1;
      r := query;
    }

    method VisitReturnClause(e: Xq) returns (r: string)
      modifies this
      ensures query == PrintReturn(e, old(query), old(level)) && level == old(level) && r == query
      decreases e, 3
    {
      Line("return");
      level := level + 1;
      var _ := VisitXq(e);
      level := level - 1;
      r := query;
    }

    /** The tag names between brackets, separated by `, `, as one line. */
    method VisitTagList(tags: seq<string>) returns (r: string)
      modifies this
      ensures query == PrintTagList(tags, old(query), old(level)) && level == old(level) && r == query
    {
      var tagList := "[";
      var i := 0;
      while i < |tags|
        invariant 0 <= i <= |tags|
        invariant tagList == "[" + Join(tags[..i], ", ") + (if 0 < i < |tags| then ", " else "")
      {
        assert tags[..i + 1][..i] == tags[..i];
        tagList := tagList + tags[i];
        if i != |tags| - 1 {
          tagList := tagList + ", ";
        }
        i := i + 1;
      }
      assert tags[..i] == tags;
      tagList := tagList + "]";
      Line(tagList);
      r := query;
    }

    /* Condition rules. */

    method VisitCond(c: Cond) returns (r: string)
      modifies this
      ensures query == PrintCond(c, old(query), old(level)) && level == old(level) && r == query
      decreases c, 2
    {
      match c {
      case CondValueEquality(a, b) =>
        var _ := VisitXq(a);
        Line("=");
        var _ := VisitXq(b);
      case CondIdentityEquality(a, b) =>
        var _ := VisitXq(a);
        Line("==");
        var _ := VisitXq(b);
      case CondEmpty(_) => var _ := VisitCondEmpty(c);
      case CondSome(_, _) => var _ := VisitCondSome(c);
      case CondParentheses(_) => var _ := VisitCondParentheses(c);
      case CondAnd(_, _) => var _ := VisitCondAnd(c);
      case CondOr(_, _) => var _ := VisitCondOr(c);
      case CondNot(d) =>
        Line("not");
        var _ := VisitCond(d);
      }
      r := query;
    }

    method VisitCondEmpty(c: Cond) returns (r: string)
      requires c.CondEmpty?
      modifies this
      ensures query == PrintCond(c, old(query), old(level)) && level == old(level) && r == query
      decreases c, 1
    {
      Line("empty");
      Line("(");
      level := level + 1;
      var _ := VisitXq(c.xq);
      level := level - 1;
      Line(")");
      r := query;
    }

    method VisitCondSome(c: Cond) returns (r: string)
      requires c.CondSome?
      modifies this
      ensures query == PrintCond(c, old(query), old(level)) && level == old(level) && r == query
      decreases c, 1
    {
      var _ := VisitClause("some", " in ", c.bindings);
      Line("satisfies");
      level := level + 1;
      var _ := VisitCond(c.cond);
      level := level - 1;
      r := query;
    }

    method VisitCondParentheses(c: Cond) returns (r: string)
      requires c.CondParentheses?
      modifies this
      ensures query == PrintCond(c, old(query), old(level)) && level == old(level) && r == query
      decreases c, 1
    {
      Line("(");
      level := level + 1;
      var _ := VisitCond(c.inner);
      level := level - 1;
      Line(")");
      r := query;
    }

    /** Prints the keyword `or`, as the `or` rule does (see `AndPrintedAsOr`). */
    method VisitCondAnd(c: Cond) returns (r: string)
      requires c.CondAnd?
      modifies this
      ensures query == PrintCond(c, old(query), old(level)) && level == old(level) && r == query
      decreases c, 1
    {
      var _ := VisitCond(c.left);
      Line("or");
      var _ := VisitCond(c.right);
      r := query;
    }

    method VisitCondOr(c: Cond) returns (r: string)
      requires c.CondOr?
      modifies this
      ensures query == PrintCond(c, old(query), old(level)) && level == old(level) && r == query
      decreases c, 1
    {
      var _ := VisitCond(c.left);
      Line("or");
      var _ := VisitCond(c.right);
      r := query;
    }

    /* XPath rules: all inline. */

    method VisitAp(ap: Ap) returns (r: string)
      modifies this
      ensures query == PrintAp(ap, old(query)) && level == old(level) && r == query
      decreases ap
    {
      Inline("doc(" + ap.doc + ")");
      Inline(if ap.ApChildren? then "/" else "//");
      var _ := VisitRp(ap.rp);
      r := query;
    }

    method VisitRp(rp: Rp) returns (r: string)
      modifies this
      ensures query == PrintRp(rp, old(query)) && level == old(level) && r == query
      decreases rp
    {
      match rp {
      case RpTag(t) => Inline(t);
      case RpWildcard => Inline("*");
      case RpCurrent => Inline(".");
      case RpParent => Inline("..");
      case RpText => Inline("text()");
      case RpAttribute(a) => Inline("@" + a);
      case RpParentheses(p) =>
        Inline("(");
        var _ := VisitRp(p);
        Inline(")");
      case RpChildren(a, b) =>
        var _ := VisitRp(a);
        Inline("/");
        var _ := VisitRp(b);
      case RpAll(a, b) =>
        var _ := VisitRp(a);
        Inline("//");
        var _ := VisitRp(b);
      case RpFilter(p, f) =>
        var _ := VisitRp(p);
        Inline("[");
        var _ := VisitF(f);
        Inline("]");
      case RpPair(a, b) =>
        Inline("(");
        var _ := VisitRp(a);
        Inline(", ");
        var _ := VisitRp(b);
        Inline(")");
      }
      r := query;
    }

    method VisitF(f: F) returns (r: string)
      modifies this
      ensures query == PrintF(f, old(query)) && level == old(level) && r == query
      decreases f
    {
      match f {
      case FRelativePath(rp) => var _ := VisitRp(rp);
      case FValueEquality(a, b) =>
        var _ := VisitRp(a);
        Inline(" = ");
        var _ := VisitRp(b);
      case FIdentityEquality(a, b) =>
        var _ := VisitRp(a);
        Inline(" == ");
        var _ := VisitRp(b);
      case FParentheses(g) =>
        Inline("(");
        var _ := VisitF(g);
        Inline(")");
      case FAnd(g, h) =>
        var _ := VisitF(g);
        Inline(" and ");
        var _ := VisitF(h);
      case FOr(g, h) =>
        var _ := VisitF(g);
        Inline(" or ");
        var _ := VisitF(h);
      case FNot(g) =>
        Inline(" not ");
        var _ := VisitF(g);
      }
      r := query;
    }
  }

  /** The buffer after the first `i + 1` bindings is the buffer after the
      first `i`, extended by binding `i`. */
  lemma PrintItemsStep(bs: seq<Binding>, i: nat, word: string, q: string, level: int)
    requires i < |bs|
    ensures PrintItems(bs[..i + 1], word, q, level, |bs|)
            == PrintItem(bs[i], word, PrintItems(bs[..i], word, q, level, |bs|), level, i == |bs| - 1)
  {
    var t := bs[..i + 1];
    assert t[..|t| - 1] == bs[..i];
    assert t[|t| - 1] == bs[i];
  }
}
