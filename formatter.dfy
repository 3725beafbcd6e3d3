/** The query formatter (pretty-printer). Every rule turns a node of the
    syntax tree into text whose lines are indented by
    `SpacesPerLevel * level + extraSpaces` spaces; the XQuery and condition
    rules raise the two counters around their recursive calls and lower them
    again afterwards, and trim whitespace off the pieces they glue together.
    The XPath and filter rules are plain concatenations.

    The text of every rule is specified by a function of the syntax tree,
    the two counters and the reading of the rules (`Rules`); the class
    `XQueryFormatter` implements the rules as the source writes them, as
    methods over its counter fields, and is proved to produce the
    `AsWritten` text and to leave both counters as it found them. The
    `Corrected` reading, where every rule ends its last line, is the one the
    line-end lemmas are about. */
module Formatter {
  import opened Wrappers
  import opened Text
  import opened Ast

  const SpacesPerLevel: int := 2

  /** The longest trimmed text a tag body or a comparison may have and still
      be printed on one line. */
  const MaxInline: int := 20

  /* --------------------------------------------------------- indentation */

  /** `s` after the indentation of the given counters. */
  function Indented(level: int, extra: int, s: string): string
  {
    Spaces(SpacesPerLevel * level + extra) + s
  }

  /** `s` as a whole line at the given counters. */
  function LineOf(level: int, extra: int, s: string): string
  {
    Indented(level, extra, s + LineSeparator)
  }

  /** The indentation is exactly `2 * level + extra` spaces (none when that
      is not positive), followed by the text itself. */
  lemma IndentedSpec(level: int, extra: int, s: string)
    ensures var k := 2 * level + extra;
      var r := Indented(level, extra, s);
      |r| == (if k <= 0 then 0 else k) + |s| &&
      (forall i :: 0 <= i < |r| - |s| ==> r[i] == ' ') &&
      r[|r| - |s|..] == s
  {
    SpacesAreSpaces(2 * level + extra);
  }

  /** Trimming trailing whitespace off a line that ends in a non-whitespace
      character leaves exactly its indented text. */
  lemma RTrimmedLine(level: int, extra: int, s: string)
    requires s != [] && !IsWhitespace(s[|s| - 1])
    ensures RTrimmed(LineOf(level, extra, s)) == Indented(level, extra, s)
  {
    var r := Indented(level, extra, s);
    var t := LineOf(level, extra, s);
    assert t == r + LineSeparator;
    assert t[|t| - 1] == '\n' && Whitespace()('\n');
    assert t[..|t| - 1] == r;
    assert RTrimBy(t, Whitespace()) == RTrimBy(r, Whitespace());
    assert r[|r| - 1] == s[|s| - 1];
    assert !Whitespace()(r[|r| - 1]);
  }

  /** Text that starts with a non-whitespace character is left alone by
      `lTrim`. */
  lemma LTrimmedNonBlank(s: string)
    requires s != [] && !IsWhitespace(s[0])
    ensures LTrimmed(s) == s
  {
  }

  /* ---------------------------------------------------------- XPath text */

  function ApString(ap: Ap): string
  {
    match ap
    case ApChildren(file, rp) => "doc(" + file + ")" + "/" + RpString(rp)
    case ApAll(file, rp) => "doc(" + file + ")" + "//" + RpString(rp)
  }

  function RpString(rp: Rp): string
  {
    match rp
    case RpTag(t) => t
    case RpWildcard => "*"
    case RpCurrent => "."
    case RpParent => ".."
    case RpText => "text()"
    case RpAttribute(a) => "@" + a
    case RpParentheses(p) => "(" + RpString(p) + ")"
    case RpChildren(a, b) => RpString(a) + "/" + RpString(b)
    case RpAll(a, b) => RpString(a) + "//" + RpString(b)
    case RpFilter(p, f) => RpString(p) + "[" + FString(f) + "]"
    case RpPair(a, b) => RpString(a) + ", " + RpString(b)
  }

  function FString(f: F): string
  {
    match f
    case FRelativePath(rp) => RpString(rp)
    case FValueEquality(a, b) => RpString(a) + " = " + RpString(b)
    case FIdentityEquality(a, b) => RpString(a) + " == " + RpString(b)
    case FParentheses(g) => "(" + FString(g) + ")"
    case FAnd(g, h) => FString(g) + " and " + FString(h)
    case FOr(g, h) => FString(g) + " or " + FString(h)
    case FNot(g) => "not " + FString(g)
  }

  /* --------------------------------------------------------- XQuery text */

  /** Which reading of two rules to follow. `AsWritten` is the source's own:
      a tag run together on one line and a parenthesized condition leave
      their last line open, so the text after them continues it.
      `Corrected` ends those lines too, as every other rule does. */
  datatype Rules = AsWritten | Corrected

  /** The formatted text of `e` at the given counters. */
  function FormatXq(e: Xq, level: int, extra: int, rules: Rules): string
    decreases e, 1
  {
    match e
    case XqVariable(v) => LineOf(level, extra, v)
    case XqConstant(c) => LineOf(level, extra, c)
    case XqAbsolutePath(ap) => LineOf(level, extra, ApString(ap))
    case XqParentheses(a) =>
      RTrimmed(Indented(level, extra, "(") + LTrimmed(FormatXq(a, level, extra + 1, rules)))
      + ")" + LineSeparator
    case XqPair(a, b) =>
      RTrimmed(FormatXq(a, level, extra, rules)) + "," + LineSeparator + FormatXq(b, level, extra, rules)
    case XqChildren(a, rp) =>
      RTrimmed(FormatXq(a, level, extra, rules)) + "/" + RpString(rp) + LineSeparator
    case XqAll(a, rp) =>
      RTrimmed(FormatXq(a, level, extra, rules)) + "//" + RpString(rp) + LineSeparator
    case XqTag(o, a, c) =>
      TagText(LineOf(level, extra, "<" + o + ">{"), FormatXq(a, level + 1, extra, rules),
              "}</" + c + ">", level, extra, rules)
    case XqJoin(a, b, lt, rt) =>
      var x := extra + |"join("|;
      JoinText(FormatXq(a, level, x, rules), FormatXq(b, level, x, rules), TagListText(lt, level, x),
               TagListText(rt, level, x), level, extra)
    case XqLet(bs, body) =>
      FormatClause("let ", " := ", bs, level, extra, rules) + FormatXq(body, level + 1, extra, rules)
    case XqFLWR(fs, ls, w, ret) =>
      FormatClause("for ", " in ", fs, level, extra, rules)
      + (if ls != [] then FormatClause("let ", " := ", ls, level, extra, rules) else "")
      + FormatWhere(w, level, extra, rules)
      + ReturnText(ret, level, extra, rules)
  }

  /** A tag construction: the opening line, the body (formatted one level
      deeper) and the closing tag, either run together on one line or with
      the body and the closing tag on lines of their own. Run together, the
      source trims the bare closing tag, which leaves the line open; the
      corrected rule trims the closing tag's line, which ends it. */
  function TagText(open: string, body: string, close: string, level: int, extra: int, rules: Rules): string
  {
    if Utf16Length(JavaTrim(body)) <= MaxInline then
      RTrimmed(open) + JavaTrim(body)
      + (if rules == Corrected then LTrimmed(LineOf(level, extra, close)) else LTrimmed(close))
    else open + RTrimmed(body) + LineSeparator + LineOf(level, extra, close)
  }

  /** `[a, b, c]` on a line of its own. */
  function TagListText(tags: seq<string>, level: int, extra: int): string
  {
    LineOf(level, extra, "[" + Join(tags, ", ") + "]")
  }

  function FormatWhere(w: Option<Cond>, level: int, extra: int, rules: Rules): string
    decreases w
  {
    match w
    case None => ""
    case Some(c) => Indented(level, extra, "where ") + LTrimmed(FormatCond(c, level, extra + |"where "|, rules))
  }

  function ReturnText(ret: Xq, level: int, extra: int, rules: Rules): string
    decreases ret, 2
  {
    Indented(level, extra, "return ") + LTrimmed(FormatXq(ret, level, extra + |"return "|, rules))
  }

  /** A `for`, `let` or `some` clause: the keyword, then one binding per
      line, the later ones aligned under the first. */
  function FormatClause(keyword: string, word: string, bs: seq<Binding>, level: int, extra: int,
                        rules: Rules): string
    decreases bs, 1
  {
    Indented(level, extra, keyword) + FormatItems(bs, word, level, extra + |keyword|, |bs|, rules)
  }

  /** The lines of the bindings `bs`, the first `|bs|` of a clause of `n`. */
  function FormatItems(bs: seq<Binding>, word: string, level: int, extra: int, n: nat, rules: Rules): string
    decreases bs, 0
  {
    if bs == [] then ""
    else
      var k := |bs| - 1;
      FormatItems(bs[..k], word, level, extra, n, rules) + ItemText(bs[k], word, level, extra, k == 0, k == n - 1, rules)
  }

  /** One binding: `$x in ` (or `$x := `), indented unless it follows the
      keyword, then the trimmed source, a comma unless it is the last one,
      and the end of the line. */
  function ItemText(b: Binding, word: string, level: int, extra: int, first: bool, last: bool,
                    rules: Rules): string
    decreases b
  {
    var s := b.variable + word;
    (if first then s else Indented(level, extra, s))
    + JavaTrim(FormatXq(b.source, level, extra + |s|, rules))
    + (if last then "" else ",") + LineSeparator
  }

  /** The formatted text of condition `c` at the given counters. */
  function FormatCond(c: Cond, level: int, extra: int, rules: Rules): string
    decreases c, 0
  {
    match c
    case CondValueEquality(a, b) =>
      ComparisonText("= ", FormatXq(a, level, extra + 2, rules), FormatXq(b, level, extra + 2, rules), level, extra)
    case CondIdentityEquality(a, b) =>
      ComparisonText("== ", FormatXq(a, level, extra + 3, rules), FormatXq(b, level, extra + 3, rules), level, extra)
    case CondEmpty(a) =>
      Indented(level, extra, "empty(") + JavaTrim(FormatXq(a, level, extra + |"empty("|, rules))
      + ")" + LineSeparator
    case CondSome(bs, d) =>
      FormatClause("some ", " in ", bs, level, extra, rules) + Indented(level, extra, "satisfies ")
      + LTrimmed(FormatCond(d, level, extra + |"satisfies "|, rules))
    case CondParentheses(d) =>
      ParenthesesText(d, level, extra, rules) + (if rules == Corrected then LineSeparator else "")
    case CondAnd(a, b) =>
      FormatCond(a, level, extra + 4, rules) + Indented(level, extra, "and ")
      + LTrimmed(FormatCond(b, level, extra + 4, rules))
    case CondOr(a, b) =>
      FormatCond(a, level, extra + 3, rules) + Indented(level, extra, "or ")
      + LTrimmed(FormatCond(b, level, extra + 3, rules))
    case CondNot(d) =>
      Indented(level, extra, "not ") + LTrimmed(FormatCond(d, level, extra + |"not "|, rules))
  }

  /** One unfolding of `FormatXq` on a join. */
  lemma JoinUnfold(e: Xq, level: int, extra: int, rules: Rules)
    requires e.XqJoin?
    ensures var x := extra + |"join("|;
            FormatXq(e, level, extra, rules)
            == JoinText(FormatXq(e.left, level, x, rules), FormatXq(e.right, level, x, rules),
                        TagListText(e.leftTags, level, x), TagListText(e.rightTags, level, x), level, extra)
  {
  }

  /** `join(` with the trimmed left operand, then the right operand and the
      two tag lists, each separated by a comma that ends the trimmed text
      before it, and the closing parenthesis on the last line. */
  function JoinText(left: string, right: string, leftTags: string, rightTags: string,
                    level: int, extra: int): string
  {
    var q1 := Indented(level, extra, "join(") + JavaTrim(left) + "," + LineSeparator + right;
    var q2 := RTrimmed(q1) + "," + LineSeparator + leftTags;
    var q3 := RTrimmed(q2) + "," + LineSeparator + rightTags;
    RTrimmed(q3) + ")" + LineSeparator
  }

  /** `(`, the condition one space further in, and `)` after its trimmed
      text; the source stops here, without ending the line. */
  function ParenthesesText(d: Cond, level: int, extra: int, rules: Rules): string
    decreases d, 1
  {
    RTrimmed(Indented(level, extra, "(") + LTrimmed(FormatCond(d, level, extra + 1, rules))) + ")"
  }

  /** `lhs = rhs` (or `==`) on one line when both sides are short together
      (in UTF-16 code units, as `String.length` counts), otherwise the
      operator starts the line of the right-hand side. */
  function ComparisonText(op: string, lhs: string, rhs: string, level: int, extra: int): string
  {
    if Utf16Length(JavaTrim(lhs)) + Utf16Length(JavaTrim(rhs)) <= MaxInline then RTrimmed(lhs) + " " + op + LTrimmed(rhs)
    else lhs + Indented(level, extra, op) + LTrimmed(rhs)
  }

  /* ------------------------------------------------------------- layout */

  /** A tag construction is run together on one line exactly when its
      trimmed body is at most `MaxInline` UTF-16 code units long: then it is
      the indented opening tag, the trimmed body and the closing tag, and
      only the corrected rule ends the line there; otherwise the body keeps
      its own lines and the closing tag gets a line of its own. */
  lemma TagLayout(e: Xq, level: int, extra: int, rules: Rules)
    requires e.XqTag?
    ensures var r := FormatXq(e, level, extra, rules);
      var body := FormatXq(e.body, level + 1, extra, rules);
      var open, close := "<" + e.openTag + ">{", "}</" + e.closeTag + ">";
      var inline := Utf16Length(JavaTrim(body)) <= MaxInline;
      (inline ==> r == Indented(level, extra, open) + JavaTrim(body) + close
                       + (if rules == Corrected then LineSeparator else "")) &&
      (!inline ==> r == LineOf(level, extra, open) + RTrimmed(body) + LineSeparator + LineOf(level, extra, close))
  {
    TagTextLayout("<" + e.openTag + ">{", FormatXq(e.body, level + 1, extra, rules), "}</" + e.closeTag + ">",
                  level, extra, rules);
  }

  lemma TagTextLayout(open: string, body: string, close: string, level: int, extra: int, rules: Rules)
    requires Token(close) && open != [] && !IsWhitespace(open[|open| - 1])
    ensures var r := TagText(LineOf(level, extra, open), body, close, level, extra, rules);
      var inline := Utf16Length(JavaTrim(body)) <= MaxInline;
      (inline ==> r == Indented(level, extra, open) + JavaTrim(body) + close
                       + (if rules == Corrected then LineSeparator else "")) &&
      (!inline ==> r == LineOf(level, extra, open) + RTrimmed(body) + LineSeparator + LineOf(level, extra, close))
  {
    if Utf16Length(JavaTrim(body)) <= MaxInline {
      RTrimmedLine(level, extra, open);
      if rules == Corrected {
        LTrimmedLine(level, extra, close);
      } else {
        LTrimmedNonBlank(close);
      }
    }
  }

  /** As written, a tag run together on one line ends with `>`, not with a
      line break. */
  lemma TagAsWrittenLeavesLineOpen(o: string, a: Xq, c: string, level: int, extra: int)
    ensures var body := FormatXq(a, level + 1, extra, AsWritten);
      var r := FormatXq(XqTag(o, a, c), level, extra, AsWritten);
      Utf16Length(JavaTrim(body)) <= MaxInline ==> r != [] && r[|r| - 1] == '>' && !EndsLine(r)
  {
    LTrimmedNonBlank("}</" + c + ">");
  }

  /** As written, a parenthesized condition ends with `)`, not with a line
      break, so the text that follows it (`and`, `or`, `return`, ...)
      continues its line. */
  lemma ParenthesesAsWrittenLeaveLineOpen(d: Cond, level: int, extra: int)
    ensures var r := FormatCond(CondParentheses(d), level, extra, AsWritten);
      r != [] && r[|r| - 1] == ')' && !EndsLine(r)
  {
  }

  /* ----------------------------------------------------------- line ends */

  /** Leading spaces are removed by `lTrim`. */
  lemma {:induction false} LTrimmedSpaces(k: int, t: string)
    ensures LTrimmed(Spaces(k) + t) == LTrimmed(t)
    decreases k
  {
    if k > 0 {
      assert Spaces(k) + t == Spaces(k - 1) + (" " + t);
      LTrimmedSpaces(k - 1, " " + t);
      var u := " " + t;
      assert u[1..] == t;
      assert Whitespace()(u[0]);
      assert LTrimBy(u, Whitespace()) == LTrimBy(u[1..], Whitespace());
    } else {
      assert Spaces(k) + t == t;
    }
  }

  /** `lTrim` of a line whose text starts with a visible character is that
      text and the line break. */
  lemma LTrimmedLine(level: int, extra: int, s: string)
    requires Token(s)
    ensures LTrimmed(LineOf(level, extra, s)) == s + LineSeparator
  {
    LTrimmedSpaces(SpacesPerLevel * level + extra, s + LineSeparator);
    LTrimmedNonBlank(s + LineSeparator);
  }

  /** A token as the grammar produces it (variables, string constants):
      non-empty, and starting with a visible character. */
  predicate Token(s: string)
  {
    s != [] && !IsWhitespace(s[0])
  }

  /** Every variable and constant of the query is a token. */
  predicate WellFormed(e: Xq)
    decreases e
  {
    match e
    case XqVariable(v) => Token(v)
    case XqConstant(c) => Token(c)
    case XqAbsolutePath(_) => true
    case XqParentheses(a) => WellFormed(a)
    case XqPair(a, b) => WellFormed(a) && WellFormed(b)
    case XqChildren(a, _) => WellFormed(a)
    case XqAll(a, _) => WellFormed(a)
    case XqTag(_, a, _) => WellFormed(a)
    case XqJoin(a, b, _, _) => WellFormed(a) && WellFormed(b)
    case XqLet(bs, body) => WellFormedBindings(bs) && WellFormed(body)
    case XqFLWR(fs, ls, w, ret) =>
      WellFormedBindings(fs) && WellFormedBindings(ls)
      && (w.Some? ==> WellFormedCond(w.value)) && WellFormed(ret)
  }

  predicate WellFormedBindings(bs: seq<Binding>)
    decreases bs
  {
    forall i :: 0 <= i < |bs| ==> WellFormed(bs[i].source)
  }

  predicate WellFormedCond(c: Cond)
    decreases c
  {
    match c
    case CondValueEquality(a, b) => WellFormed(a) && WellFormed(b)
    case CondIdentityEquality(a, b) => WellFormed(a) && WellFormed(b)
    case CondEmpty(a) => WellFormed(a)
    case CondSome(bs, d) => WellFormedBindings(bs) && WellFormedCond(d)
    case CondParentheses(d) => WellFormedCond(d)
    case CondAnd(a, b) => WellFormedCond(a) && WellFormedCond(b)
    case CondOr(a, b) => WellFormedCond(a) && WellFormedCond(b)
    case CondNot(d) => WellFormedCond(d)
  }

  /** `s` holds some visible text and ends with a line break. */
  predicate EndsLine(s: string)
  {
    s != [] && s[|s| - 1] == '\n' && LTrimmed(s) != []
  }

  lemma EndsLineAt(s: string, i: int)
    requires 0 <= i < |s| && !IsWhitespace(s[i]) && s[|s| - 1] == '\n'
    ensures EndsLine(s)
  {
    LTrimBySpec(s, Whitespace());
    assert !Whitespace()(s[i]);
  }

  /** Whatever precedes a text that ends a line, the whole still does. */
  lemma EndsLineAppend(a: string, b: string)
    requires EndsLine(b)
    ensures EndsLine(a + b)
  {
    var r := LTrimmed(b);
    LTrimBySpec(b, Whitespace());
    var i := |b| - |r|;
    assert (a + b)[|a| + i] == r[0];
    EndsLineAt(a + b, |a| + i);
  }

  lemma EndsLineLTrimmed(s: string)
    requires EndsLine(s)
    ensures EndsLine(LTrimmed(s))
  {
    LTrimBySpec(s, Whitespace());
    LTrimByIdempotent(s, Whitespace());
  }

  lemma EndsLineParen(t: string)
    ensures EndsLine(t + ")" + LineSeparator)
  {
    EndsLineAt(t + ")" + LineSeparator, |t|);
  }

  /** A prefix followed by a line-ending text without its indentation. */
  lemma EndsLineTail(a: string, t: string)
    requires EndsLine(t)
    ensures EndsLine(a + LTrimmed(t))
  {
    EndsLineLTrimmed(t);
    EndsLineAppend(a, LTrimmed(t));
  }

  lemma EndsLineOfToken(level: int, extra: int, s: string)
    requires Token(s)
    ensures EndsLine(LineOf(level, extra, s))
  {
    LTrimmedLine(level, extra, s);
  }

  /** Under the corrected rules, every query whose variables and constants
      are tokens is formatted as text that ends its last line. */
  lemma {:induction false} XqEndsLine(e: Xq, level: int, extra: int)
    requires WellFormed(e)
    ensures EndsLine(FormatXq(e, level, extra, Corrected))
    decreases e, 1
  {
    match e
    case XqVariable(v) => EndsLineOfToken(level, extra, v);
    case XqConstant(c) => EndsLineOfToken(level, extra, c);
    case XqAbsolutePath(ap) =>
      assert ApString(ap)[0] == 'd';
      EndsLineOfToken(level, extra, ApString(ap));
    case XqParentheses(a) =>
      var t := RTrimmed(Indented(level, extra, "(") + LTrimmed(FormatXq(a, level, extra + 1, Corrected)));
      EndsLineAt(t + ")" + LineSeparator, |t|);
    case XqPair(a, b) =>
      XqEndsLine(b, level, extra);
      EndsLineAppend(RTrimmed(FormatXq(a, level, extra, Corrected)) + "," + LineSeparator, FormatXq(b, level, extra, Corrected));
    case XqChildren(a, rp) =>
      var t := RTrimmed(FormatXq(a, level, extra, Corrected));
      EndsLineAt(t + "/" + RpString(rp) + LineSeparator, |t|);
    case XqAll(a, rp) =>
      var t := RTrimmed(FormatXq(a, level, extra, Corrected));
      EndsLineAt(t + "//" + RpString(rp) + LineSeparator, |t|);
    case XqTag(o, a, c) => TagEndsLine(e, level, extra);
    case XqJoin(_, _, _, _) => JoinEndsLine(e, level, extra);
    case XqLet(bs, body) =>
      XqEndsLine(body, level + 1, extra);
      EndsLineAppend(FormatClause("let ", " := ", bs, level, extra, Corrected), FormatXq(body, level + 1, extra, Corrected));
    case XqFLWR(fs, ls, w, ret) =>
      ReturnEndsLine(ret, level, extra);
      EndsLineAppend(FormatClause("for ", " in ", fs, level, extra, Corrected)
                     + (if ls != [] then FormatClause("let ", " := ", ls, level, extra, Corrected) else "")
                     + FormatWhere(w, level, extra, Corrected), ReturnText(ret, level, extra, Corrected));
  }

  lemma TagEndsLine(e: Xq, level: int, extra: int)
    requires e.XqTag?
    ensures EndsLine(FormatXq(e, level, extra, Corrected))
  {
    var close := "}</" + e.closeTag + ">";
    var open := LineOf(level, extra, "<" + e.openTag + ">{");
    var body := FormatXq(e.body, level + 1, extra, Corrected);
    EndsLineOfToken(level, extra, close);
    if Utf16Length(JavaTrim(body)) <= MaxInline {
      EndsLineLTrimmed(LineOf(level, extra, close));
      EndsLineAppend(RTrimmed(open) + JavaTrim(body), LTrimmed(LineOf(level, extra, close)));
    } else {
      EndsLineAppend(open + RTrimmed(body) + LineSeparator, LineOf(level, extra, close));
    }
  }

  lemma JoinEndsLine(e: Xq, level: int, extra: int)
    requires e.XqJoin?
    ensures EndsLine(FormatXq(e, level, extra, Corrected))
  {
    var x := extra + |"join("|;
    JoinTextEndsLine(FormatXq(e.left, level, x, Corrected), FormatXq(e.right, level, x, Corrected),
                     TagListText(e.leftTags, level, x), TagListText(e.rightTags, level, x), level, extra);
  }

  lemma JoinTextEndsLine(left: string, right: string, leftTags: string, rightTags: string,
                         level: int, extra: int)
    ensures EndsLine(JoinText(left, right, leftTags, rightTags, level, extra))
  {
    var q1 := Indented(level, extra, "join(") + JavaTrim(left) + "," + LineSeparator + right;
    var q2 := RTrimmed(q1) + "," + LineSeparator + leftTags;
    var q3 := RTrimmed(q2) + "," + LineSeparator + rightTags;
    EndsLineAt(RTrimmed(q3) + ")" + LineSeparator, |RTrimmed(q3)|);
  }

  lemma {:induction false} ReturnEndsLine(ret: Xq, level: int, extra: int)
    requires WellFormed(ret)
    ensures EndsLine(ReturnText(ret, level, extra, Corrected))
    decreases ret, 2
  {
    XqEndsLine(ret, level, extra + |"return "|);
    EndsLineLTrimmed(FormatXq(ret, level, extra + |"return "|, Corrected));
    EndsLineAppend(Indented(level, extra, "return "), LTrimmed(FormatXq(ret, level, extra + |"return "|, Corrected)));
  }

  /** Under the corrected rules, every condition whose variables and
      constants are tokens is formatted as text that ends its last line. */
  lemma {:induction false} CondEndsLine(c: Cond, level: int, extra: int)
    requires WellFormedCond(c)
    ensures EndsLine(FormatCond(c, level, extra, Corrected))
    decreases c, 1
  {
    match c
    case CondValueEquality(_, _) => ValueEqualityEndsLine(c, level, extra);
    case CondIdentityEquality(_, _) => IdentityEqualityEndsLine(c, level, extra);
    case CondEmpty(_) => EmptyEndsLine(c, level, extra);
    case CondSome(_, _) => SomeEndsLine(c, level, extra);
    case CondParentheses(_) => ParenthesesEndsLine(c, level, extra);
    case CondAnd(_, _) => AndEndsLine(c, level, extra);
    case CondOr(_, _) => OrEndsLine(c, level, extra);
    case CondNot(_) => NotEndsLine(c, level, extra);
  }

  lemma {:induction false} SomeEndsLine(c: Cond, level: int, extra: int)
    requires c.CondSome? && WellFormedCond(c)
    ensures EndsLine(FormatCond(c, level, extra, Corrected))
    decreases c, 0
  {
    CondEndsLine(c.cond, level, extra + |"satisfies "|);
    EndsLineTail(FormatClause("some ", " in ", c.bindings, level, extra, Corrected) + Indented(level, extra, "satisfies "),
                 FormatCond(c.cond, level, extra + |"satisfies "|, Corrected));
  }

  lemma {:induction false} AndEndsLine(c: Cond, level: int, extra: int)
    requires c.CondAnd? && WellFormedCond(c)
    ensures EndsLine(FormatCond(c, level, extra, Corrected))
    decreases c, 0
  {
    CondEndsLine(c.right, level, extra + 4);
    EndsLineTail(FormatCond(c.left, level, extra + 4, Corrected) + Indented(level, extra, "and "), FormatCond(c.right, level, extra + 4, Corrected));
  }

  lemma {:induction false} OrEndsLine(c: Cond, level: int, extra: int)
    requires c.CondOr? && WellFormedCond(c)
    ensures EndsLine(FormatCond(c, level, extra, Corrected))
    decreases c, 0
  {
    CondEndsLine(c.right, level, extra + 3);
    EndsLineTail(FormatCond(c.left, level, extra + 3, Corrected) + Indented(level, extra, "or "), FormatCond(c.right, level, extra + 3, Corrected));
  }

  lemma {:induction false} NotEndsLine(c: Cond, level: int, extra: int)
    requires c.CondNot? && WellFormedCond(c)
    ensures EndsLine(FormatCond(c, level, extra, Corrected))
    decreases c, 0
  {
    CondEndsLine(c.inner, level, extra + |"not "|);
    EndsLineTail(Indented(level, extra, "not "), FormatCond(c.inner, level, extra + |"not "|, Corrected));
  }

  lemma ValueEqualityEndsLine(c: Cond, level: int, extra: int)
    requires c.CondValueEquality? && WellFormedCond(c)
    ensures EndsLine(FormatCond(c, level, extra, Corrected))
  {
    XqEndsLine(c.rhs, level, extra + 2);
    ComparisonEndsLine("= ", FormatXq(c.lhs, level, extra + 2, Corrected), FormatXq(c.rhs, level, extra + 2, Corrected), level, extra);
  }

  lemma IdentityEqualityEndsLine(c: Cond, level: int, extra: int)
    requires c.CondIdentityEquality? && WellFormedCond(c)
    ensures EndsLine(FormatCond(c, level, extra, Corrected))
  {
    XqEndsLine(c.rhs, level, extra + 3);
    ComparisonEndsLine("== ", FormatXq(c.lhs, level, extra + 3, Corrected), FormatXq(c.rhs, level, extra + 3, Corrected), level, extra);
  }

  lemma ComparisonEndsLine(op: string, lhs: string, rhs: string, level: int, extra: int)
    requires EndsLine(rhs)
    ensures EndsLine(ComparisonText(op, lhs, rhs, level, extra))
  {
    if Utf16Length(JavaTrim(lhs)) + Utf16Length(JavaTrim(rhs)) <= MaxInline {
      EndsLineTail(RTrimmed(lhs) + " " + op, rhs);
    } else {
      EndsLineTail(lhs + Indented(level, extra, op), rhs);
    }
  }

  lemma EmptyEndsLine(c: Cond, level: int, extra: int)
    requires c.CondEmpty?
    ensures EndsLine(FormatCond(c, level, extra, Corrected))
  {
    EndsLineParen(Indented(level, extra, "empty(") + JavaTrim(FormatXq(c.xq, level, extra + |"empty("|, Corrected)));
  }

  lemma ParenthesesEndsLine(c: Cond, level: int, extra: int)
    requires c.CondParentheses?
    ensures EndsLine(FormatCond(c, level, extra, Corrected))
  {
    EndsLineParen(RTrimmed(Indented(level, extra, "(") + LTrimmed(FormatCond(c.inner, level, extra + 1, Corrected))));
  }

  /* ------------------------------------------------------------ the class */

  class XQueryFormatter {
    /** Current level of indentation. */
    var level: int
    /** Extra spaces after the indentation of the level. */
    var extraSpaces: int

    constructor()
      ensures level == 0 && extraSpaces == 0
    {
      level := 0;
      extraSpaces := 0;
    }

    /** `s` after `SpacesPerLevel * level + extraSpaces` spaces. */
    method Indent(s: string) returns (q: string)
      ensures q == Indented(level, extraSpaces, s)
    {
      var spaces := SpacesPerLevel * level + extraSpaces;
      q := "";
      var i := 0;
      while i < spaces
        invariant 0 <= i && (i <= spaces || i == 0)
        invariant q == Spaces(i)
      {
        q := q + " ";
        i := i + 1;
      }
      q := q + s;
    }

    /** `s` as a whole line at the current counters. */
    method Line(s: string) returns (q: string)
      ensures q == LineOf(level, extraSpaces, s)
    {
      q := Indent(s + LineSeparator);
    }

    /** `s` without its leading whitespace. */
    method LTrim(s: string) returns (r: string)
      ensures r == LTrimmed(s)
    {
      var i := 0;
      while i < |s| && IsWhitespace(s[i])
        invariant 0 <= i <= |s|
        invariant LTrimmed(s[i..]) == LTrimmed(s)
      {
        assert s[i..][1..] == s[i + 1..];
        i := i + 1;
      }
      r := s[i..];
    }

    /** `s` without its trailing whitespace. */
    method RTrim(s: string) returns (r: string)
      ensures r == RTrimmed(s)
    {
      var i := |s| - 1;
      assert s[..i + 1] == s;
      while i >= 0 && IsWhitespace(s[i])
        invariant -1 <= i < |s|
        invariant RTrimmed(s[..i + 1]) == RTrimmed(s)
      {
        assert s[..i + 1][..i] == s[..i];
        i := i - 1;
      }
      r := s[..i + 1];
    }

    /* XQuery rules: each one produces the text its function specifies and
       leaves both counters as it found them. */

    method VisitXq(e: Xq) returns (q: string)
      modifies this
      ensures q == FormatXq(e, old(level), old(extraSpaces), AsWritten)
      ensures level == old(level) && extraSpaces == old(extraSpaces)
      decreases e, 2
    {
      match e
      case XqVariable(v) => q := Line(v);
      case XqConstant(c) => q := Line(c);
      case XqAbsolutePath(ap) => q := Line(ApString(ap));
      case XqParentheses(_) => q := VisitXqParentheses(e);
      case XqPair(_, _) => q := VisitXqPair(e);
      case XqChildren(_, _) => q := VisitXqChildren(e);
      case XqAll(_, _) => q := VisitXqAll(e);
      case XqTag(_, _, _) => q := VisitXqTag(e);
      case XqJoin(_, _, _, _) => q := VisitXqJoin(e);
      case XqLet(_, _) => q := VisitXqLet(e);
      case XqFLWR(_, _, _, _) => q := VisitXqFLWR(e);
    }

    method VisitXqParentheses(e: Xq) returns (q: string)
      requires e.XqParentheses?
      modifies this
      ensures q == FormatXq(e, old(level), old(extraSpaces), AsWritten)
      ensures level == old(level) && extraSpaces == old(extraSpaces)
      decreases e, 1
    {
      q := Indent("(");
      extraSpaces := extraSpaces + 1;
      var inner := VisitXq(e.inner);
      var t := LTrim(inner);
      q := q + t;
      extraSpaces := extraSpaces - 1;
      q := RTrim(q);
      q := q + ")" + LineSeparator;
    }

    method VisitXqPair(e: Xq) returns (q: string)
      requires e.XqPair?
      modifies this
      ensures q == FormatXq(e, old(level), old(extraSpaces), AsWritten)
      ensures level == old(level) && extraSpaces == old(extraSpaces)
      decreases e, 1
    {
      q := VisitXq(e.left);
      q := RTrim(q);
      q := q + "," + LineSeparator;
      var b := VisitXq(e.right);
      q := q + b;
    }

    method VisitXqChildren(e: Xq) returns (q: string)
      requires e.XqChildren?
      modifies this
      ensures q == FormatXq(e, old(level), old(extraSpaces), AsWritten)
      ensures level == old(level) && extraSpaces == old(extraSpaces)
      decreases e, 1
    {
      q := VisitXq(e.xq);
      q := RTrim(q);
      q := q + "/";
      q := q + RpString(e.rp) + LineSeparator;
    }

    method VisitXqAll(e: Xq) returns (q: string)
      requires e.XqAll?
      modifies this
      ensures q == FormatXq(e, old(level), old(extraSpaces), AsWritten)
      ensures level == old(level) && extraSpaces == old(extraSpaces)
      decreases e, 1
    {
      q := VisitXq(e.xq);
      q := RTrim(q);
      q := q + "//";
      q := q + RpString(e.rp) + LineSeparator;
    }

    method VisitXqTag(e: Xq) returns (q: string)
      requires e.XqTag?
      modifies this
      ensures q == FormatXq(e, old(level), old(extraSpaces), AsWritten)
      ensures level == old(level) && extraSpaces == old(extraSpaces)
      decreases e, 1
    {
      q := Line("<" + e.openTag + ">{");
      level := level + 1;
      var xq := VisitXq(e.body);
      level := level - 1;
      var endTag := "}</" + e.closeTag + ">";
      if Utf16Length(JavaTrim(xq)) <= MaxInline {
        var open := RTrim(q);
        var close := LTrim(endTag);
        q := open + JavaTrim(xq) + close;
      } else {
        var body := RTrim(xq);
        var close := Line(endTag);
        q := q + body + LineSeparator + close;
      }
    }

    method VisitXqJoin(e: Xq) returns (q: string)
      requires e.XqJoin?
      modifies this
      ensures q == FormatXq(e, old(level), old(extraSpaces), AsWritten)
      ensures level == old(level) && extraSpaces == old(extraSpaces)
      decreases e, 1
    {
      ghost var x := extraSpaces;
      var join := "join(";
      q := Indent(join);
      extraSpaces := extraSpaces + |join|;
      var a := VisitXq(e.left);
      q := q + JavaTrim(a);
      q := q + "," + LineSeparator;
      var b := VisitXq(e.right);
      q := q + b;
      q := RTrim(q);
      q := q + "," + LineSeparator;
      var lt := VisitTagList(e.leftTags);
      q := q + lt;
      q := RTrim(q);
      q := q + "," + LineSeparator;
      var rt := VisitTagList(e.rightTags);
      q := q + rt;
      q := RTrim(q);
      q := q + ")" + LineSeparator;
      extraSpaces := extraSpaces - |join|;
      assert q == JoinText(a, b, lt, rt, level, x);
      JoinUnfold(e, level, x, AsWritten);
    }

    method VisitXqLet(e: Xq) returns (q: string)
      requires e.XqLet?
      modifies this
      ensures q == FormatXq(e, old(level), old(extraSpaces), AsWritten)
      ensures level == old(level) && extraSpaces == old(extraSpaces)
      decreases e, 1
    {
      q := VisitLetClause(e.bindings);
      level := level + 1;
      var body := VisitXq(e.body);
      q := q + body;
      level := level - 1;
    }

    /** `for`, then `let` and `where` when present, then `return`. */
    method VisitXqFLWR(e: Xq) returns (q: string)
      requires e.XqFLWR?
      modifies this
      ensures q == FormatXq(e, old(level), old(extraSpaces), AsWritten)
      ensures level == old(level) && extraSpaces == old(extraSpaces)
      decreases e, 1
    {
      q := VisitForClause(e.forBindings);
      if e.letBindings != [] {
        var l := VisitLetClause(e.letBindings);
        q := q + l;
      }
      if e.where.Some? {
        var w := VisitWhereClause(e.where.value);
        q := q + w;
      }
      var r := VisitReturnClause(e.ret);
      q := q + r;
    }

    method VisitForClause(bs: seq<Binding>) returns (q: string)
      modifies this
      ensures q == FormatClause("for ", " in ", bs, old(level), old(extraSpaces), AsWritten)
      ensures level == old(level) && extraSpaces == old(extraSpaces)
      decreases bs, 2
    {
      q := VisitClause("for ", " in ", bs);
    }

    method VisitLetClause(bs: seq<Binding>) returns (q: string)
      modifies this
      ensures q == FormatClause("let ", " := ", bs, old(level), old(extraSpaces), AsWritten)
      ensures level == old(level) && extraSpaces == old(extraSpaces)
      decreases bs, 2
    {
      q := VisitClause("let ", " := ", bs);
    }

    /** The loop shared by the `for`, `let` and `some` clauses. */
    method VisitClause(keyword: string, word: string, bs: seq<Binding>) returns (q: string)
      modifies this
      ensures q == FormatClause(keyword, word, bs, old(level), old(extraSpaces), AsWritten)
      ensures level == old(level) && extraSpaces == old(extraSpaces)
      decreases bs, 1
    {
      ghost var l0, x0 := level, extraSpaces + |keyword|;
      q := Indent(keyword);
      extraSpaces := extraSpaces + |keyword|;
      var items := "";
      var i := 0;
      while i < |bs|
        invariant 0 <= i <= |bs|
        invariant level == l0 && extraSpaces == x0
        invariant items == FormatItems(bs[..i], word, l0, x0, |bs|, AsWritten)
      {
        ItemsStep(bs, i, word, l0, x0, AsWritten);
        var item := VisitBinding(bs[i], word, i == 0, i == |bs| - 1);
        items := items + item;
        i := i + 1;
      }
      assert bs[..i] == bs;
      q := q + items;
      extraSpaces := extraSpaces - |keyword|;
    }

    /** One binding of a clause, at the counters of the clause body. */
    method VisitBinding(b: Binding, word: string, first: bool, last: bool) returns (item: string)
      modifies this
      ensures item == ItemText(b, word, old(level), old(extraSpaces), first, last, AsWritten)
      ensures level == old(level) && extraSpaces == old(extraSpaces)
      decreases b
    {
      var s := b.variable + word;
      if !first {
        item := Indent(s);
      } else {
        item := s;
      }
      extraSpaces := extraSpaces + |s|;
      var src := VisitXq(b.source);
      item := item + JavaTrim(src);
      if !last {
        item := item + ",";
      }
      item := item + LineSeparator;
      extraSpaces := extraSpaces - |s|;
    }

    method VisitWhereClause(c: Cond) returns (q: string)
      modifies this
      ensures q == FormatWhere(Some(c), old(level), old(extraSpaces), AsWritten)
      ensures level == old(level) && extraSpaces == old(extraSpaces)
      decreases c, 3
    {
      var where := "where ";
      q := Indent(where);
      extraSpaces := extraSpaces + |where|;
      var t := VisitCond(c);
      t := LTrim(t);
      q := q + t;
      extraSpaces := extraSpaces - |where|;
    }

    method VisitReturnClause(e: Xq) returns (q: string)
      modifies this
      ensures q == ReturnText(e, old(level), old(extraSpaces), AsWritten)
      ensures level == old(level) && extraSpaces == old(extraSpaces)
      decreases e, 3
    {
      var r := "return ";
      q := Indent(r);
      extraSpaces := extraSpaces + |r|;
      var t := VisitXq(e);
      t := LTrim(t);
      q := q + t;
      extraSpaces := extraSpaces - |r|;
    }

    /** The tag names between brackets, separated by `, `, as one line. */
    method VisitTagList(tags: seq<string>) returns (q: string)
      ensures q == LineOf(level, extraSpaces, "[" + Join(tags, ", ") + "]")
    {
      q := "[";
      var i := 0;
      while i < |tags|
        invariant 0 <= i <= |tags|
        invariant q == "[" + Join(tags[..i], ", ") + (if 0 < i < |tags| then ", " else "")
      {
        assert tags[..i + 1][..i] == tags[..i];
        q := q + tags[i];
        if i != |tags| - 1 {
          q := q + ", ";
        }
        i := i + 1;
      }
      assert tags[..i] == tags;
      q := q + "]";
      q := Line(q);
    }

    /* Condition rules. */

    method VisitCond(c: Cond) returns (q: string)
      modifies this
      ensures q == FormatCond(c, old(level), old(extraSpaces), AsWritten)
      ensures level == old(level) && extraSpaces == old(extraSpaces)
      decreases c, 2
    {
      match c
      case CondValueEquality(_, _) => q := VisitCondValueEquality(c);
      case CondIdentityEquality(_, _) => q := VisitCondIdentityEquality(c);
      case CondEmpty(_) => q := VisitCondEmpty(c);
      case CondSome(_, _) => q := VisitCondSome(c);
      case CondParentheses(_) => q := VisitCondParentheses(c);
      case CondAnd(_, _) => q := VisitCondAnd(c);
      case CondOr(_, _) => q := VisitCondOr(c);
      case CondNot(_) => q := VisitCondNot(c);
    }

    method VisitCondValueEquality(c: Cond) returns (q: string)
      requires c.CondValueEquality?
      modifies this
      ensures q == FormatCond(c, old(level), old(extraSpaces), AsWritten)
      ensures level == old(level) && extraSpaces == old(extraSpaces)
      decreases c, 1
    {
      var eq := "= ";
      extraSpaces := extraSpaces + |eq|;
      var xq1 := VisitXq(c.lhs);
      var xq2 := VisitXq(c.rhs);
      extraSpaces := extraSpaces - |eq|;
      if Utf16Length(JavaTrim(xq1)) + Utf16Length(JavaTrim(xq2)) <= MaxInline {
        var l := RTrim(xq1);
        var r := LTrim(xq2);
        q := l + " " + eq + r;
      } else {
        var i := Indent(eq);
        var r := LTrim(xq2);
        q := xq1 + i + r;
      }
    }

    method VisitCondIdentityEquality(c: Cond) returns (q: string)
      requires c.CondIdentityEquality?
      modifies this
      ensures q == FormatCond(c, old(level), old(extraSpaces), AsWritten)
      ensures level == old(level) && extraSpaces == old(extraSpaces)
      decreases c, 1
    {
      var same := "== ";
      extraSpaces := extraSpaces + |same|;
      var xq1 := VisitXq(c.lhs);
      var xq2 := VisitXq(c.rhs);
      extraSpaces := extraSpaces - |same|;
      if Utf16Length(JavaTrim(xq1)) + Utf16Length(JavaTrim(xq2)) <= MaxInline {
        var l := RTrim(xq1);
        var r := LTrim(xq2);
        q := l + " " + same + r;
      } else {
        var i := Indent(same);
        var r := LTrim(xq2);
        q := xq1 + i + r;
      }
    }

    method VisitCondEmpty(c: Cond) returns (q: string)
      requires c.CondEmpty?
      modifies this
      ensures q == FormatCond(c, old(level), old(extraSpaces), AsWritten)
      ensures level == old(level) && extraSpaces == old(extraSpaces)
      decreases c, 1
    {
      var empty := "empty(";
      q := Indent(empty);
      extraSpaces := extraSpaces + |empty|;
      var t := VisitXq(c.xq);
      q := q + JavaTrim(t);
      q := q + ")" + LineSeparator;
      extraSpaces := extraSpaces - |empty|;
    }

    method VisitCondSome(c: Cond) returns (q: string)
      requires c.CondSome?
      modifies this
      ensures q == FormatCond(c, old(level), old(extraSpaces), AsWritten)
      ensures level == old(level) && extraSpaces == old(extraSpaces)
      decreases c, 1
    {
      q := VisitClause("some ", " in ", c.bindings);
      var satisfies := "satisfies ";
      var s := Indent(satisfies);
      q := q + s;
      extraSpaces := extraSpaces + |satisfies|;
      var t := VisitCond(c.cond);
      t := LTrim(t);
      q := q + t;
      extraSpaces := extraSpaces - |satisfies|;
    }

    method VisitCondParentheses(c: Cond) returns (q: string)
      requires c.CondParentheses?
      modifies this
      ensures q == FormatCond(c, old(level), old(extraSpaces), AsWritten)
      ensures level == old(level) && extraSpaces == old(extraSpaces)
      decreases c, 1
    {
      q := Indent("(");
      extraSpaces := extraSpaces + 1;
      var t := VisitCond(c.inner);
      t := LTrim(t);
      q := q + t;
      extraSpaces := extraSpaces - 1;
      q := RTrim(q);
      q := q + ")";
    }

    method VisitCondAnd(c: Cond) returns (q: string)
      requires c.CondAnd?
      modifies this
      ensures q == FormatCond(c, old(level), old(extraSpaces), AsWritten)
      ensures level == old(level) && extraSpaces == old(extraSpaces)
      decreases c, 1
    {
      var and := "and ";
      extraSpaces := extraSpaces + |and|;
      q := VisitCond(c.left);
      extraSpaces := extraSpaces - |and|;
      var i := Indent(and);
      q := q + i;
      extraSpaces := extraSpaces + |and|;
      var t := VisitCond(c.right);
      t := LTrim(t);
      q := q + t;
      extraSpaces := extraSpaces - |and|;
    }

    method VisitCondOr(c: Cond) returns (q: string)
      requires c.CondOr?
      modifies this
      ensures q == FormatCond(c, old(level), old(extraSpaces), AsWritten)
      ensures level == old(level) && extraSpaces == old(extraSpaces)
      decreases c, 1
    {
      var or := "or ";
      extraSpaces := extraSpaces + |or|;
      q := VisitCond(c.left);
      extraSpaces := extraSpaces - |or|;
      var i := Indent(or);
      q := q + i;
      extraSpaces := extraSpaces + |or|;
      var t := VisitCond(c.right);
      t := LTrim(t);
      q := q + t;
      extraSpaces := extraSpaces - |or|;
    }

    method VisitCondNot(c: Cond) returns (q: string)
      requires c.CondNot?
      modifies this
      ensures q == FormatCond(c, old(level), old(extraSpaces), AsWritten)
      ensures level == old(level) && extraSpaces == old(extraSpaces)
      decreases c, 1
    {
      var not := "not ";
      q := Indent(not);
      extraSpaces := extraSpaces + |not|;
      var t := VisitCond(c.inner);
      t := LTrim(t);
      q := q + t;
      extraSpaces := extraSpaces - |not|;
    }
  }

  /** The clause text over the first `i + 1` bindings extends the text over
      the first `i` by binding `i`. */
  lemma ItemsStep(bs: seq<Binding>, i: nat, word: string, level: int, extra: int, rules: Rules)
    requires i < |bs|
    ensures FormatItems(bs[..i + 1], word, level, extra, |bs|, rules)
            == FormatItems(bs[..i], word, level, extra, |bs|, rules)
               + ItemText(bs[i], word, level, extra, i == 0, i == |bs| - 1, rules)
  {
    var t := bs[..i + 1];
    assert |t| - 1 == i;
    assert FormatItems(t, word, level, extra, |bs|, rules)
        == FormatItems(t[..i], word, level, extra, |bs|, rules)
           + ItemText(t[i], word, level, extra, i == 0, i == |bs| - 1, rules);
    assert t[..i] == bs[..i];
    assert t[i] == bs[i];
  }
}
