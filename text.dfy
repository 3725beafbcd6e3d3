/** String vocabulary shared by the renamer and the printers: decimal
    rendering of counters, joining with a separator, runs of spaces and
    whitespace trimming. */
module Text {

  /* ------------------------------------------------------ decimal numbers */

  predicate IsDigit(c: char)
  {
    '0' <= c <= '9'
  }

  function DigitChar(k: nat): (c: char)
    requires k < 10
    ensures IsDigit(c) && c as int - '0' as int == k
  {
    ('0' as int + k) as char
  }

  /** Decimal rendering of a natural number, as Java's `"" + n` prints it. */
  function NatToString(n: nat): (r: string)
    ensures |r| >= 1
    ensures forall i :: 0 <= i < |r| ==> IsDigit(r[i])
  {
    if n < 10 then [DigitChar(n)] else NatToString(n / 10) + [DigitChar(n % 10)]
  }

  /** The value of a string of decimal digits. */
  function ParseNat(s: string): nat
  {
    if s == [] then 0
    else
      var c := s[|s| - 1];
      10 * ParseNat(s[..|s| - 1]) + (if IsDigit(c) then c as int - '0' as int else 0)
  }

  /** Reading back the decimal rendering gives the number. */
  lemma {:induction false} ParseNatToString(n: nat)
    ensures ParseNat(NatToString(n)) == n
  {
    if n < 10 {
      assert NatToString(n)[..0] == [];
    } else {
      var s := NatToString(n);
      ParseNatToString(n / 10);
      assert s[..|s| - 1] == NatToString(n / 10);
    }
  }

  /** Different numbers are rendered differently. */
  lemma NatToStringInjective(a: nat, b: nat)
    ensures NatToString(a) == NatToString(b) <==> a == b
  {
    ParseNatToString(a);
    ParseNatToString(b);
  }

  /* ------------------------------------------------------------- joining */

  /** `xs` with `sep` between consecutive elements and nowhere else. */
  function Join(xs: seq<string>, sep: string): string
  {
    if xs == [] then ""
    else if |xs| == 1 then xs[0]
    else Join(xs[..|xs| - 1], sep) + sep + xs[|xs| - 1]
  }

  /** Joining two non-empty lists puts exactly one separator at the seam. */
  lemma {:induction false} JoinConcat(xs: seq<string>, ys: seq<string>, sep: string)
    requires xs != [] && ys != []
    ensures Join(xs + ys, sep) == Join(xs, sep) + sep + Join(ys, sep)
    decreases |ys|
  {
    var zs := xs + ys;
    var init, y := ys[..|ys| - 1], ys[|ys| - 1];
    assert zs[..|zs| - 1] == xs + init;
    assert zs[|zs| - 1] == y;
    if |ys| == 1 {
      assert xs + init == xs;
    } else {
      JoinConcat(xs, init, sep);
      Regroup(Join(xs, sep), sep, Join(init, sep), y);
    }
  }

  lemma Regroup(a: string, sep: string, b: string, c: string)
    ensures a + sep + b + sep + c == a + sep + (b + sep + c)
  {
  }

  /* ------------------------------------------------------------- spaces */

  /** The platform line separator (`System.lineSeparator()`), taken to be a
      line feed; the old printer writes a line feed literally. */
  const LineSeparator: string := "\n"

  /** `k` spaces; none when `k` is not positive (a counting loop that does
      not run). */
  function Spaces(k: int): (r: string)
    ensures |r| == if k <= 0 then 0 else k
    decreases k
  {
    if k <= 0 then "" else Spaces(k - 1) + " "
  }

  lemma {:induction false} SpacesAreSpaces(k: int)
    ensures forall i :: 0 <= i < |Spaces(k)| ==> Spaces(k)[i] == ' '
    decreases k
  {
    if k > 0 {
      SpacesAreSpaces(k - 1);
    }
  }

  /* ---------------------------------------------------------- whitespace */

  /** Java's `Character.isWhitespace`: the Unicode space, line and paragraph
      separators other than the no-break spaces U+00A0, U+2007 and U+202F,
      and the controls U+0009 to U+000D and U+001C to U+001F. */
  predicate IsWhitespace(c: char)
  {
    var k := c as int;
    (0x09 <= k <= 0x0D) || (0x1C <= k <= 0x20) || k == 0x1680
    || (0x2000 <= k <= 0x2006) || (0x2008 <= k <= 0x200A)
    || k == 0x2028 || k == 0x2029 || k == 0x205F || k == 0x3000
  }

  function Whitespace(): char -> bool
  {
    (c: char) => IsWhitespace(c)
  }

  /** What Java's `String.trim` removes: every character up to U+0020. */
  predicate IsTrimmable(c: char)
  {
    c as int <= 0x20
  }

  function Trimmable(): char -> bool
  {
    (c: char) => IsTrimmable(c)
  }

  /** `s` without its longest prefix of characters satisfying `p`. */
  function LTrimBy(s: string, p: char -> bool): (r: string)
    ensures |r| <= |s|
  {
    if s != [] && p(s[0]) then LTrimBy(s[1..], p) else s
  }

  /** `s` without its longest suffix of characters satisfying `p`. */
  function RTrimBy(s: string, p: char -> bool): (r: string)
    ensures |r| <= |s|
  {
    if s != [] && p(s[|s| - 1]) then RTrimBy(s[..|s| - 1], p) else s
  }

  /** Removing leading characters gives the suffix that starts at the first
      character not satisfying `p`, or the empty string. */
  lemma {:induction false} LTrimBySpec(s: string, p: char -> bool)
    ensures var r := LTrimBy(s, p);
      |r| <= |s| && r == s[|s| - |r|..] &&
      (forall i :: 0 <= i < |s| - |r| ==> p(s[i])) &&
      (r == [] || !p(r[0]))
  {
    if s != [] && p(s[0]) {
      LTrimBySpec(s[1..], p);
      var r := LTrimBy(s[1..], p);
      assert s[1..][|s| - 1 - |r|..] == s[|s| - |r|..];
      forall i | 0 <= i < |s| - |r|
        ensures p(s[i])
      {
        if i > 0 {
          assert s[i] == s[1..][i - 1];
        }
      }
    }
  }

  /** Removing trailing characters gives the prefix that ends at the last
      character not satisfying `p`, or the empty string. */
  lemma {:induction false} RTrimBySpec(s: string, p: char -> bool)
    ensures var r := RTrimBy(s, p);
      |r| <= |s| && r == s[..|r|] &&
      (forall i :: |r| <= i < |s| ==> p(s[i])) &&
      (r == [] || !p(r[|r| - 1]))
  {
    if s != [] && p(s[|s| - 1]) {
      var init := s[..|s| - 1];
      RTrimBySpec(init, p);
      var r := RTrimBy(init, p);
      assert init[..|r|] == s[..|r|];
      forall i | |r| <= i < |s|
        ensures p(s[i])
      {
        if i < |s| - 1 {
          assert s[i] == init[i];
        }
      }
    }
  }

  lemma LTrimByIdempotent(s: string, p: char -> bool)
    ensures LTrimBy(LTrimBy(s, p), p) == LTrimBy(s, p)
  {
    LTrimBySpec(s, p);
  }

  lemma RTrimByIdempotent(s: string, p: char -> bool)
    ensures RTrimBy(RTrimBy(s, p), p) == RTrimBy(s, p)
  {
    RTrimBySpec(s, p);
  }

  /** `s` without leading `Character.isWhitespace` characters. */
  function LTrimmed(s: string): string
  {
    LTrimBy(s, Whitespace())
  }

  /** `s` without trailing `Character.isWhitespace` characters. */
  function RTrimmed(s: string): string
  {
    RTrimBy(s, Whitespace())
  }

  /** Java's `String.trim`. */
  function JavaTrim(s: string): string
  {
    RTrimBy(LTrimBy(s, Trimmable()), Trimmable())
  }

  /** `trim` removes exactly the leading and trailing characters up to
      U+0020: the result is the factor of `s` that starts at the first
      character above U+0020 and is empty or ends with one. */
  lemma JavaTrimSpec(s: string)
    ensures var r := JavaTrim(s);
      var i := |s| - |LTrimBy(s, Trimmable())|;
      i + |r| <= |s| && r == s[i..i + |r|] &&
      (forall k :: 0 <= k < i ==> IsTrimmable(s[k])) &&
      (r == [] || (!IsTrimmable(r[0]) && !IsTrimmable(r[|r| - 1])))
  {
    var p := Trimmable();
    assert forall c :: p(c) == IsTrimmable(c);
    var l := LTrimBy(s, p);
    LTrimBySpec(s, p);
    RTrimBySpec(l, p);
    var i := |s| - |l|;
    assert s[i..i + |JavaTrim(s)|] == l[..|JavaTrim(s)|];
  }

  /* ------------------------------------------------------- UTF-16 length */

  /** Java's `String.length`: the number of UTF-16 code units, two for a
      character beyond U+FFFF and one for every other character. */
  function Utf16Length(s: string): (n: nat)
    ensures |s| <= n <= 2 * |s|
  {
    if s == [] then 0
    else Utf16Length(s[..|s| - 1]) + (if s[|s| - 1] as int >= 0x10000 then 2 else 1)
  }

  /** The length of a concatenation is the sum of the lengths. */
  lemma {:induction false} Utf16LengthConcat(a: string, b: string)
    ensures Utf16Length(a + b) == Utf16Length(a) + Utf16Length(b)
    decreases |b|
  {
    if b != [] {
      var k := |b| - 1;
      assert (a + b)[..|a + b| - 1] == a + b[..k];
      assert (a + b)[|a + b| - 1] == b[k];
      Utf16LengthConcat(a, b[..k]);
    } else {
      assert a + b == a;
    }
  }

  /** The length in code units is the number of characters exactly when no
      character lies beyond U+FFFF. */
  lemma {:induction false} Utf16LengthBmp(s: string)
    ensures Utf16Length(s) == |s| <==> forall i :: 0 <= i < |s| ==> s[i] as int < 0x10000
    decreases |s|
  {
    if s != [] {
      var t := s[..|s| - 1];
      Utf16LengthBmp(t);
      assert forall i :: 0 <= i < |t| ==> t[i] == s[i];
    }
  }
}
