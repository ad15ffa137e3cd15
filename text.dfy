/** The Python string operations the reporting layer relies on: `join`,
    `split` on one character, `strip`, ASCII `lower`, `int()` and decimal
    formatting, the lexicographic order Python uses to compare strings, and
    `repr()` of a string. */
module Text {
  import opened Wrappers

  // ---------------------------------------------------------------------
  // join and split

  /** `sep.join(parts)` */
  function Join(parts: seq<string>, sep: string): string
  {
    if |parts| == 0 then ""
    else if |parts| == 1 then parts[0]
    else parts[0] + sep + Join(parts[1..], sep)
  }

  /** Concatenation regrouped to the right. */
  lemma Regroup(a: string, b: string, c: string, d: string)
    ensures a + b + c + d == a + (b + (c + d))
  {
  }

  /** Joining three parts. */
  lemma Join3(a: string, b: string, c: string, sep: string)
    ensures Join([a, b, c], sep) == a + sep + b + sep + c
  {
    assert [a, b, c][1..] == [b, c];
    assert [b, c][1..] == [c];
    assert Join([c], sep) == c;
    assert Join([b, c], sep) == b + sep + c;
    assert Join([a, b, c], sep) == a + sep + (b + sep + c);
  }

  /** Joining four parts. */
  lemma Join4(a: string, b: string, c: string, d: string, sep: string)
    ensures Join([a, b, c, d], sep) == a + (sep + (b + (sep + (c + (sep + d)))))
  {
    assert [a, b, c, d][1..] == [b, c, d];
    assert [b, c, d][1..] == [c, d];
    assert [c, d][1..] == [d];
    assert Join([d], sep) == d;
    var cd := Join([c, d], sep);
    assert cd == c + sep + d;
    assert cd == c + (sep + d);
    var bcd := Join([b, c, d], sep);
    assert bcd == b + sep + cd == b + (sep + cd);
    assert Join([a, b, c, d], sep) == a + sep + bcd == a + (sep + bcd);
  }

  /** The position of the first `c` in `s`. */
  function IndexOf(s: string, c: char): (i: nat)
    requires c in s
    ensures i < |s| && s[i] == c && c !in s[..i]
  {
    if s[0] == c then 0 else 1 + IndexOf(s[1..], c)
  }

  /** `s.split(c)` for a one-character separator `c`: the pieces between
      the occurrences of `c`, never an empty list. */
  function Split(s: string, c: char): (parts: seq<string>)
    ensures |parts| >= 1
    ensures forall i :: 0 <= i < |parts| ==> c !in parts[i]
    decreases |s|
  {
    if c !in s then [s]
    else
      var i := IndexOf(s, c);
      [s[..i]] + Split(s[i + 1..], c)
  }

  /** Joining the pieces of a split with the separator gives back the string. */
  lemma {:induction false} JoinSplit(s: string, c: char)
    ensures Join(Split(s, c), [c]) == s
    decreases |s|
  {
    if c in s {
      var i := IndexOf(s, c);
      var rest := Split(s[i + 1..], c);
      JoinSplit(s[i + 1..], c);
      assert Split(s, c) == [s[..i]] + rest;
      assert ([s[..i]] + rest)[1..] == rest;
      assert s == s[..i] + [c] + s[i + 1..];
    }
  }

  lemma {:induction false} IndexOfAfterPrefix(p: string, c: char, t: string)
    requires c !in p
    ensures c in p + [c] + t && IndexOf(p + [c] + t, c) == |p|
    decreases |p|
  {
    var s := p + [c] + t;
    assert s[|p|] == c;
    if |p| > 0 {
      assert s[1..] == p[1..] + [c] + t;
      IndexOfAfterPrefix(p[1..], c, t);
    }
  }

  /** Splitting a join of separator-free pieces gives back the pieces. */
  lemma {:induction false} SplitJoin(parts: seq<string>, c: char)
    requires |parts| >= 1
    requires forall i :: 0 <= i < |parts| ==> c !in parts[i]
    ensures Split(Join(parts, [c]), c) == parts
    decreases |parts|
  {
    if |parts| > 1 {
      var rest := parts[1..];
      var t := Join(rest, [c]);
      assert Join(parts, [c]) == parts[0] + [c] + t;
      SplitAfterPrefix(parts[0], c, t);
      SplitJoin(rest, c);
      assert parts == [parts[0]] + rest;
    }
  }

  /** A separator-free piece before the first separator is the first
      piece of the split. */
  lemma SplitAfterPrefix(p: string, c: char, t: string)
    requires c !in p
    ensures Split(p + [c] + t, c) == [p] + Split(t, c)
  {
    IndexOfAfterPrefix(p, c, t);
    var s := p + [c] + t;
    assert s[..|p|] == p;
    assert s[|p| + 1..] == t;
  }

  lemma {:induction false} IndexOfExtend(s: string, t: string, c: char)
    requires c in s
    ensures c in s + t && IndexOf(s + t, c) == IndexOf(s, c)
    decreases |s|
  {
    assert (s + t)[IndexOf(s, c)] == c;
    if s[0] != c {
      assert (s + t)[1..] == s[1..] + t;
      IndexOfExtend(s[1..], t, c);
    }
  }

  /** A trailing separator adds one empty piece. */
  lemma {:induction false} SplitTrailing(s: string, c: char)
    ensures Split(s + [c], c) == Split(s, c) + [""]
    decreases |s|
  {
    var t := s + [c];
    if c !in s {
      IndexOfAfterPrefix(s, c, "");
      assert s + [c] + "" == t;
      assert t[..|s|] == s && t[|s| + 1..] == "";
    } else {
      var i := IndexOf(s, c);
      IndexOfExtend(s, [c], c);
      assert t[..i] == s[..i];
      assert t[i + 1..] == s[i + 1..] + [c];
      SplitTrailing(s[i + 1..], c);
    }
  }

  /** Two strings that split into the same pieces are equal. */
  lemma SplitInjective(s: string, t: string, c: char)
    requires Split(s, c) == Split(t, c)
    ensures s == t
  {
    JoinSplit(s, c);
    JoinSplit(t, c);
  }

  // ---------------------------------------------------------------------
  // whitespace and case

  /** The six characters of `string.whitespace`; Python's `strip` and
      `split` also count U+001C to U+001F and the Unicode spaces. */
  predicate IsSpace(ch: char)
  {
    ch == ' ' || ch == '\t' || ch == '\n' || ch == '\r' || ch == '\U{000B}' || ch == '\U{000C}'
  }

  function TrimLeft(s: string): (r: string)
    ensures |r| <= |s| && r == s[|s| - |r|..]
    ensures r == [] || !IsSpace(r[0])
  {
    if |s| > 0 && IsSpace(s[0]) then TrimLeft(s[1..]) else s
  }

  function TrimRight(s: string): (r: string)
    ensures |r| <= |s| && r == s[..|r|]
    ensures r == [] || !IsSpace(r[|r| - 1])
  {
    if |s| > 0 && IsSpace(s[|s| - 1]) then TrimRight(s[..|s| - 1]) else s
  }

  /** The leading run of non-whitespace characters of `s`. */
  function Word(s: string): (w: string)
    ensures |w| <= |s| && w == s[..|w|]
    ensures forall i :: 0 <= i < |w| ==> !IsSpace(w[i])
    ensures |w| < |s| ==> IsSpace(s[|w|])
    ensures s != [] && !IsSpace(s[0]) ==> |w| > 0
  {
    if s == [] || IsSpace(s[0]) then [] else [s[0]] + Word(s[1..])
  }

  /** `s.split()`: the runs of non-whitespace characters, in order. */
  function Words(s: string): (ws: seq<string>)
    decreases |s|
  {
    var t := TrimLeft(s);
    if t == [] then [] else var w := Word(t); [w] + Words(t[|w|..])
  }

  /** A string that ends in a non-whitespace character keeps it when
      leading whitespace is trimmed. */
  lemma {:induction false} TrimLeftKeepsLast(s: string)
    requires s != [] && !IsSpace(s[|s| - 1])
    ensures TrimLeft(s) != []
    decreases |s|
  {
    if IsSpace(s[0]) {
      TrimLeftKeepsLast(s[1..]);
    }
  }

  /** The first word of a string that starts with a word followed by
      whitespace is that word. */
  lemma {:induction false} WordOfPrefix(p: string, rest: string)
    requires forall i :: 0 <= i < |p| ==> !IsSpace(p[i])
    requires rest != [] && IsSpace(rest[0])
    ensures Word(p + rest) == p
    decreases |p|
  {
    if p != [] {
      assert (p + rest)[1..] == p[1..] + rest;
      WordOfPrefix(p[1..], rest);
    } else {
      assert p + rest == rest;
    }
  }

  /** `s.strip()`: drops leading and trailing whitespace. */
  function Strip(s: string): (r: string)
    ensures r == [] || (!IsSpace(r[0]) && !IsSpace(r[|r| - 1]))
  {
    TrimRight(TrimLeft(s))
  }

  function LowerChar(ch: char): char
  {
    if 'A' <= ch <= 'Z' then (ch as int + 32) as char else ch
  }

  /** `s.lower()` over ASCII letters. */
  function Lower(s: string): (r: string)
    ensures |r| == |s|
    ensures forall i :: 0 <= i < |r| ==> !('A' <= r[i] <= 'Z')
  {
    seq(|s|, i requires 0 <= i < |s| => LowerChar(s[i]))
  }

  lemma LowerIdempotent(s: string)
    ensures Lower(Lower(s)) == Lower(s)
  {
  }

  predicate StartsWith(s: string, prefix: string)
  {
    |prefix| <= |s| && s[..|prefix|] == prefix
  }

  predicate EndsWith(s: string, suffix: string)
  {
    |suffix| <= |s| && s[|s| - |suffix|..] == suffix
  }

  // ---------------------------------------------------------------------
  // digits, int() and decimal formatting

  predicate IsDecimalDigit(ch: char)
  {
    '0' <= ch <= '9'
  }

  predicate IsHexDigit(ch: char)
  {
    IsDecimalDigit(ch) || 'a' <= ch <= 'f'
  }

  /** The value of a lower-case hexadecimal (or decimal) digit. */
  function DigitValue(ch: char): nat
  {
    if IsDecimalDigit(ch) then ch as int - '0' as int
    else if 'a' <= ch <= 'f' then ch as int - 'a' as int + 10
    else 0
  }

  function HexDigit(d: nat): (ch: char)
    requires d < 16
    ensures IsHexDigit(ch) && DigitValue(ch) == d
  {
    if d < 10 then ('0' as int + d) as char else ('a' as int + d - 10) as char
  }

  predicate AllDigits(s: string, base: nat)
  {
    forall i :: 0 <= i < |s| ==> IsHexDigit(s[i]) && DigitValue(s[i]) < base
  }

  /** The number a string of digits denotes in the given base. */
  function ValueOf(s: string, base: nat): nat
  {
    if |s| == 0 then 0 else ValueOf(s[..|s| - 1], base) * base + DigitValue(s[|s| - 1])
  }

  function Pow(base: nat, n: nat): nat
  {
    if n == 0 then 1 else base * Pow(base, n - 1)
  }

  /** The decimal digits of `n`, without leading zeros. */
  function NatToString(n: nat): (s: string)
    ensures |s| >= 1 && AllDigits(s, 10)
    ensures ValueOf(s, 10) == n
    ensures s[0] == '0' ==> n == 0
  {
    if n < 10 then [HexDigit(n)]
    else
      var s := NatToString(n / 10) + [HexDigit(n % 10)];
      assert s[..|s| - 1] == NatToString(n / 10);
      s
  }

  /** `str(i)` for an integer. */
  function IntToString(i: int): string
  {
    if i < 0 then "-" + NatToString(-i) else NatToString(i)
  }

  /** Python `int(s)` for a base-10 string: surrounding whitespace and one
      sign are allowed, and single underscores may separate digits. */
  function ParseInt(s: string): (r: Option<int>)
  {
    var t := Strip(s);
    if |t| > 0 && (t[0] == '-' || t[0] == '+') then
      match ParseDigits(t[1..])
      case Some(v) => Some(if t[0] == '-' then 0 - v else v)
      case None => None
    else
      match ParseDigits(t)
      case Some(v) => Some(v)
      case None => None
  }

  /** The digits of `s` with the underscores removed. */
  function DropUnderscores(s: string): string
  {
    if |s| == 0 then ""
    else if s[0] == '_' then DropUnderscores(s[1..])
    else [s[0]] + DropUnderscores(s[1..])
  }

  /** A run of decimal digits in which an underscore may stand only
      between two digits. */
  predicate WellFormedDigits(s: string)
  {
    && |s| >= 1
    && (forall i :: 0 <= i < |s| ==> IsDecimalDigit(s[i]) || s[i] == '_')
    && IsDecimalDigit(s[0]) && IsDecimalDigit(s[|s| - 1])
    && (forall i :: 0 <= i < |s| - 1 ==> !(s[i] == '_' && s[i + 1] == '_'))
  }

  function ParseDigits(s: string): (r: Option<nat>)
    ensures r.Some? <==> WellFormedDigits(s)
  {
    if WellFormedDigits(s) then Some(ValueOf(DropUnderscores(s), 10)) else None
  }

  lemma DropUnderscoresOfDigits(s: string)
    requires AllDigits(s, 10)
    ensures DropUnderscores(s) == s
  {
    if |s| > 0 {
      DropUnderscoresOfDigits(s[1..]);
    }
  }

  /** A string that neither starts nor ends with whitespace is its own strip. */
  lemma StripUnchanged(s: string)
    requires |s| > 0 && !IsSpace(s[0]) && !IsSpace(s[|s| - 1])
    ensures Strip(s) == s
  {
    assert TrimLeft(s) == s;
  }

  lemma ParseDigitsOfNat(n: nat)
    ensures ParseDigits(NatToString(n)) == Some(n)
  {
    var d := NatToString(n);
    DropUnderscoresOfDigits(d);
    assert forall i :: 0 <= i < |d| ==> IsDecimalDigit(d[i]);
    assert WellFormedDigits(d);
  }

  /** `int(str(i)) == i`: formatting an integer and parsing it back gives it back. */
  lemma ParseIntToString(i: int)
    ensures ParseInt(IntToString(i)) == Some(i)
  {
    var s := IntToString(i);
    var d := NatToString(if i < 0 then -i else i);
    ParseDigitsOfNat(if i < 0 then -i else i);
    assert IsDecimalDigit(d[0]) && IsDecimalDigit(d[|d| - 1]);
    assert s == if i < 0 then "-" + d else d;
    StripUnchanged(s);
    var t := Strip(s);
    assert t == s;
    if i < 0 {
      assert t[1..] == d;
      assert ParseDigits(t[1..]) == Some(-i);
    } else {
      assert ParseDigits(t) == Some(i);
    }
  }

  /** `n` written with at least `width` digits, padded on the left with zeros. */
  function ZeroPad(n: nat, width: nat): (s: string)
    ensures |s| == if |NatToString(n)| < width then width else |NatToString(n)|
    ensures AllDigits(s, 10) && ValueOf(s, 10) == n
  {
    var digits := NatToString(n);
    if |digits| >= width then digits
    else
      var zeros := seq(width - |digits|, _ => '0');
      ValueOfZeros(zeros, digits, 10);
      zeros + digits
  }

  /** Leading zeros do not change the value of a string of digits. */
  lemma {:induction false} ValueOfZeros(zeros: string, digits: string, base: nat)
    requires forall i :: 0 <= i < |zeros| ==> zeros[i] == '0'
    ensures ValueOf(zeros + digits, base) == ValueOf(digits, base)
    decreases |digits|
  {
    if |digits| == 0 {
      ValueOfAllZeros(zeros, base);
      assert zeros + digits == zeros;
    } else {
      var n := |digits|;
      assert (zeros + digits)[..|zeros| + n - 1] == zeros + digits[..n - 1];
      ValueOfZeros(zeros, digits[..n - 1], base);
    }
  }

  lemma {:induction false} ValueOfAllZeros(zeros: string, base: nat)
    requires forall i :: 0 <= i < |zeros| ==> zeros[i] == '0'
    ensures ValueOf(zeros, base) == 0
    decreases |zeros|
  {
    if |zeros| > 0 {
      ValueOfAllZeros(zeros[..|zeros| - 1], base);
    }
  }

  /** Python's `f"{n:06}"`: at least six characters; a negative number keeps
      its sign in front of the zeros. */
  function ZeroPad6(n: int): string
  {
    if n < 0 then "-" + ZeroPad(-n, 5) else ZeroPad(n, 6)
  }

  // ---------------------------------------------------------------------
  // lexicographic order

  /** Python's `a < b` on strings: the first differing character decides,
      and a proper prefix comes first. */
  predicate Less(a: string, b: string)
  {
    |b| > 0 && (|a| == 0 || a[0] < b[0] || (a[0] == b[0] && Less(a[1..], b[1..])))
  }

  lemma LessIrreflexive(a: string)
    ensures !Less(a, a)
  {
  }

  lemma {:induction false} LessTransitive(a: string, b: string, c: string)
    requires Less(a, b) && Less(b, c)
    ensures Less(a, c)
    decreases |a|
  {
    if |a| > 0 && a[0] == b[0] && b[0] == c[0] {
      LessTransitive(a[1..], b[1..], c[1..]);
    }
  }

  lemma {:induction false} LessTotal(a: string, b: string)
    ensures a == b || Less(a, b) || Less(b, a)
    decreases |a|
  {
    if |a| > 0 && |b| > 0 && a[0] == b[0] {
      LessTotal(a[1..], b[1..]);
      if a[1..] == b[1..] {
        assert a == [a[0]] + a[1..] && b == [b[0]] + b[1..];
      }
    }
  }

  lemma {:induction false} LessAsymmetric(a: string, b: string)
    requires Less(a, b)
    ensures !Less(b, a)
    decreases |a|
  {
    if |a| > 0 && a[0] == b[0] {
      LessAsymmetric(a[1..], b[1..]);
    }
  }

  /** For strings of equal length the last character decides only when
      everything before it is equal. */
  lemma {:induction false} LessByLast(s: string, t: string)
    requires |s| == |t| > 0
    ensures Less(s, t) <==>
      Less(s[..|s| - 1], t[..|t| - 1]) || (s[..|s| - 1] == t[..|t| - 1] && s[|s| - 1] < t[|t| - 1])
    decreases |s|
  {
    var n := |s|;
    if n > 1 {
      LessByLast(s[1..], t[1..]);
      assert s[1..][..n - 2] == s[..n - 1][1..];
      assert t[1..][..n - 2] == t[..n - 1][1..];
      if s[0] == t[0] && s[1..][..n - 2] == t[1..][..n - 2] {
        assert s[..n - 1] == [s[0]] + s[1..][..n - 2];
        assert t[..n - 1] == [t[0]] + t[1..][..n - 2];
      }
    }
  }

  /** A common prefix does not decide the order. */
  lemma {:induction false} LessPrefix(p: string, x: string, y: string)
    ensures Less(p + x, p + y) <==> Less(x, y)
    decreases |p|
  {
    if p != [] {
      assert (p + x)[1..] == p[1..] + x && (p + y)[1..] == p[1..] + y;
      LessPrefix(p[1..], x, y);
    } else {
      assert p + x == x && p + y == y;
    }
  }

  /** Of two strings of the same length, the lesser stays first whatever
      follows each. */
  lemma {:induction false} LessSameLength(a: string, x: string, b: string, y: string)
    requires |a| == |b| && Less(a, b)
    ensures Less(a + x, b + y)
    decreases |a|
  {
    if a[0] == b[0] {
      assert (a + x)[1..] == a[1..] + x && (b + y)[1..] == b[1..] + y;
      LessSameLength(a[1..], x, b[1..], y);
    }
  }

  /** Strings that start with parts of the same length compare by those
      parts first, and by the rest when the parts are equal. */
  lemma LessByParts(a: string, x: string, b: string, y: string)
    requires |a| == |b|
    ensures Less(a + x, b + y) <==> Less(a, b) || (a == b && Less(x, y))
  {
    if Less(a, b) {
      LessSameLength(a, x, b, y);
    } else if a == b {
      LessPrefix(a, x, y);
    } else {
      LessTotal(a, b);
      LessSameLength(b, y, a, x);
      LessAsymmetric(b + y, a + x);
    }
  }

  /** For two digit strings of the same length, the string order is the
      order of the numbers they denote (in base 10, or base 16 with
      lower-case letters). */
  lemma {:induction false} LessIsNumeric(s: string, t: string, base: nat)
    requires base == 10 || base == 16
    requires |s| == |t|
    requires AllDigits(s, base) && AllDigits(t, base)
    ensures Less(s, t) <==> ValueOf(s, base) < ValueOf(t, base)
    decreases |s|
  {
    var n := |s|;
    if n > 0 {
      var p, q := s[..n - 1], t[..n - 1];
      LessByLast(s, t);
      LessIsNumeric(p, q, base);
      LessIsNumeric(q, p, base);
      var vp, vq := ValueOf(p, base), ValueOf(q, base);
      var d, e := DigitValue(s[n - 1]), DigitValue(t[n - 1]);
      assert ValueOf(s, base) == vp * base + d;
      assert ValueOf(t, base) == vq * base + e;
      if vp < vq {
        assert (vp + 1) * base <= vq * base;
      } else if vq < vp {
        assert (vq + 1) * base <= vp * base;
        LessAsymmetric(q, p);
      } else {
        LessTotal(p, q);
        LessIrreflexive(p);
        assert p == q;
        assert s[n - 1] < t[n - 1] <==> d < e;
      }
    }
  }

  // ---------------------------------------------------------------------
  // repr() of a string

  /** Characters of code point at most U+00FF that `repr` writes as a
      `\xhh` escape: the control characters, DEL, U+0080 to U+00A0 and the
      soft hyphen U+00AD (everything else up to U+00FF is printable). */
  predicate HexEscaped(ch: char)
  {
    ch < ' ' || ('\U{7F}' <= ch <= '\U{A0}') || ch == '\U{AD}'
  }

  /** The quote `repr` puts around `s`: a double quote when `s` holds a
      single quote and no double quote, otherwise a single quote. */
  function ReprQuote(s: string): (q: char)
    ensures q == '"' || q == '\''
  {
    if '\'' in s && '"' !in s then '"' else '\''
  }

  /** One character as `repr` writes it inside quotes `quote`: the quote
      and the backslash escaped, tab, newline and carriage return by
      their letters, the other unprintable characters as `\xhh`. */
  function ReprChar(ch: char, quote: char): (r: string)
    ensures 1 <= |r| <= 4
    ensures |r| == 1 <==> r == [ch]
  {
    if ch == quote || ch == '\\' then ['\\', ch]
    else if ch == '\t' then "\\t"
    else if ch == '\n' then "\\n"
    else if ch == '\r' then "\\r"
    else if HexEscaped(ch) then "\\x" + [HexDigit(ch as int / 16), HexDigit(ch as int % 16)]
    else [ch]
  }

  function ReprBody(s: string, quote: char): (r: string)
    ensures |r| >= |s|
  {
    if s == [] then [] else ReprChar(s[0], quote) + ReprBody(s[1..], quote)
  }

  /** `repr(s)` for a string whose characters above U+00FF are printable. */
  function Repr(s: string): (r: string)
    ensures |r| >= |s| + 2
    ensures r[0] == r[|r| - 1] == ReprQuote(s)
  {
    var quote := ReprQuote(s);
    [quote] + ReprBody(s, quote) + [quote]
  }

  /** A character `repr` writes as itself inside quotes `quote`. */
  predicate KeptUnder(ch: char, quote: char)
  {
    ch != quote && ch != '\\' && ch != '\t' && ch != '\n' && ch != '\r' && !HexEscaped(ch)
  }

  lemma {:induction false} ReprBodyKept(s: string, quote: char)
    requires forall i :: 0 <= i < |s| ==> KeptUnder(s[i], quote)
    ensures ReprBody(s, quote) == s
  {
    if s != [] {
      ReprBodyKept(s[1..], quote);
      assert [s[0]] + s[1..] == s;
    }
  }

  /** Text without quotes, backslashes or unprintable characters is shown
      between single quotes as it is. */
  lemma ReprPlain(s: string)
    requires '"' !in s
    requires forall i :: 0 <= i < |s| ==> KeptUnder(s[i], '\'')
    ensures Repr(s) == "'" + s + "'"
  {
    ReprBodyKept(s, '\'');
  }

  /** Text holding a single quote and no double quote (say `bob's`) is
      shown between double quotes, its single quotes unescaped. */
  lemma ReprApostrophe(s: string)
    requires '\'' in s && '"' !in s
    requires forall i :: 0 <= i < |s| ==> KeptUnder(s[i], '"')
    ensures Repr(s) == "\"" + s + "\""
  {
    ReprBodyKept(s, '"');
  }

  lemma {:induction false} ReprBodyAppend(a: string, b: string, quote: char)
    ensures ReprBody(a + b, quote) == ReprBody(a, quote) + ReprBody(b, quote)
  {
    if a != [] {
      assert (a + b)[1..] == a[1..] + b;
      ReprBodyAppend(a[1..], b, quote);
    } else {
      assert a + b == b;
    }
  }

  /** Reads back the text between the quotes of a `repr`. */
  function Unescape(t: string): Option<string>
  {
    if t == [] then Some([])
    else if t[0] != '\\' then Prepend(t[0], Unescape(t[1..]))
    else if |t| < 2 then None
    else if t[1] == '\\' || t[1] == '\'' || t[1] == '"' then Prepend(t[1], Unescape(t[2..]))
    else if t[1] == 't' then Prepend('\t', Unescape(t[2..]))
    else if t[1] == 'n' then Prepend('\n', Unescape(t[2..]))
    else if t[1] == 'r' then Prepend('\r', Unescape(t[2..]))
    else if t[1] == 'x' && |t| >= 4 && IsHexDigit(t[2]) && IsHexDigit(t[3]) then
      Prepend((DigitValue(t[2]) * 16 + DigitValue(t[3])) as char, Unescape(t[4..]))
    else None
  }

  function Prepend(ch: char, rest: Option<string>): Option<string>
  {
    if rest.Some? then Some([ch] + rest.value) else None
  }

  lemma UnescapeChar(ch: char, quote: char, rest: string)
    requires quote == '"' || quote == '\''
    ensures Unescape(ReprChar(ch, quote) + rest) == Prepend(ch, Unescape(rest))
  {
    var t := ReprChar(ch, quote) + rest;
    if ch == quote || ch == '\\' {
      assert t[2..] == rest;
    } else if ch == '\t' || ch == '\n' || ch == '\r' {
      assert t[2..] == rest;
    } else if HexEscaped(ch) {
      var n := ch as int;
      assert t[2] == HexDigit(n / 16) && t[3] == HexDigit(n % 16);
      assert (n / 16) * 16 + n % 16 == n;
      assert t[4..] == rest;
    } else {
      assert t[1..] == rest;
    }
  }

  lemma {:induction false} UnescapeBody(s: string, quote: char)
    requires quote == '"' || quote == '\''
    ensures Unescape(ReprBody(s, quote)) == Some(s)
  {
    if s != [] {
      UnescapeBody(s[1..], quote);
      UnescapeChar(s[0], quote, ReprBody(s[1..], quote));
      assert [s[0]] + s[1..] == s;
    }
  }

  /** `repr` loses nothing: the text between its quotes reads back as the
      original string, so distinct strings are shown differently. */
  lemma ReprRoundTrip(s: string)
    ensures var r := Repr(s); Unescape(r[1..|r| - 1]) == Some(s)
  {
    var r := Repr(s);
    assert r[1..|r| - 1] == ReprBody(s, ReprQuote(s));
    UnescapeBody(s, ReprQuote(s));
  }

  lemma ReprInjective(s: string, t: string)
    requires Repr(s) == Repr(t)
    ensures s == t
  {
    ReprRoundTrip(s);
    ReprRoundTrip(t);
  }
}
