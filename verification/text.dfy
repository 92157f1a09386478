/** The string operations the core relies on: whitespace trimming, decimal
    digits, zero padding, splitting on a separator and leading-digit parsing. */
module Text {
  import opened Common

  /** The white-space and line-terminator characters JavaScript's trim
      removes: tab, vertical tab, form feed, the byte-order mark, the line
      and paragraph terminators, and every space separator (space, no-break
      space, ogham space mark, the en quad to hair space range, narrow
      no-break space, medium mathematical space, ideographic space). */
  predicate IsSpace(c: char)
  {
    || c == '\t' || c == '\U{B}' || c == '\U{C}' || c == ' ' || c == '\U{A0}' || c == '\U{FEFF}'
    || c == '\n' || c == '\r' || c == '\U{2028}' || c == '\U{2029}'
    || c == '\U{1680}' || ('\U{2000}' <= c <= '\U{200A}') || c == '\U{202F}' || c == '\U{205F}'
    || c == '\U{3000}'
  }

  /** True when nothing but white space is left after trimming. */
  predicate Blank(s: string)
  {
    forall i | 0 <= i < |s| :: IsSpace(s[i])
  }

  /** `s` without its leading white space. */
  function TrimStart(s: string): string
  {
    if s == [] || !IsSpace(s[0]) then s else TrimStart(s[1..])
  }

  /** `s` without its trailing white space. */
  function TrimEnd(s: string): string
  {
    if s == [] || !IsSpace(s[|s| - 1]) then s else TrimEnd(s[..|s| - 1])
  }

  /** JavaScript's string trim: white space removed from both ends. */
  function Trim(s: string): string
  {
    TrimEnd(TrimStart(s))
  }

  /** Trimming the start removes exactly a blank prefix and stops at a
      character that is not white space. */
  lemma {:induction false} TrimStartShape(s: string)
    ensures |TrimStart(s)| <= |s|
    ensures TrimStart(s) == s[|s| - |TrimStart(s)|..]
    ensures TrimStart(s) == [] || !IsSpace(TrimStart(s)[0])
    ensures Blank(s[..|s| - |TrimStart(s)|])
    decreases |s|
  {
    if s != [] && IsSpace(s[0]) {
      var r := TrimStart(s[1..]);
      TrimStartShape(s[1..]);
      assert s[1..][..|s| - 1 - |r|] == s[1..|s| - |r|];
    }
  }

  /** Trimming the end removes exactly a blank suffix and stops at a
      character that is not white space. */
  lemma {:induction false} TrimEndShape(s: string)
    ensures |TrimEnd(s)| <= |s|
    ensures TrimEnd(s) == s[..|TrimEnd(s)|]
    ensures TrimEnd(s) == [] || !IsSpace(TrimEnd(s)[|TrimEnd(s)| - 1])
    ensures Blank(s[|TrimEnd(s)|..])
    decreases |s|
  {
    if s != [] && IsSpace(s[|s| - 1]) {
      var r := TrimEnd(s[..|s| - 1]);
      TrimEndShape(s[..|s| - 1]);
      assert s[..|s| - 1][|r|..] == s[|r|..|s| - 1];
      forall i | 0 <= i < |s| - |r| ensures IsSpace(s[|r|..][i]) {
        if i < |s| - 1 - |r| {
          assert s[|r|..][i] == s[..|s| - 1][|r|..][i];
        }
      }
    }
  }

  /** Trimming leaves nothing exactly when the string is all white space. */
  lemma TrimEmptyIffBlank(s: string)
    ensures Trim(s) == "" <==> Blank(s)
  {
    var t := TrimStart(s);
    TrimStartShape(s);
    TrimEndShape(t);
    if Trim(s) == "" {
      assert t[0..] == t;
      forall i | 0 <= i < |s| ensures IsSpace(s[i]) {
        assert s[..|s| - |t|][i] == s[i];
      }
    } else {
      var c := Trim(s)[0];
      assert c == t[0];
      assert t[0] == s[|s| - |t|];
    }
  }

  /** The length of `s` as JavaScript counts it: UTF-16 code units, two
      for a character outside the basic multilingual plane. */
  function Utf16Length(s: string): (n: nat)
    ensures |s| <= n <= 2 * |s|
  {
    if s == [] then 0 else Utf16Length(s[..|s| - 1]) + (if s[|s| - 1] >= '\U{10000}' then 2 else 1)
  }

  predicate IsDigit(c: char)
  {
    '0' <= c <= '9'
  }

  predicate AllDigits(s: string)
  {
    forall i | 0 <= i < |s| :: IsDigit(s[i])
  }

  function DigitChar(d: nat): char
    requires d < 10
  {
    ['0', '1', '2', '3', '4', '5', '6', '7', '8', '9'][d]
  }

  function DigitValue(c: char): nat
    requires IsDigit(c)
  {
    (c as int - '0' as int) as nat
  }

  /** The digit character of `d` reads back as `d`. */
  lemma DigitCharValue(d: nat)
    requires d < 10
    ensures IsDigit(DigitChar(d)) && DigitValue(DigitChar(d)) == d
  {
  }

  /** JavaScript's number-to-string for a non-negative integer: the shortest
      decimal form. */
  function Decimal(n: nat): (r: string)
    ensures |r| >= 1 && AllDigits(r)
    decreases n
  {
    if n < 10 then [DigitChar(n)] else Decimal(n / 10) + [DigitChar(n % 10)]
  }

  /** The number a string of decimal digits denotes, read most significant
      first. */
  function DigitsValue(s: string): nat
    requires AllDigits(s)
  {
    if s == [] then 0 else 10 * DigitsValue(s[..|s| - 1]) + DigitValue(s[|s| - 1])
  }

  /** The value of eight digits, most significant first. */
  lemma EightDigitsValue(s: string)
    requires |s| == 8 && AllDigits(s)
    ensures DigitsValue(s) == ((((((DigitValue(s[0]) * 10 + DigitValue(s[1])) * 10 + DigitValue(s[2])) * 10
                                  + DigitValue(s[3])) * 10 + DigitValue(s[4])) * 10 + DigitValue(s[5])) * 10
                                + DigitValue(s[6])) * 10 + DigitValue(s[7])
  {
    var v := DigitValue(s[0]);
    assert DigitsValue(s[..1]) == v by { assert s[..1][..0] == []; }
    v := v * 10 + DigitValue(s[1]);
    assert DigitsValue(s[..2]) == v by { assert s[..2][..1] == s[..1]; }
    v := v * 10 + DigitValue(s[2]);
    assert DigitsValue(s[..3]) == v by { assert s[..3][..2] == s[..2]; }
    v := v * 10 + DigitValue(s[3]);
    assert DigitsValue(s[..4]) == v by { assert s[..4][..3] == s[..3]; }
    v := v * 10 + DigitValue(s[4]);
    assert DigitsValue(s[..5]) == v by { assert s[..5][..4] == s[..4]; }
    v := v * 10 + DigitValue(s[5]);
    assert DigitsValue(s[..6]) == v by { assert s[..6][..5] == s[..5]; }
    v := v * 10 + DigitValue(s[6]);
    assert DigitsValue(s[..7]) == v by { assert s[..7][..6] == s[..6]; }
    assert s[..7] == s[..|s| - 1];
  }

  function Zeros(k: nat): (r: string)
    ensures |r| == k && AllDigits(r)
    ensures forall i | 0 <= i < k :: r[i] == '0'
  {
    if k == 0 then [] else Zeros(k - 1) + ['0']
  }

  /** JavaScript's start padding with zeros to `width`: left-pads, never
      truncates. */
  function PadZeros(s: string, width: nat): (r: string)
    ensures |r| == if |s| >= width then |s| else width
    ensures r[|r| - |s|..] == s
    ensures AllDigits(s) ==> AllDigits(r)
  {
    if |s| >= width then s else Zeros(width - |s|) + s
  }

  lemma {:induction false} DecimalValue(n: nat)
    ensures DigitsValue(Decimal(n)) == n
    decreases n
  {
    if n >= 10 {
      DecimalValue(n / 10);
      var s := Decimal(n);
      assert s[..|s| - 1] == Decimal(n / 10);
    }
  }

  lemma {:induction false} LeadingZerosValue(k: nat, s: string)
    requires AllDigits(s)
    ensures DigitsValue(Zeros(k) + s) == DigitsValue(s)
    decreases |s|, k
  {
    if s == [] {
      assert Zeros(k) + s == Zeros(k);
      if k > 0 {
        assert Zeros(k)[..k - 1] == Zeros(k - 1);
        LeadingZerosValue(k - 1, s);
        assert Zeros(k - 1) + s == Zeros(k - 1);
      }
    } else {
      var t := Zeros(k) + s;
      assert t[..|t| - 1] == Zeros(k) + s[..|s| - 1];
      LeadingZerosValue(k, s[..|s| - 1]);
    }
  }

  /** Reading back a zero-padded decimal gives the number it was made from. */
  lemma PaddedDecimalValue(n: nat, width: nat)
    ensures AllDigits(PadZeros(Decimal(n), width))
    ensures DigitsValue(PadZeros(Decimal(n), width)) == n
  {
    DecimalValue(n);
    if |Decimal(n)| < width {
      LeadingZerosValue(width - |Decimal(n)|, Decimal(n));
    }
  }

  function Pow10(k: nat): (r: nat)
    ensures r >= 1
  {
    if k == 0 then 1 else 10 * Pow10(k - 1)
  }

  /** A number below `10^k` has at most `k` decimal digits. */
  lemma {:induction false} DecimalLength(n: nat, k: nat)
    requires k >= 1 && n < Pow10(k)
    ensures |Decimal(n)| <= k
    decreases n
  {
    if n >= 10 {
      assert k >= 2;
      DecimalLength(n / 10, k - 1);
    }
  }

  /** Digit strings of one length with the same value are the same. */
  lemma {:induction false} DigitsInjective(a: string, b: string)
    requires AllDigits(a) && AllDigits(b) && |a| == |b| && DigitsValue(a) == DigitsValue(b)
    ensures a == b
    decreases |a|
  {
    if |a| > 0 {
      var n := |a|;
      assert DigitValue(a[n - 1]) == DigitValue(b[n - 1]);
      DigitsInjective(a[..n - 1], b[..n - 1]);
      assert a == a[..n - 1] + [a[n - 1]] && b == b[..n - 1] + [b[n - 1]];
    }
  }

  /** A difference between two strings of one length decides the order of
      any extensions of them. */
  lemma {:induction false} LexLessExtend(a: string, b: string, c: string, e: string)
    requires |a| == |b| && LexLess(a, b)
    ensures LexLess(a + c, b + e)
    decreases |a|
  {
    assert (a + c)[0] == a[0] && (b + e)[0] == b[0];
    if a[0] == b[0] {
      assert (a + c)[1..] == a[1..] + c && (b + e)[1..] == b[1..] + e;
      LexLessExtend(a[1..], b[1..], c, e);
    }
  }

  /** On digit strings of one length, string order follows numeric order. */
  lemma {:induction false} DigitsOrder(a: string, b: string)
    requires AllDigits(a) && AllDigits(b) && |a| == |b| && DigitsValue(a) < DigitsValue(b)
    ensures LexLess(a, b)
    decreases |a|
  {
    var n := |a|;
    var a', b' := a[..n - 1], b[..n - 1];
    assert a == a' + [a[n - 1]] && b == b' + [b[n - 1]];
    if DigitsValue(a') < DigitsValue(b') {
      DigitsOrder(a', b');
      LexLessExtend(a', b', [a[n - 1]], [b[n - 1]]);
    } else if DigitsValue(a') == DigitsValue(b') {
      DigitsInjective(a', b');
      LexLessCommonPrefix(a', [a[n - 1]], [b[n - 1]]);
    } else {
      assert false;
    }
  }

  /** JavaScript's split on a one-character separator: the fields between
      separators, always at least one. */
  function Split(s: string, sep: char): (r: seq<string>)
    ensures |r| >= 1
  {
    if s == [] then [""]
    else if s[0] == sep then [""] + Split(s[1..], sep)
    else
      var rest := Split(s[1..], sep);
      [[s[0]] + rest[0]] + rest[1..]
  }

  lemma {:induction false} SplitNoSep(a: string, sep: char)
    requires sep !in a
    ensures Split(a, sep) == [a]
  {
    if a != [] {
      SplitNoSep(a[1..], sep);
      assert [a[0]] + a[1..] == a;
    }
  }

  lemma {:induction false} SplitAtSep(a: string, sep: char, b: string)
    requires sep !in a
    ensures Split(a + [sep] + b, sep) == [a] + Split(b, sep)
  {
    var s := a + [sep] + b;
    if a == [] {
      assert s[1..] == b;
    } else {
      assert s[0] == a[0] && s[1..] == a[1..] + [sep] + b;
      SplitAtSep(a[1..], sep, b);
      assert [a[0]] + a[1..] == a;
    }
  }

  /** The leading run of decimal digits of `s`: a digit prefix that stops
      at the end of `s` or at its first character that is not a digit. */
  function LeadingDigits(s: string): (r: string)
    ensures AllDigits(r) && |r| <= |s| && r == s[..|r|]
    ensures |r| == |s| || !IsDigit(s[|r|])
  {
    if s == [] || !IsDigit(s[0]) then [] else [s[0]] + LeadingDigits(s[1..])
  }

  lemma {:induction false} LeadingDigitsOfDigits(s: string)
    requires AllDigits(s)
    ensures LeadingDigits(s) == s
  {
    if s != [] {
      LeadingDigitsOfDigits(s[1..]);
      assert [s[0]] + s[1..] == s;
    }
  }

  /** JavaScript's decimal integer parse for the strings the core feeds it:
      the value of the leading digits, or `None` (NaN) when there are none. */
  function ParseInt(s: string): (r: Option<nat>)
    ensures r.None? <==> s == [] || !IsDigit(s[0])
  {
    var d := LeadingDigits(s);
    if d == [] then None else Some(DigitsValue(d))
  }

  /** Lexicographic order by character code, which is how the order store
      sorts strings. */
  predicate LexLess(a: string, b: string)
  {
    if a == [] then b != []
    else if b == [] then false
    else if a[0] != b[0] then a[0] < b[0]
    else LexLess(a[1..], b[1..])
  }

  lemma {:induction false} LexLessCommonPrefix(p: string, a: string, b: string)
    ensures LexLess(p + a, p + b) == LexLess(a, b)
  {
    if p != [] {
      assert (p + a)[1..] == p[1..] + a;
      assert (p + b)[1..] == p[1..] + b;
      LexLessCommonPrefix(p[1..], a, b);
    } else {
      assert p + a == a && p + b == b;
    }
  }
}
