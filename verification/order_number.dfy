/** Order numbers `ORD-YYYYMMDD-NNNNN`: the UTC date of creation and a
    per-day sequence zero-padded to five digits, the next one taken from the
    numbers already issued that day. */
module OrderNumber {
  import opened Common
  import opened Text

  /** A UTC calendar date, passed in instead of read from the clock. */
  datatype Day = Day(year: int, month: int, day: int)

  /** The dates whose ISO form has a four-digit year. */
  predicate ValidDay(d: Day)
  {
    0 <= d.year <= 9999 && 1 <= d.month <= 12 && 1 <= d.day <= 31
  }

  /** The date part of the ISO timestamp with its dashes removed: four
      digits of year, two of month, two of day. */
  function DateStamp(d: Day): (r: string)
    requires ValidDay(d)
    ensures |r| == 8 && AllDigits(r)
  {
    [DigitChar(d.year / 1000), DigitChar(d.year / 100 % 10), DigitChar(d.year / 10 % 10), DigitChar(d.year % 10),
     DigitChar(d.month / 10), DigitChar(d.month % 10), DigitChar(d.day / 10), DigitChar(d.day % 10)]
  }

  /** A number below 10000 is the sum of its four decimal digits' shares. */
  lemma FourDigits(y: int)
    requires 0 <= y <= 9999
    ensures y == 1000 * (y / 1000) + 100 * (y / 100 % 10) + 10 * (y / 10 % 10) + y % 10
  {
    assert y / 100 == 10 * (y / 1000) + y / 100 % 10;
    assert y / 10 == 10 * (y / 100) + y / 10 % 10;
  }

  /** The eight digits of the stamp read as the number YYYYMMDD. */
  lemma DateStampValue(d: Day)
    requires ValidDay(d)
    ensures DigitsValue(DateStamp(d)) == d.year * 10000 + d.month * 100 + d.day
  {
    var s := DateStamp(d);
    DigitCharValue(d.year / 1000);
    DigitCharValue(d.year / 100 % 10);
    DigitCharValue(d.year / 10 % 10);
    DigitCharValue(d.year % 10);
    DigitCharValue(d.month / 10);
    DigitCharValue(d.month % 10);
    DigitCharValue(d.day / 10);
    DigitCharValue(d.day % 10);
    EightDigitsValue(s);
    FourDigits(d.year);
  }

  /** What every number issued on day `d` starts with. */
  function Prefix(d: Day): string
    requires ValidDay(d)
  {
    "ORD" + "-" + DateStamp(d)
  }

  function SequenceField(sequence: nat): (r: string)
    ensures |r| >= 5 && AllDigits(r)
  {
    PadZeros(Decimal(sequence), 5)
  }

  /** The number issued on day `d` with the given sequence. */
  function Format(d: Day, sequence: nat): string
    requires ValidDay(d)
  {
    Prefix(d) + "-" + SequenceField(sequence)
  }

  predicate HasPrefix(s: string, p: string)
  {
    |p| <= |s| && s[..|p|] == p
  }

  /** The sequence read back from a number: its third dash-separated field
      parsed as a decimal integer, `None` where parsing gives NaN. */
  function SequenceOf(number: string): Option<nat>
  {
    var fields := Split(number, '-');
    if |fields| < 3 then None else ParseInt(fields[2])
  }

  /** The third field of `a-b-c` is `c` when `a` holds no dash and `b` is
      all digits, and a non-empty digit string parses to its value. */
  lemma SequenceOfFields(a: string, b: string, c: string)
    requires '-' !in a && AllDigits(b) && c != [] && AllDigits(c)
    ensures SequenceOf(a + "-" + b + "-" + c) == Some(DigitsValue(c))
  {
    var s := a + "-" + b + "-" + c;
    assert forall i | 0 <= i < |b| :: b[i] != '-';
    assert s == a + ['-'] + (b + ['-'] + c);
    SplitAtSep(a, '-', b + ['-'] + c);
    SplitAtSep(b, '-', c);
    assert forall i | 0 <= i < |c| :: c[i] != '-';
    SplitNoSep(c, '-');
    assert Split(s, '-') == [a, b, c];
    LeadingDigitsOfDigits(c);
  }

  /** Reading the sequence back from a formatted number gives the sequence
      it was formatted with, for every sequence (padding never truncates). */
  lemma FormatRoundTrip(d: Day, sequence: nat)
    requires ValidDay(d)
    ensures SequenceOf(Format(d, sequence)) == Some(sequence)
  {
    var stamp, field := DateStamp(d), SequenceField(sequence);
    assert Format(d, sequence) == "ORD" + "-" + stamp + "-" + field;
    assert SequenceOf("ORD" + "-" + stamp + "-" + field) == Some(DigitsValue(field)) by {
      SequenceOfFields("ORD", stamp, field);
    }
    assert DigitsValue(field) == sequence by {
      PaddedDecimalValue(sequence, 5);
    }
  }

  lemma FormatHasPrefix(d: Day, sequence: nat)
    requires ValidDay(d)
    ensures HasPrefix(Format(d, sequence), Prefix(d))
  {
    assert Format(d, sequence)[..|Prefix(d)|] == Prefix(d);
  }

  /** The greatest sequence among the numbers issued on day `d` (0 when
      there are none). */
  function MaxSequence(numbers: seq<string>, d: Day): (m: nat)
    requires ValidDay(d)
    ensures forall i | 0 <= i < |numbers| && HasPrefix(numbers[i], Prefix(d)) && SequenceOf(numbers[i]).Some?
              :: SequenceOf(numbers[i]).value <= m
    ensures m == 0 || exists i | 0 <= i < |numbers| :: HasPrefix(numbers[i], Prefix(d)) && SequenceOf(numbers[i]) == Some(m)
  {
    if numbers == [] then 0
    else
      var init := numbers[..|numbers| - 1];
      var m := MaxSequence(init, d);
      var x := numbers[|numbers| - 1];
      assert forall i | 0 <= i < |init| :: init[i] == numbers[i];
      if HasPrefix(x, Prefix(d)) && SequenceOf(x).Some? && SequenceOf(x).value > m then SequenceOf(x).value else m
  }

  /** The sequence of the next number issued on day `d`: 1 on a day with no
      number yet, otherwise one more than the day's greatest sequence. */
  function NextSequence(numbers: seq<string>, d: Day): (r: nat)
    requires ValidDay(d)
    ensures r >= 1
    ensures (forall i | 0 <= i < |numbers| :: !HasPrefix(numbers[i], Prefix(d))) ==> r == 1
    ensures forall i | 0 <= i < |numbers| && HasPrefix(numbers[i], Prefix(d)) && SequenceOf(numbers[i]).Some?
              :: SequenceOf(numbers[i]).value < r
    ensures r == 1 || exists i | 0 <= i < |numbers| :: HasPrefix(numbers[i], Prefix(d)) && SequenceOf(numbers[i]) == Some(r - 1)
  {
    MaxSequence(numbers, d) + 1
  }

  /** Issued one after another, numbers never repeat: the next number of a
      day is none of the numbers already issued. */
  lemma NextNumberIsFresh(numbers: seq<string>, d: Day)
    requires ValidDay(d)
    ensures Format(d, NextSequence(numbers, d)) !in numbers
  {
    var n := NextSequence(numbers, d);
    if Format(d, n) in numbers {
      var i :| 0 <= i < |numbers| && numbers[i] == Format(d, n);
      FormatHasPrefix(d, n);
      FormatRoundTrip(d, n);
      assert false;
    }
  }

  /** Sequences of a day are dense: after the next number is issued, the
      one after it is its successor. */
  lemma NextSequenceDense(numbers: seq<string>, d: Day)
    requires ValidDay(d)
    ensures NextSequence(numbers + [Format(d, NextSequence(numbers, d))], d) == NextSequence(numbers, d) + 1
  {
    var n := NextSequence(numbers, d);
    var ns := numbers + [Format(d, n)];
    assert ns[..|ns| - 1] == numbers;
    FormatHasPrefix(d, n);
    FormatRoundTrip(d, n);
  }

  // The number the order store returns for "the last order of the day":
  // sorted by number descending, i.e. by string order, not numeric order.

  lemma {:induction false} LexLessIrreflexive(a: string)
    ensures !LexLess(a, a)
  {
    if a != [] {
      LexLessIrreflexive(a[1..]);
    }
  }

  lemma {:induction false} LexLessTransitive(a: string, b: string, c: string)
    requires LexLess(a, b) && LexLess(b, c)
    ensures LexLess(a, c)
  {
    if a != [] && b != [] && c != [] && a[0] == b[0] && b[0] == c[0] {
      LexLessTransitive(a[1..], b[1..], c[1..]);
    }
  }

  /** The greatest number with prefix `p` in string order. */
  function LastOfDay(numbers: seq<string>, p: string): (r: Option<string>)
    ensures r.Some? ==> r.value in numbers && HasPrefix(r.value, p)
    ensures r.Some? ==> forall i | 0 <= i < |numbers| && HasPrefix(numbers[i], p) :: !LexLess(r.value, numbers[i])
    ensures r.None? ==> forall i | 0 <= i < |numbers| :: !HasPrefix(numbers[i], p)
  {
    if numbers == [] then None
    else
      var init := numbers[..|numbers| - 1];
      var x := numbers[|numbers| - 1];
      var r := LastOfDay(init, p);
      assert forall i | 0 <= i < |init| :: init[i] == numbers[i];
      if !HasPrefix(x, p) then r
      else
        LexLessIrreflexive(x);
        match r
        case None => Some(x)
        case Some(y) =>
          if LexLess(y, x) then
            assert forall i | 0 <= i < |init| && HasPrefix(init[i], p) :: !LexLess(x, init[i]) by {
              forall i | 0 <= i < |init| && HasPrefix(init[i], p) ensures !LexLess(x, init[i]) {
                if LexLess(x, init[i]) { LexLessTransitive(y, x, init[i]); }
              }
            }
            Some(x)
          else Some(y)
  }

  /** The next sequence as the pre-save hook computes it: 1 when the day has
      no number, otherwise the sequence of the string-greatest number plus
      one (`None` where that sequence does not parse). */
  function NextSequenceAsWritten(numbers: seq<string>, d: Day): Option<nat>
    requires ValidDay(d)
  {
    match LastOfDay(numbers, Prefix(d))
    case None => Some(1)
    case Some(last) =>
      match SequenceOf(last)
      case None => None
      case Some(v) => Some(v + 1)
  }

  /** Once a day has a six-digit sequence, string order puts `...-99999`
      above `...-100000`, so the hook issues 100000 a second time. */
  lemma AsWrittenRepeatsAfter99999(d: Day)
    requires ValidDay(d)
    ensures var numbers := [Format(d, 99999), Format(d, 100000)];
            NextSequenceAsWritten(numbers, d) == Some(100000) && Format(d, 100000) in numbers
  {
    var a, b := Format(d, 99999), Format(d, 100000);
    FormatHasPrefix(d, 99999);
    FormatHasPrefix(d, 100000);
    SixDigitsSortFirst(Prefix(d) + "-");
    LastOfTwo(a, b, Prefix(d));
    FormatRoundTrip(d, 99999);
  }

  /** Below 100000 the sequence field is exactly five digits wide. */
  lemma FiveDigitField(sequence: nat)
    requires sequence <= 99999
    ensures |SequenceField(sequence)| == 5
  {
    DecimalLength(sequence, 5);
  }

  /** For sequences below 100000, string order on the day's numbers is
      numeric order on their sequences. */
  lemma FormatOrder(d: Day, s: nat, t: nat)
    requires ValidDay(d) && s < t <= 99999
    ensures LexLess(Format(d, s), Format(d, t))
  {
    FiveDigitField(s);
    FiveDigitField(t);
    PaddedDecimalValue(s, 5);
    PaddedDecimalValue(t, 5);
    DigitsOrder(SequenceField(s), SequenceField(t));
    var p := Prefix(d) + "-";
    assert Format(d, s) == p + SequenceField(s) && Format(d, t) == p + SequenceField(t);
    LexLessCommonPrefix(p, SequenceField(s), SequenceField(t));
  }

  /** The day's numbers as the hook issues them while sequences stay
      below 100000. */
  predicate IssuedBelow100000(numbers: seq<string>, d: Day)
    requires ValidDay(d)
  {
    forall i {:trigger HasPrefix(numbers[i], Prefix(d))} | 0 <= i < |numbers| && HasPrefix(numbers[i], Prefix(d))
      :: SequenceOf(numbers[i]).Some? && SequenceOf(numbers[i]).value <= 99999
         && numbers[i] == Format(d, SequenceOf(numbers[i]).value)
  }

  /** The string-greatest number of the day is one the hook issued. */
  lemma LastIsIssued(numbers: seq<string>, d: Day, last: string) returns (sl: nat)
    requires ValidDay(d) && IssuedBelow100000(numbers, d)
    requires LastOfDay(numbers, Prefix(d)) == Some(last)
    ensures sl <= 99999 && last == Format(d, sl)
  {
    var j :| 0 <= j < |numbers| && numbers[j] == last;
    assert HasPrefix(numbers[j], Prefix(d));
    sl := SequenceOf(last).value;
  }

  /** The string-greatest number of the day carries the day's greatest
      sequence, as long as every sequence stays below 100000. */
  lemma LastCarriesMax(numbers: seq<string>, d: Day, last: string, sl: nat)
    requires ValidDay(d) && IssuedBelow100000(numbers, d)
    requires LastOfDay(numbers, Prefix(d)) == Some(last)
    requires sl <= 99999 && last == Format(d, sl)
    ensures MaxSequence(numbers, d) == sl
  {
    var p := Prefix(d);
    var j :| 0 <= j < |numbers| && numbers[j] == last;
    FormatRoundTrip(d, sl);
    var m := MaxSequence(numbers, d);
    assert SequenceOf(numbers[j]).value <= m;
    if m > sl {
      var i :| 0 <= i < |numbers| && HasPrefix(numbers[i], p) && SequenceOf(numbers[i]) == Some(m);
      FormatOrder(d, sl, m);
      assert false;
    }
  }

  /** Below 100000, the hook's next sequence is one more than the day's
      greatest. */
  lemma AsWrittenIsMaxPlusOne(numbers: seq<string>, d: Day)
    requires ValidDay(d) && IssuedBelow100000(numbers, d)
    ensures NextSequenceAsWritten(numbers, d) == Some(MaxSequence(numbers, d) + 1)
  {
    var last := LastOfDay(numbers, Prefix(d));
    if last.Some? {
      var sl := LastIsIssued(numbers, d, last.value);
      FormatRoundTrip(d, sl);
      LastCarriesMax(numbers, d, last.value, sl);
    }
  }

  /** While every number of the day is one the hook issued with a sequence
      below 100000, the string-sorted "last order of the day" gives the same
      next sequence as the numeric maximum. */
  lemma AsWrittenAgreesBelow100000(numbers: seq<string>, d: Day)
    requires ValidDay(d) && IssuedBelow100000(numbers, d)
    ensures NextSequenceAsWritten(numbers, d) == Some(NextSequence(numbers, d))
  {
    var next := NextSequence(numbers, d);
    assert next == MaxSequence(numbers, d) + 1;
    AsWrittenIsMaxPlusOne(numbers, d);
  }

  lemma SixDigitsSortFirst(p: string)
    ensures !LexLess(p + SequenceField(99999), p + SequenceField(100000))
  {
    assert Decimal(99999) == "99999";
    assert Decimal(100000) == "100000";
    LexLessCommonPrefix(p, SequenceField(99999), SequenceField(100000));
  }

  lemma LastOfTwo(a: string, b: string, p: string)
    requires HasPrefix(a, p) && HasPrefix(b, p) && !LexLess(a, b)
    ensures LastOfDay([a, b], p) == Some(a)
  {
    assert [a, b][..1] == [a];
    assert [a][..0] == [];
  }
}
