/**
  clean_budget from src/utils.py: normalises a money amount written as text, where an
  "M"/"m" anywhere means millions and a "K"/"k" anywhere means thousands.
*/
module Budget {
  import opened Wrappers
  import opened PyText

  const Million: int := 1_000_000
  const Thousand: int := 1_000

  /** re.search(r"[Mm]", s) finds a match. */
  predicate HasMillionMark(s: string) {
    'M' in s || 'm' in s
  }

  /** re.search(r"[Kk]", s) finds a match. */
  predicate HasThousandMark(s: string) {
    'K' in s || 'k' in s
  }

  /** A character of the regular expression class [\d\.]. */
  predicate IsNumeric(c: char) {
    IsDigit(c) || c == '.'
  }

  predicate AllNumeric(s: string) {
    forall k :: 0 <= k < |s| ==> IsNumeric(s[k])
  }

  /** re.sub(r"[^\d\.]", "", s): `s` with every character other than a digit or a dot deleted. */
  function KeepNumeric(s: string): (r: string)
    ensures AllNumeric(r)
    ensures |r| <= |s|
  {
    if s == [] then [] else (if IsNumeric(s[0]) then [s[0]] else []) + KeepNumeric(s[1..])
  }

  /** The deletion works character by character. */
  lemma {:induction false} KeepNumericAppend(a: string, b: string)
    ensures KeepNumeric(a + b) == KeepNumeric(a) + KeepNumeric(b)
  {
    if a == [] {
      assert a + b == b;
    } else {
      var head := if IsNumeric(a[0]) then [a[0]] else [];
      calc {
        KeepNumeric(a + b);
        { assert (a + b)[0] == a[0]; assert (a + b)[1..] == a[1..] + b; }
        head + KeepNumeric(a[1..] + b);
        { KeepNumericAppend(a[1..], b); }
        head + (KeepNumeric(a[1..]) + KeepNumeric(b));
        (head + KeepNumeric(a[1..])) + KeepNumeric(b);
      }
    }
  }

  /** One character is kept exactly when it is numeric. */
  lemma {:induction false} KeepNumericOne(c: char)
    ensures KeepNumeric([c]) == if IsNumeric(c) then [c] else []
  {
    assert [c][1..] == [];
  }

  /** Only non-numeric characters are deleted: numeric text is left as it is. */
  lemma {:induction false} KeepNumericOfNumeric(s: string)
    requires AllNumeric(s)
    ensures KeepNumeric(s) == s
  {
    if s != [] {
      KeepNumericOfNumeric(s[1..]);
    }
  }

  /** int(x) * factor, where a failed int() gives the missing marker. */
  function Scaled(v: Option<int>, factor: int): Option<int> {
    match v
    case None => None
    case Some(x) => Some(x * factor)
  }

  /** clean_budget(num) for a str `num`; None stands for np.nan. */
  function CleanBudget(num: string): Option<int> {
    var t := Strip(num);
    if HasMillionMark(t) then Scaled(PyInt(KeepNumeric(t)), Million)
    else if HasThousandMark(t) then Scaled(PyInt(KeepNumeric(t)), Thousand)
    else PyInt(t)
  }

  /** What the M and K branches compute from the filtered text `d`. */
  lemma {:induction false} SuffixReading(d: string, factor: int)
    requires AllNumeric(d)
    ensures Scaled(PyInt(d), factor) ==
      if d != [] && AllDigits(d) && |d| <= MaxStrDigits then Some(DigitsValue(d) * factor) else None
  {
    PyIntDigitsAndDots(d);
    if d != [] && AllDigits(d) { PyIntDigits(d); }
  }

  /** With an M/m present the result is the filtered digits times 1,000,000, or missing. */
  lemma {:induction false} MillionBranch(num: string)
    requires HasMillionMark(Strip(num))
    ensures var d := KeepNumeric(Strip(num));
      CleanBudget(num) ==
        if d != [] && AllDigits(d) && |d| <= MaxStrDigits then Some(DigitsValue(d) * Million) else None
  {
    SuffixReading(KeepNumeric(Strip(num)), Million);
  }

  /** With a K/k and no M/m present the result is the filtered digits times 1,000, or missing. */
  lemma {:induction false} ThousandBranch(num: string)
    requires !HasMillionMark(Strip(num)) && HasThousandMark(Strip(num))
    ensures var d := KeepNumeric(Strip(num));
      CleanBudget(num) ==
        if d != [] && AllDigits(d) && |d| <= MaxStrDigits then Some(DigitsValue(d) * Thousand) else None
  {
    SuffixReading(KeepNumeric(Strip(num)), Thousand);
  }

  lemma {:induction false} MultipleOf(x: int)
    ensures (x * Million) % Million == 0 && (x * Thousand) % Thousand == 0
  {
  }

  /** When both marks occur the M branch decides: the multiplier is 1,000,000, never 1,000. */
  lemma {:induction false} MillionWins(num: string)
    requires HasMillionMark(Strip(num)) && HasThousandMark(Strip(num))
    ensures CleanBudget(num) == Scaled(PyInt(KeepNumeric(Strip(num))), Million)
    ensures CleanBudget(num).Some? ==> CleanBudget(num).value % Million == 0
  {
    var d := KeepNumeric(Strip(num));
    MillionBranch(num);
    if d != [] && AllDigits(d) { MultipleOf(DigitsValue(d)); }
  }

  /**
    In the M and K branches an empty filtered text, one with a dot, or one of more digits
    than int() accepts, gives the missing marker.
  */
  lemma {:induction false} SuffixNeedsWholeNumber(num: string)
    requires HasMillionMark(Strip(num)) || HasThousandMark(Strip(num))
    requires var d := KeepNumeric(Strip(num)); d == [] || '.' in d || |d| > MaxStrDigits
    ensures CleanBudget(num) == None
  {
    var d := KeepNumeric(Strip(num));
    assert !AllDigits(d) || d == [] || |d| > MaxStrDigits by {
      if '.' in d { var k :| 0 <= k < |d| && d[k] == '.'; assert !IsDigit(d[k]); }
    }
    if HasMillionMark(Strip(num)) { MillionBranch(num); } else { ThousandBranch(num); }
  }

  /** A number from the M or K branch is non-negative and a whole multiple of its unit. */
  lemma {:induction false} SuffixResultBounds(num: string)
    ensures HasMillionMark(Strip(num)) && CleanBudget(num).Some? ==>
      CleanBudget(num).value >= 0 && CleanBudget(num).value % Million == 0
    ensures !HasMillionMark(Strip(num)) && HasThousandMark(Strip(num)) && CleanBudget(num).Some? ==>
      CleanBudget(num).value >= 0 && CleanBudget(num).value % Thousand == 0
  {
    var d := KeepNumeric(Strip(num));
    if HasMillionMark(Strip(num)) {
      MillionBranch(num);
      if d != [] && AllDigits(d) { MultipleOf(DigitsValue(d)); }
    } else if HasThousandMark(Strip(num)) {
      ThousandBranch(num);
      if d != [] && AllDigits(d) { MultipleOf(DigitsValue(d)); }
    }
  }

  /** Without any mark the trimmed text goes to int() itself. */
  lemma {:induction false} PlainBranch(num: string)
    requires !HasMillionMark(Strip(num)) && !HasThousandMark(Strip(num))
    ensures CleanBudget(num) == PyInt(Strip(num))
    ensures CleanBudget(num).Some? <==>
      IsDigitGroups(Unsigned(Strip(num))) && |WithoutUnderscores(Unsigned(Strip(num)))| <= MaxStrDigits
  {
    StrippedIsIntTrimmed(num);
  }

  lemma {:induction false} DecimalHasNoMark(n: nat)
    ensures !HasMillionMark(Decimal(n)) && !HasThousandMark(Decimal(n))
    ensures !IsSpace(Decimal(n)[0]) && !IsSpace(Decimal(n)[|Decimal(n)| - 1])
  {
    var d := Decimal(n);
    assert forall c :: c in d ==> IsDigit(c);
  }

  /** A numeral followed by a letter is left as it is by strip() and loses the letter to the filter. */
  lemma {:induction false} DecimalThenLetter(n: nat, mark: char)
    requires 'A' <= mark <= 'Z' || 'a' <= mark <= 'z'
    ensures Strip(Decimal(n) + [mark]) == Decimal(n) + [mark]
    ensures KeepNumeric(Decimal(n) + [mark]) == Decimal(n)
  {
    var d := Decimal(n);
    var s := d + [mark];
    assert IsTrimmed(StrSpaces, s) by {
      DecimalHasNoMark(n);
      assert s[0] == d[0];
    }
    TrimTrimmed(StrSpaces, s);
    assert KeepNumeric(s) == d by {
      assert KeepNumeric([mark]) == [] by { assert [mark][1..] == []; }
      KeepNumericAppend(d, [mark]);
      KeepNumericOfNumeric(d);
    }
  }

  /**
    A non-negative amount written in millions reads back as that many millions, unless
    it has more digits than int() accepts.
  */
  lemma {:induction false} MillionsRoundTrip(n: nat, mark: char)
    requires mark == 'M' || mark == 'm'
    ensures CleanBudget(Decimal(n) + [mark]) == if |Decimal(n)| <= MaxStrDigits then Some(n * Million) else None
  {
    var d := Decimal(n);
    var s := d + [mark];
    DecimalThenLetter(n, mark);
    assert HasMillionMark(s) by { assert s[|d|] == mark; }
    assert PyInt(d) == if |d| <= MaxStrDigits then Some(n) else None by {
      PyIntDigits(d);
      DecimalValue(n);
    }
  }

  /**
    A non-negative amount written in thousands reads back as that many thousands, unless
    it has more digits than int() accepts.
  */
  lemma {:induction false} ThousandsRoundTrip(n: nat, mark: char)
    requires mark == 'K' || mark == 'k'
    ensures CleanBudget(Decimal(n) + [mark]) == if |Decimal(n)| <= MaxStrDigits then Some(n * Thousand) else None
  {
    var d := Decimal(n);
    var s := d + [mark];
    DecimalThenLetter(n, mark);
    assert !HasMillionMark(s) && HasThousandMark(s) by {
      DecimalHasNoMark(n);
      assert forall c :: c in s ==> c in d || c == mark;
      assert s[|d|] == mark;
    }
    assert PyInt(d) == if |d| <= MaxStrDigits then Some(n) else None by {
      PyIntDigits(d);
      DecimalValue(n);
    }
  }

  /**
    Any integer written plainly, as str(i) writes it, reads back unchanged; past the
    digit limit the result is missing.
  */
  lemma {:induction false} PlainRoundTrip(i: int)
    ensures CleanBudget(IntToString(i)) == if |Decimal(if i < 0 then -i else i)| <= MaxStrDigits then Some(i) else None
  {
    var n: nat := if i < 0 then -i else i;
    var s := IntToString(i);
    DecimalHasNoMark(n);
    assert !HasMillionMark(s) && !HasThousandMark(s) && IsTrimmed(StrSpaces, s) by {
      assert forall c :: c in s ==> c in Decimal(n) || c == '-';
      assert s[|s| - 1] == Decimal(n)[|Decimal(n)| - 1];
    }
    TrimTrimmed(StrSpaces, s);
    PyIntRoundTrip(i);
  }

  /** "15M" is fifteen million. */
  lemma {:induction false} FifteenMillion()
    ensures CleanBudget("15M") == Some(15_000_000)
  {
    assert Decimal(15) + ['M'] == "15M" by { assert Decimal(1) == "1"; }
    MillionsRoundTrip(15, 'M');
  }

  /** "500K" is five hundred thousand. */
  lemma {:induction false} FiveHundredThousand()
    ensures CleanBudget("500K") == Some(500_000)
  {
    assert Decimal(500) + ['K'] == "500K" by { assert Decimal(50) == "50"; }
    ThousandsRoundTrip(500, 'K');
  }

  /** "2000000" is read as it stands. */
  lemma {:induction false} PlainTwoMillion()
    ensures CleanBudget("2000000") == Some(2_000_000)
  {
    assert IntToString(2_000_000) == "2000000" by {
      assert Decimal(2) == "2";
      assert Decimal(20) == "20";
      assert Decimal(200) == "200";
      assert Decimal(2000) == "2000";
      assert Decimal(20000) == "20000";
      assert Decimal(200000) == "200000";
    }
    PlainRoundTrip(2_000_000);
  }

  /** "abcM" and "1.5M" have no whole number to scale and are missing. */
  lemma {:induction false} NoWholeNumberIsMissing()
    ensures CleanBudget("abcM") == None
    ensures CleanBudget("1.5M") == None
  {
    TrimTrimmed(StrSpaces, "abcM");
    assert HasMillionMark("abcM") by { assert "abcM"[3] == 'M'; }
    assert KeepNumeric("abcM") == [];
    SuffixNeedsWholeNumber("abcM");
    TrimTrimmed(StrSpaces, "1.5M");
    assert HasMillionMark("1.5M") by { assert "1.5M"[3] == 'M'; }
    assert KeepNumeric("1.5M") == "1.5";
    assert "1.5"[1] == '.';
    SuffixNeedsWholeNumber("1.5M");
  }

  /** Filtering "<x>M<y>K" for numeric x and y leaves x and y joined. */
  lemma {:induction false} FilterBothMarks(x: string, y: string)
    requires AllNumeric(x) && AllNumeric(y)
    ensures KeepNumeric(x + "M" + y + "K") == x + y
  {
    assert KeepNumeric("M") == [] && KeepNumeric("K") == [] by {
      assert "M"[1..] == [] && "K"[1..] == [];
    }
    KeepNumericOfNumeric(x);
    KeepNumericOfNumeric(y);
    KeepNumericAppend(x, "M");
    KeepNumericAppend(x + "M", y);
    KeepNumericAppend(x + "M" + y, "K");
  }

  /**
    "<a>M<b>K" (say "1M500K") is not a million-and-some-thousands amount: the digits
    of a and b are joined and the whole is read as millions.
  */
  lemma {:induction false} JoinedDigitsWithBothMarks(a: nat, b: nat)
    ensures CleanBudget(Decimal(a) + "M" + Decimal(b) + "K")
      == if |Decimal(a)| + |Decimal(b)| <= MaxStrDigits then Some(DigitsValue(Decimal(a) + Decimal(b)) * Million) else None
  {
    var da, db := Decimal(a), Decimal(b);
    var s := da + "M" + db + "K";
    DecimalHasNoMark(a);
    assert s[0] == da[0] && s[|s| - 1] == 'K';
    TrimTrimmed(StrSpaces, s);
    assert s[|da|] == 'M';
    FilterBothMarks(da, db);
    MillionBranch(s);
  }
}
