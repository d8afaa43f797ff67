/**
  The two pieces of Python's text handling that src/utils.py relies on:
  str.strip() with no argument, and int() applied to a str in base 10.
*/
module PyText {
  import opened Wrappers

  // ---------------------------------------------------------------------
  // Whitespace and trimming
  // ---------------------------------------------------------------------

  /** The characters for which Python's str.isspace() holds. */
  predicate IsSpace(c: char) {
    || ('\t' <= c <= '\r')                 // \t \n \x0b \x0c \r
    || ('\U{1C}' <= c <= '\U{1F}')         // file, group, record and unit separators
    || c == ' ' || c == '\U{85}' || c == '\U{A0}' || c == '\U{1680}'
    || ('\U{2000}' <= c <= '\U{200A}')
    || c == '\U{2028}' || c == '\U{2029}' || c == '\U{202F}' || c == '\U{205F}' || c == '\U{3000}'
  }

  /**
    The two whitespace sets in play. str.strip() removes every str.isspace() character.
    int() maps non-ASCII whitespace to a space and then skips the ASCII whitespace of C's
    isspace(), so the separators \x1c..\x1f are not whitespace to it.
  */
  datatype Spaces = StrSpaces | IntSpaces

  predicate IsBlank(w: Spaces, c: char) {
    IsSpace(c) && (w == StrSpaces || !('\U{1C}' <= c <= '\U{1F}'))
  }

  predicate AllBlank(w: Spaces, s: string) {
    forall k :: 0 <= k < |s| ==> IsBlank(w, s[k])
  }

  /** Neither end of `s` is whitespace. */
  predicate IsTrimmed(w: Spaces, s: string) {
    s == [] || (!IsBlank(w, s[0]) && !IsBlank(w, s[|s| - 1]))
  }

  /** The length of the whitespace run that starts `s`. */
  function LeadingBlanks(w: Spaces, s: string): (n: nat)
    ensures n <= |s|
    ensures forall k :: 0 <= k < n ==> IsBlank(w, s[k])
    ensures n < |s| ==> !IsBlank(w, s[n])
  {
    if s == [] || !IsBlank(w, s[0]) then 0 else 1 + LeadingBlanks(w, s[1..])
  }

  /** The length of the whitespace run that ends `s`. */
  function TrailingBlanks(w: Spaces, s: string): (n: nat)
    ensures n <= |s|
    ensures forall k :: |s| - n <= k < |s| ==> IsBlank(w, s[k])
    ensures n < |s| ==> !IsBlank(w, s[|s| - 1 - n])
  {
    if s == [] || !IsBlank(w, s[|s| - 1]) then 0 else 1 + TrailingBlanks(w, s[..|s| - 1])
  }

  /** `s` without its leading and trailing whitespace of kind `w`. */
  function Trim(w: Spaces, s: string): (r: string)
    ensures IsTrimmed(w, r)
    ensures LeadingBlanks(w, s) + |r| <= |s|
    ensures r == s[LeadingBlanks(w, s)..LeadingBlanks(w, s) + |r|]
    ensures AllBlank(w, s[..LeadingBlanks(w, s)]) && AllBlank(w, s[LeadingBlanks(w, s) + |r|..])
  {
    var i := LeadingBlanks(w, s);
    if i == |s| then [] else s[i..|s| - TrailingBlanks(w, s)]
  }

  /** Python's s.strip() with no argument. */
  function Strip(s: string): string {
    Trim(StrSpaces, s)
  }

  /** Trimming removes exactly the whitespace around a trimmed core, and nothing else. */
  lemma {:induction false} TrimExact(w: Spaces, a: string, m: string, b: string)
    requires AllBlank(w, a) && AllBlank(w, b) && IsTrimmed(w, m)
    ensures Trim(w, a + m + b) == m
  {
    var s := a + m + b;
    var i := LeadingBlanks(w, s);
    if m == [] {
      assert AllBlank(w, s) by {
        forall k | 0 <= k < |s| ensures IsBlank(w, s[k]) {
          if k < |a| { assert s[k] == a[k]; } else { assert s[k] == b[k - |a|]; }
        }
      }
      assert i == |s|;
    } else {
      assert s[|a|] == m[0];
      assert forall k :: 0 <= k < |a| ==> s[k] == a[k];
      assert i == |a|;
      var t := TrailingBlanks(w, s);
      assert s[|a| + |m| - 1] == m[|m| - 1];
      assert forall k :: |a| + |m| <= k < |s| ==> s[k] == b[k - |a| - |m|];
      assert t == |b|;
      assert s[i..|s| - t] == m;
    }
  }

  /** A string that does not start or end with whitespace is its own trim. */
  lemma {:induction false} TrimTrimmed(w: Spaces, s: string)
    requires IsTrimmed(w, s)
    ensures Trim(w, s) == s
  {
    TrimExact(w, [], s, []);
    assert [] + s + [] == s;
  }

  /** A character that does not occur in `s` does not occur in its trim. */
  lemma {:induction false} TrimOmits(w: Spaces, s: string, c: char)
    requires c !in s
    ensures c !in Trim(w, s)
  {
    var r := Trim(w, s);
    var i := LeadingBlanks(w, s);
    assert forall k :: 0 <= k < |r| ==> r[k] == s[i + k];
  }

  /** What str.strip() leaves, int() does not trim further. */
  lemma {:induction false} StrippedIsIntTrimmed(s: string)
    ensures Trim(IntSpaces, Strip(s)) == Strip(s)
  {
    assert IsTrimmed(IntSpaces, Strip(s));
    TrimTrimmed(IntSpaces, Strip(s));
  }

  // ---------------------------------------------------------------------
  // Decimal digits
  // ---------------------------------------------------------------------

  /** The ASCII digits '0'..'9'; the regular expression class \d is read as exactly these. */
  predicate IsDigit(c: char) {
    '0' <= c <= '9'
  }

  predicate AllDigits(s: string) {
    forall k :: 0 <= k < |s| ==> IsDigit(s[k])
  }

  /** The number a string of decimal digits denotes, most significant digit first. */
  function DigitsValue(s: string): nat
    requires AllDigits(s)
  {
    if s == [] then 0 else DigitsValue(s[..|s| - 1]) * 10 + (s[|s| - 1] as int - '0' as int)
  }

  function DigitChar(d: nat): (c: char)
    requires d < 10
    ensures IsDigit(c) && c as int - '0' as int == d
  {
    ('0' as int + d) as char
  }

  /** The shortest decimal numeral of `n`, as Python's str(n). */
  function Decimal(n: nat): (s: string)
    ensures s != [] && AllDigits(s)
  {
    if n < 10 then [DigitChar(n)] else Decimal(n / 10) + [DigitChar(n % 10)]
  }

  lemma {:induction false} DecimalValue(n: nat)
    ensures DigitsValue(Decimal(n)) == n
  {
    if n >= 10 {
      DecimalValue(n / 10);
      var s := Decimal(n);
      assert s[..|s| - 1] == Decimal(n / 10);
    }
  }

  /**
    Python's str(i) for an int. Python refuses to convert an int of more than
    MaxStrDigits digits, so only those within the limit have this text.
  */
  function IntToString(i: int): string {
    if i < 0 then "-" + Decimal(-i) else Decimal(i)
  }

  // ---------------------------------------------------------------------
  // int(s) on a str, base 10
  // ---------------------------------------------------------------------

  /**
    sys.get_int_max_str_digits() at its default: int() raises ValueError on a decimal
    text of more digits than this (underscores not counted), and so does str() on an
    int of more digits.
  */
  const MaxStrDigits: nat := 4300

  predicate IsSign(c: char) {
    c == '+' || c == '-'
  }

  /** Digits in groups separated by single underscores: digit ('_'? digit)*. */
  predicate IsDigitGroups(s: string) {
    && s != []
    && IsDigit(s[0])
    && IsDigit(s[|s| - 1])
    && (forall k :: 0 <= k < |s| ==> IsDigit(s[k]) || s[k] == '_')
    && (forall k :: 0 <= k < |s| - 1 ==> s[k] != '_' || s[k + 1] != '_')
  }

  /** `s` with every underscore removed. */
  function WithoutUnderscores(s: string): (r: string)
    ensures (forall k :: 0 <= k < |s| ==> IsDigit(s[k]) || s[k] == '_') ==> AllDigits(r)
    ensures AllDigits(s) ==> r == s
  {
    if s == [] then [] else (if s[0] == '_' then [] else [s[0]]) + WithoutUnderscores(s[1..])
  }

  /** The text after an optional leading sign. */
  function Unsigned(t: string): string {
    if t != [] && IsSign(t[0]) then t[1..] else t
  }

  /**
    Python's int(s): surrounding whitespace is ignored, then an optional sign, then
    decimal digit groups of at most MaxStrDigits digits. None stands for the ValueError
    int() raises otherwise.
  */
  function PyInt(s: string): Option<int> {
    var t := Trim(IntSpaces, s);
    var body := Unsigned(t);
    if IsDigitGroups(body) && |WithoutUnderscores(body)| <= MaxStrDigits then
      var v: int := DigitsValue(WithoutUnderscores(body));
      Some(if t[0] == '-' then -v else v)
    else
      None
  }

  /**
    On a plain digit string, int() gives its value, and fails exactly on the empty
    string and on one of more than MaxStrDigits digits.
  */
  lemma {:induction false} PyIntDigits(d: string)
    requires AllDigits(d)
    ensures PyInt(d) == if d == [] || |d| > MaxStrDigits then None else Some(DigitsValue(d))
  {
    if d != [] {
      assert !IsSpace(d[0]) && !IsSpace(d[|d| - 1]);
      TrimTrimmed(IntSpaces, d);
      assert !IsSign(d[0]);
    }
  }

  /**
    On digits and dots only, int() succeeds exactly on non-empty all-digit text
    within the digit limit.
  */
  lemma {:induction false} PyIntDigitsAndDots(s: string)
    requires forall k :: 0 <= k < |s| ==> IsDigit(s[k]) || s[k] == '.'
    ensures PyInt(s).Some? <==> s != [] && AllDigits(s) && |s| <= MaxStrDigits
  {
    if AllDigits(s) {
      PyIntDigits(s);
    } else {
      var k :| 0 <= k < |s| && s[k] == '.';
      assert !IsSpace(s[0]) && !IsSpace(s[|s| - 1]);
      TrimTrimmed(IntSpaces, s);
      assert !IsSign(s[0]);
      assert !IsDigitGroups(s) by { assert !IsDigit(s[k]) && s[k] != '_'; }
    }
  }

  /** int() on text without surrounding whitespace whose unsigned part is plain digits. */
  lemma {:induction false} PyIntSignedDigits(t: string, d: string)
    requires IsTrimmed(IntSpaces, t) && Unsigned(t) == d && d != [] && AllDigits(d)
    ensures PyInt(t) == if |d| > MaxStrDigits then None
      else Some(if t[0] == '-' then -(DigitsValue(d) as int) else DigitsValue(d))
  {
    TrimTrimmed(IntSpaces, t);
    assert IsDigitGroups(d);
  }

  /** int(str(i)) == i for every integer str() can write out; past the digit limit int() fails. */
  lemma {:induction false} PyIntRoundTrip(i: int)
    ensures PyInt(IntToString(i)) == if |Decimal(if i < 0 then -i else i)| <= MaxStrDigits then Some(i) else None
  {
    var n: nat := if i < 0 then -i else i;
    var d := Decimal(n);
    DecimalValue(n);
    assert !IsSpace(d[0]) && !IsSpace(d[|d| - 1]) && !IsSign(d[0]);
    if i < 0 {
      var s := "-" + d;
      assert s[1..] == d;
      PyIntSignedDigits(s, d);
    } else {
      PyIntSignedDigits(d, d);
    }
  }

  /** str.strip() removes a leading \x1c, as it removes a space. */
  lemma {:induction false} StripRemovesSeparator()
    ensures Strip("\U{1C}5") == "5"
  {
    TrimExact(StrSpaces, "\U{1C}", "5", []);
    assert "\U{1C}" + "5" + [] == "\U{1C}5";
  }

  /** int() rejects a leading \x1c: the separators are not whitespace to it. */
  lemma {:induction false} PyIntRejectsSeparator()
    ensures PyInt("\U{1C}5") == None
  {
    var s := "\U{1C}5";
    assert !IsBlank(IntSpaces, s[0]) && !IsBlank(IntSpaces, s[1]);
    TrimTrimmed(IntSpaces, s);
    assert Unsigned(s) == s;
    assert !IsDigitGroups(s) by { assert !IsDigit(s[0]); }
  }

  /** int() skips a leading space. */
  lemma {:induction false} PyIntSkipsSpace()
    ensures PyInt(" 5") == Some(5)
  {
    var five := ['5'];
    assert Trim(IntSpaces, " 5") == five by {
      TrimExact(IntSpaces, " ", five, []);
      assert " " + five + [] == " 5";
    }
    assert AllDigits(five) && Unsigned(five) == five && IsDigitGroups(five);
    assert DigitsValue(five) == 5 by { assert five[..0] == []; }
  }
}
