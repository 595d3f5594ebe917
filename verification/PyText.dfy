/** The text primitives the period keys go through: decimal printing, stripping, and integer parsing. */
module PyText {
  import opened Prelude

  predicate IsDigit(c: char) { '0' <= c <= '9' }

  /** The ASCII blanks: space, tab to carriage return, and the four separators 0x1C to 0x1F. */
  predicate IsSpace(c: char) { '\U{1C}' <= c <= ' ' || '\t' <= c <= '\r' }

  function Digit(d: int): (c: char)
    requires 0 <= d < 10
    ensures IsDigit(c) && DigitValue(c) == d
  {
    '0' + d as char
  }

  function DigitValue(c: char): (d: int)
    requires IsDigit(c)
    ensures 0 <= d < 10
  {
    (c - '0') as int
  }

  /** Decimal text of a natural number, without leading zeros. */
  function Decimal(n: nat): (s: string)
    ensures s != "" && forall c :: c in s ==> IsDigit(c)
  {
    if n < 10 then [Digit(n)] else Decimal(n / 10) + [Digit(n % 10)]
  }

  function PrintInt(n: int): string {
    if n < 0 then "-" + Decimal(-n) else Decimal(n)
  }

  function StripLeft(s: string): string {
    if s != "" && IsSpace(s[0]) then StripLeft(s[1..]) else s
  }

  function StripRight(s: string): string {
    if s != "" && IsSpace(s[|s| - 1]) then StripRight(s[..|s| - 1]) else s
  }

  function Strip(s: string): string { StripRight(StripLeft(s)) }

  /** Digits with single underscores allowed between digits, as integer literals in text are read. */
  function ParseDigits(s: string): Option<nat> {
    if s == "" || !IsDigit(s[|s| - 1]) then None
    else
      var d, front := DigitValue(s[|s| - 1]), s[..|s| - 1];
      if front == "" then Some(d)
      else
        var more := if front[|front| - 1] == '_' then ParseDigits(front[..|front| - 1]) else ParseDigits(front);
        if more.None? then None else Some(10 * more.value + d)
  }

  function ParseInt(text: string): Option<int> {
    var s := Strip(text);
    if s != "" && (s[0] == '-' || s[0] == '+') then
      var r := ParseDigits(s[1..]);
      if r.None? then None
      else
        var v: int := r.value;
        Some(if s[0] == '-' then -v else v)
    else
      var r := ParseDigits(s);
      if r.None? then None else Some(r.value)
  }

  lemma {:induction false} ParseDigitsOfDecimal(n: nat)
    ensures ParseDigits(Decimal(n)) == Some(n)
  {
    if n >= 10 {
      ParseDigitsOfDecimal(n / 10);
      assert Decimal(n)[..|Decimal(n)| - 1] == Decimal(n / 10);
    }
  }

  /** Printing and then parsing gives the number back. */
  lemma ParseIntOfPrintInt(n: int)
    ensures ParseInt(PrintInt(n)) == Some(n)
  {
    var magnitude := if n < 0 then -n else n;
    ParseDigitsOfDecimal(magnitude);
    ParseSigned(n < 0, Decimal(magnitude), magnitude);
  }

  /** The blanks by code: tab, line feed, vertical tab, form feed, carriage return, four separators, space. */
  lemma SpaceCodes(c: char)
    ensures IsSpace(c) <==> (c as int) in {9, 10, 11, 12, 13, 28, 29, 30, 31, 32}
  {
  }

  lemma {:induction false} StripRightBlank(s: string)
    ensures StripRight(s) == "" <==> forall c :: c in s ==> IsSpace(c)
  {
    if s != "" {
      assert s == s[..|s| - 1] + [s[|s| - 1]];
      StripRightBlank(s[..|s| - 1]);
      assert s[|s| - 1] in s;
    }
  }

  /** Stripping leaves nothing exactly of blank text. */
  lemma {:induction false} StripBlank(s: string)
    ensures Strip(s) == "" <==> forall c :: c in s ==> IsSpace(c)
  {
    if s != "" && IsSpace(s[0]) {
      StripBlank(s[1..]);
      assert s == [s[0]] + s[1..];
    } else {
      StripRightBlank(s);
    }
  }

  /** Text that neither starts nor ends with a blank strips to itself. */
  lemma NothingToStrip(s: string)
    requires s != "" && !IsSpace(s[0]) && !IsSpace(s[|s| - 1])
    ensures Strip(s) == s
  {
  }

  /** Spellings the reader takes and refuses. */
  lemma ParseSamples()
    ensures ParseInt(" 7\t") == Some(7) && ParseInt("+07") == Some(7) && ParseInt("1_0") == Some(10)
    ensures ParseInt("").None? && ParseInt("-").None? && ParseInt("_7").None? && ParseInt("7a").None?
  {
    assert Strip(" 7\t") == "7" by {
      assert StripLeft(" 7\t") == "7\t";
      assert "7\t"[..1] == "7";
    }
    assert "7"[..0] == "" && ParseDigits("7") == Some(7);
    NothingToStrip("+07");
    assert "+07"[1..] == "07" && "07"[..1] == "0" && "0"[..0] == "" && ParseDigits("0") == Some(0);
    NothingToStrip("1_0");
    assert "1_0"[..2] == "1_" && "1_"[..1] == "1" && "1"[..0] == "" && ParseDigits("1") == Some(1);
    NothingToStrip("-");
    NothingToStrip("_7");
    assert "_7"[..1] == "_" && "_"[..0] == "";
    NothingToStrip("7a");
  }

  lemma ParseSigned(negative: bool, digits: string, v: nat)
    requires digits != "" && (forall c :: c in digits ==> IsDigit(c)) && ParseDigits(digits) == Some(v)
    ensures negative ==> ParseInt("-" + digits) == Some(0 - v)
    ensures !negative ==> ParseInt(digits) == Some(v)
  {
    var s := if negative then "-" + digits else digits;
    assert digits[0] in digits && digits[|digits| - 1] in digits;
    assert s[|s| - 1] == digits[|digits| - 1];
    NothingToStrip(s);
    assert negative ==> s[1..] == digits;
  }
}
