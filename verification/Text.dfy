/** Strings as the Go code handles them: trimming white space and printing decimal numbers. */
module Text {

  /** unicode.IsSpace, the class of characters strings.TrimSpace removes. */
  predicate IsSpace(c: char) {
    var n := c as int;
    9 <= n <= 13 || n == 32 || n == 0x85 || n == 0xA0 || n == 0x1680 || 0x2000 <= n <= 0x200A
    || n == 0x2028 || n == 0x2029 || n == 0x202F || n == 0x205F || n == 0x3000
  }

  function TrimLeft(s: string): string {
    if s != "" && IsSpace(s[0]) then TrimLeft(s[1..]) else s
  }

  function TrimRight(s: string): string {
    if s != "" && IsSpace(s[|s| - 1]) then TrimRight(s[..|s| - 1]) else s
  }

  function TrimSpace(s: string): string {
    TrimRight(TrimLeft(s))
  }

  lemma TrimRightKeepsHead(s: string)
    requires s != "" && !IsSpace(s[0])
    ensures TrimRight(s) != "" && TrimRight(s)[0] == s[0]
  {
    if IsSpace(s[|s| - 1]) {
      TrimRightKeepsHead(s[..|s| - 1]);
    }
  }

  lemma TrimLeftEnds(s: string)
    ensures TrimLeft(s) == "" || !IsSpace(TrimLeft(s)[0])
  {
  }

  lemma TrimRightEnds(s: string)
    ensures TrimRight(s) == "" || !IsSpace(TrimRight(s)[|TrimRight(s)| - 1])
  {
  }

  /** Trimming twice is trimming once. */
  lemma TrimSpaceIdempotent(s: string)
    ensures TrimSpace(TrimSpace(s)) == TrimSpace(s)
  {
    var left := TrimLeft(s);
    TrimLeftEnds(s);
    TrimRightEnds(left);
    if left != "" {
      TrimRightKeepsHead(left);
    }
  }

  /** The first value that is not blank, trimmed; "" when all are. */
  function FirstNonEmpty(values: seq<string>): string {
    if values == [] then ""
    else if TrimSpace(values[0]) != "" then TrimSpace(values[0])
    else FirstNonEmpty(values[1..])
  }

  function Digit(n: nat): char
    requires n < 10
  {
    "0123456789"[n]
  }

  /** The decimal numeral of n, as strconv and fmt print it. */
  function Decimal(n: nat): string {
    if n < 10 then [Digit(n)] else Decimal(n / 10) + [Digit(n % 10)]
  }

  predicate IsDigit(c: char) {
    '0' <= c <= '9'
  }

  /** Reading a numeral back. */
  function Value(s: string): nat
    requires forall i :: 0 <= i < |s| ==> IsDigit(s[i])
  {
    if s == "" then 0
    else
      var last := s[|s| - 1];
      assert IsDigit(last);
      10 * Value(s[..|s| - 1]) + (last as int - '0' as int)
  }

  lemma {:induction false} DecimalDigits(n: nat)
    ensures Decimal(n) != ""
    ensures forall i :: 0 <= i < |Decimal(n)| ==> IsDigit(Decimal(n)[i])
  {
    if n >= 10 {
      DecimalDigits(n / 10);
    }
  }

  lemma {:induction false} ValueOfDecimal(n: nat)
    ensures forall i :: 0 <= i < |Decimal(n)| ==> IsDigit(Decimal(n)[i])
    ensures Value(Decimal(n)) == n
  {
    DecimalDigits(n);
    var s := Decimal(n);
    if n >= 10 {
      ValueOfDecimal(n / 10);
      assert s[..|s| - 1] == Decimal(n / 10);
    } else {
      assert s[..|s| - 1] == "";
    }
  }

  lemma DecimalInjective(m: nat, n: nat)
    requires Decimal(m) == Decimal(n)
    ensures m == n
  {
    ValueOfDecimal(m);
    ValueOfDecimal(n);
  }

  /** In a + [sep] + numeral, the last sep is the one at |a|. */
  lemma SeparatorIsLast(a: string, sep: char, n: nat)
    requires !IsDigit(sep)
    ensures var t := a + [sep] + Decimal(n); t[|a|] == sep && forall k :: |a| < k < |t| ==> t[k] != sep
  {
    DecimalDigits(n);
    var t := a + [sep] + Decimal(n);
    forall k | |a| < k < |t|
      ensures t[k] != sep
    {
      assert t[k] == Decimal(n)[k - |a| - 1];
    }
  }

  /** A text ending in a separator and a number determines both parts, whatever precedes. */
  lemma NumberedSuffix(a: string, b: string, sep: char, m: nat, n: nat)
    requires !IsDigit(sep)
    requires a + [sep] + Decimal(m) == b + [sep] + Decimal(n)
    ensures m == n && a == b
  {
    SeparatorIsLast(a, sep, m);
    SeparatorIsLast(b, sep, n);
    var t := a + [sep] + Decimal(m);
    assert |a| == |b|;
    assert a == t[..|a|] && b == t[..|b|];
    assert Decimal(m) == t[|a| + 1..] && Decimal(n) == t[|b| + 1..];
    DecimalInjective(m, n);
  }
}
