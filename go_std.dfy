/** The few pieces of Go's runtime and standard library the editor relies on:
    the `byte` type, the truncating `%` operator, `fmt`'s `%d`, `strconv.Atoi`,
    `strings.HasPrefix` and `strings.Split`. A Go string is modelled as a Dafny
    string whose characters stand for its bytes. */
module GoStd {

  newtype byte = x: int | 0 <= x < 256

  const MinInt64: int := -0x8000_0000_0000_0000
  const MaxInt64: int := 0x7FFF_FFFF_FFFF_FFFF

  function Abs(a: int): nat { if a < 0 then -a else a }

  function Min(a: int, b: int): int { if a <= b then a else b }

  function Max(a: int, b: int): int { if a >= b then a else b }

  /** Go's `a % b`: the remainder of division truncated toward zero, so it
      carries the sign of the dividend (Dafny's own `%` is Euclidean). */
  function Rem(a: int, b: int): (r: int)
    requires b != 0
    ensures a >= 0 ==> 0 <= r < Abs(b)
    ensures a < 0 ==> 0 < r + Abs(b) && r <= 0
    ensures a >= 0 ==> r == a % Abs(b)
    ensures a < 0 ==> -r == (-a) % Abs(b)
  {
    if a >= 0 then a % Abs(b) else -((-a) % Abs(b))
  }

  /** Converts bytes to a string, one character per byte, as `string(b)` does. */
  function BytesToString(b: seq<byte>): (s: string)
    ensures |s| == |b|
    ensures forall i :: 0 <= i < |b| ==> s[i] as int == b[i] as int
  {
    seq(|b|, i requires 0 <= i < |b| => b[i] as int as char)
  }

  predicate IsByteString(s: string)
  {
    forall i :: 0 <= i < |s| ==> s[i] as int < 256
  }

  function StringToBytes(s: string): (b: seq<byte>)
    requires IsByteString(s)
    ensures |b| == |s|
    ensures BytesToString(b) == s
  {
    seq(|s|, i requires 0 <= i < |s| => s[i] as int as byte)
  }

  // ---------------------------------------------------------------------
  // Decimal digits: fmt's %d and strconv.Atoi

  predicate IsDigit(c: char) { '0' <= c <= '9' }

  predicate AllDigits(s: string)
  {
    forall i :: 0 <= i < |s| ==> IsDigit(s[i])
  }

  function DigitChar(d: nat): (c: char)
    requires d < 10
    ensures IsDigit(c) && c as int - '0' as int == d
  {
    ('0' as int + d) as char
  }

  /** The value of a string of decimal digits, read left to right. */
  function DigitsValue(s: string): nat
    requires AllDigits(s)
  {
    if s == [] then 0
    else DigitsValue(s[..|s| - 1]) * 10 + (s[|s| - 1] as int - '0' as int)
  }

  /** `%d` of a non-negative number: its shortest decimal spelling. */
  function FormatNat(n: nat): (s: string)
    ensures 1 <= |s|
    ensures AllDigits(s)
    ensures n < 10 <==> |s| == 1
    ensures (s[0] == '0') <==> n == 0
  {
    if n < 10 then [DigitChar(n)] else FormatNat(n / 10) + [DigitChar(n % 10)]
  }

  /** `%d` of any integer: a minus sign for negatives, then the digits. */
  function FormatInt(n: int): (s: string)
    ensures n >= 0 ==> s == FormatNat(n)
    ensures n < 0 ==> s == "-" + FormatNat(-n)
  {
    if n < 0 then "-" + FormatNat(-n) else FormatNat(n)
  }

  lemma {:induction false} DigitsValueFormatNat(n: nat)
    ensures DigitsValue(FormatNat(n)) == n
    decreases n
  {
    if n >= 10 {
      var s := FormatNat(n);
      assert s[..|s| - 1] == FormatNat(n / 10);
      DigitsValueFormatNat(n / 10);
    }
  }

  /** A numeral has at most three digits exactly when its value is below 1000. */
  lemma {:induction false} FormatNatShort(n: nat)
    ensures n < 1000 <==> |FormatNat(n)| <= 3
    decreases n
  {
    if n >= 10 {
      FormatNatShort(n / 10);
    }
  }

  /** What strconv.Atoi accepts: an optional sign followed by at least one digit. */
  predicate IntSyntax(s: string)
  {
    if |s| >= 1 && (s[0] == '+' || s[0] == '-') then |s| >= 2 && AllDigits(s[1..])
    else |s| >= 1 && AllDigits(s)
  }

  function SyntaxValue(s: string): int
    requires IntSyntax(s)
  {
    if s[0] == '-' then var v: int := DigitsValue(s[1..]); -v
    else if s[0] == '+' then DigitsValue(s[1..])
    else DigitsValue(s)
  }

  /** strconv.Atoi on a 64-bit platform: the value and whether it succeeded.
      A syntax error yields 0; an out-of-range numeral yields the nearest
      64-bit bound (both with an error, which the editor ignores). */
  function Atoi(s: string): (r: (int, bool))
    ensures MinInt64 <= r.0 <= MaxInt64
    ensures r.1 <==> IntSyntax(s) && MinInt64 <= SyntaxValue(s) <= MaxInt64
    ensures r.1 ==> r.0 == SyntaxValue(s)
    ensures !IntSyntax(s) ==> r == (0, false)
  {
    if !IntSyntax(s) then (0, false)
    else
      var v := SyntaxValue(s);
      if v < MinInt64 then (MinInt64, false)
      else if v > MaxInt64 then (MaxInt64, false)
      else (v, true)
  }

  /** Reading back what %d wrote gives the number again. */
  lemma AtoiFormatInt(n: int)
    requires MinInt64 <= n <= MaxInt64
    ensures Atoi(FormatInt(n)) == (n, true)
  {
    var s := FormatInt(n);
    if n < 0 {
      assert s[1..] == FormatNat(-n);
      DigitsValueFormatNat(-n);
    } else {
      DigitsValueFormatNat(n);
    }
  }

  // ---------------------------------------------------------------------
  // strings.HasPrefix and strings.Split with a one-byte separator

  predicate HasPrefix(s: string, prefix: string)
  {
    |prefix| <= |s| && s[..|prefix|] == prefix
  }

  /** The parts joined back together with the separator between them. */
  function Join(parts: seq<string>, sep: char): string
  {
    if |parts| == 0 then ""
    else if |parts| == 1 then parts[0]
    else parts[0] + [sep] + Join(parts[1..], sep)
  }

  function IndexOf(s: string, c: char): (i: nat)
    requires c in s
    ensures i < |s| && s[i] == c && c !in s[..i]
  {
    if s[0] == c then 0 else 1 + IndexOf(s[1..], c)
  }

  /** strings.Split(s, sep) for a one-character sep: the pieces between the
      separators, one more than there are separators. */
  function Split(s: string, sep: char): (parts: seq<string>)
    ensures |parts| >= 1
    ensures Join(parts, sep) == s
    ensures forall i :: 0 <= i < |parts| ==> sep !in parts[i]
    decreases |s|
  {
    if sep !in s then [s]
    else
      var i := IndexOf(s, sep);
      assert s == s[..i] + [sep] + s[i + 1..];
      [s[..i]] + Split(s[i + 1..], sep)
  }

  lemma SplitNoSep(s: string, sep: char)
    requires sep !in s
    ensures Split(s, sep) == [s]
  {
  }

  lemma SplitFirst(a: string, sep: char, b: string)
    requires sep !in a
    ensures Split(a + [sep] + b, sep) == [a] + Split(b, sep)
  {
    var s := a + [sep] + b;
    assert s[|a|] == sep;
    var i := IndexOf(s, sep);
    assert s[..|a|] == a;
    assert i == |a|;
    assert s[..i] == a;
    assert s[i + 1..] == b;
  }

  lemma JoinCons(a: string, rest: seq<string>, sep: char)
    requires |rest| >= 1
    ensures Join([a] + rest, sep) == a + [sep] + Join(rest, sep)
  {
    assert ([a] + rest)[1..] == rest;
  }

  /** Splitting what Join produced gives the parts back, provided no part
      contains the separator. */
  lemma {:induction false} SplitJoin(parts: seq<string>, sep: char)
    requires |parts| >= 1
    requires forall i :: 0 <= i < |parts| ==> sep !in parts[i]
    ensures Split(Join(parts, sep), sep) == parts
    decreases |parts|
  {
    if |parts| == 1 {
      SplitNoSep(parts[0], sep);
    } else {
      SplitJoin(parts[1..], sep);
      SplitFirst(parts[0], sep, Join(parts[1..], sep));
    }
  }

  lemma NoSepInDigits(s: string, sep: char)
    requires AllDigits(s) && !IsDigit(sep)
    ensures sep !in s
  {
  }

  /** Sequence concatenation is associative. */
  lemma AppendAssoc<T>(a: seq<T>, b: seq<T>, c: seq<T>)
    ensures a + b + c == a + (b + c)
  {
  }
}
