// The string operations the command line and the payment plugin lean on:
// splitting at a delimiter, and reading and writing decimal numbers.
module Text {
  import opened Options

  const U64_BOUND: nat := 0x1_0000_0000_0000_0000
  const I32_BOUND: nat := 0x8000_0000

  // str::split: "" yields one empty part, and n delimiters yield n + 1 parts.
  function Split(s: string, c: char): (parts: seq<string>)
    ensures |parts| >= 1
  {
    if s == "" then [""]
    else
      var rest := Split(s[1..], c);
      if s[0] == c then [""] + rest else [[s[0]] + rest[0]] + rest[1..]
  }

  function Join(parts: seq<string>, c: char): string {
    if |parts| == 0 then ""
    else if |parts| == 1 then parts[0]
    else parts[0] + [c] + Join(parts[1..], c)
  }

  // A part without delimiter is cut off whole, whatever follows it.
  lemma {:induction false} SplitFirstPart(a: string, c: char, b: string)
    requires c !in a
    ensures Split(a + [c] + b, c) == [a] + Split(b, c)
  {
    var s := a + [c] + b;
    if a == "" {
      assert s[1..] == b;
    } else {
      assert s[1..] == a[1..] + [c] + b;
      SplitFirstPart(a[1..], c, b);
      assert [a[0]] + a[1..] == a;
    }
  }

  lemma {:induction false} SplitWithoutDelimiter(a: string, c: char)
    requires c !in a
    ensures Split(a, c) == [a]
  {
    if a != "" {
      SplitWithoutDelimiter(a[1..], c);
      assert [a[0]] + a[1..] == a;
    }
  }

  // Splitting undoes joining for parts that do not contain the delimiter.
  lemma {:induction false} SplitJoin(parts: seq<string>, c: char)
    requires |parts| >= 1
    requires forall p :: p in parts ==> c !in p
    ensures Split(Join(parts, c), c) == parts
  {
    if |parts| == 1 {
      SplitWithoutDelimiter(parts[0], c);
    } else {
      SplitFirstPart(parts[0], c, Join(parts[1..], c));
      SplitJoin(parts[1..], c);
      assert [parts[0]] + parts[1..] == parts;
    }
  }

  // Joining undoes splitting for every string, and no part holds the delimiter.
  lemma {:induction false} JoinSplit(s: string, c: char)
    ensures Join(Split(s, c), c) == s
    ensures forall p :: p in Split(s, c) ==> c !in p
  {
    if s != "" {
      JoinSplit(s[1..], c);
      var rest := Split(s[1..], c);
      assert [s[0]] + s[1..] == s;
      if s[0] == c {
        assert ([""] + rest)[1..] == rest;
      } else {
        var parts := [[s[0]] + rest[0]] + rest[1..];
        assert parts[1..] == rest[1..];
        if |rest| > 1 {
          assert Join(parts, c) == [s[0]] + (rest[0] + [c] + Join(rest[1..], c));
        }
      }
    }
  }

  predicate IsDigit(c: char) { '0' <= c <= '9' }

  predicate AllDigits(s: string) { forall i :: 0 <= i < |s| ==> IsDigit(s[i]) }

  function NatToString(n: nat): string {
    if n < 10 then [(48 + n) as char] else NatToString(n / 10) + [(48 + n % 10) as char]
  }

  function IntToString(n: int): string {
    if n < 0 then "-" + NatToString(-n) else NatToString(n)
  }

  function DigitsValue(s: string): nat
    requires AllDigits(s)
  {
    if s == "" then 0 else DigitsValue(s[..|s| - 1]) * 10 + (s[|s| - 1] as int - 48)
  }

  // str::parse for an unsigned type: one leading '+' is allowed, at least one
  // digit is needed, and a value that reaches the bound is an overflow error.
  function ParseUnsigned(s: string, bound: nat): Option<nat> {
    var body := if s != "" && s[0] == '+' then s[1..] else s;
    if body != "" && AllDigits(body) && DigitsValue(body) < bound then Some(DigitsValue(body)) else None
  }

  function ParseU64(s: string): Option<nat> { ParseUnsigned(s, U64_BOUND) }

  function ParseI32(s: string): Option<int> {
    if s != "" && s[0] == '-' then
      if |s| > 1 && AllDigits(s[1..]) && DigitsValue(s[1..]) <= I32_BOUND then Some(0 - DigitsValue(s[1..])) else None
    else
      match ParseUnsigned(s, I32_BOUND)
      case Some(n) => Some(n)
      case None => None
  }

  lemma {:induction false} DecimalRoundTrip(n: nat)
    ensures NatToString(n) != "" && AllDigits(NatToString(n)) && DigitsValue(NatToString(n)) == n
  {
    if n >= 10 {
      DecimalRoundTrip(n / 10);
      var s := NatToString(n);
      assert s[..|s| - 1] == NatToString(n / 10);
    }
  }

  // A number in plain decimal is accepted exactly when it fits the type.
  lemma PlainDecimalParses(n: nat, bound: nat)
    ensures ParseUnsigned(NatToString(n), bound) == if n < bound then Some(n) else None
  {
    DecimalRoundTrip(n);
    assert IsDigit(NatToString(n)[0]);
  }

  function Zeros(k: nat): string { seq(k, _ => '0') }

  lemma {:induction false} ZerosCountNothing(k: nat, n: nat)
    ensures AllDigits(Zeros(k) + NatToString(n)) && DigitsValue(Zeros(k) + NatToString(n)) == n
    decreases n
  {
    var s := Zeros(k) + NatToString(n);
    DecimalRoundTrip(n);
    if n < 10 {
      assert s[..|s| - 1] == Zeros(k);
      ZerosAreNothing(k);
    } else {
      ZerosCountNothing(k, n / 10);
      assert s[..|s| - 1] == Zeros(k) + NatToString(n / 10);
    }
  }

  lemma {:induction false} ZerosAreNothing(k: nat)
    ensures AllDigits(Zeros(k)) && DigitsValue(Zeros(k)) == 0
  {
    if k > 0 {
      ZerosAreNothing(k - 1);
      assert Zeros(k)[..k - 1] == Zeros(k - 1);
    }
  }

  lemma {:induction false} DigitsAreDecimal(s: string) returns (k: nat)
    requires s != "" && AllDigits(s)
    ensures s == Zeros(k) + NatToString(DigitsValue(s))
  {
    var j := |s| - 1;
    var d := s[j] as int - 48;
    if j == 0 {
      k := 0;
      assert DigitsValue(s) == DigitsValue(s[..0]) * 10 + d == d;
    } else {
      k := DigitsAreDecimal(s[..j]);
      assert s == s[..j] + [s[j]];
      if DigitsValue(s[..j]) == 0 {
        assert Zeros(k) + "0" == Zeros(k + 1);
        k := k + 1;
      } else {
        LastDigit(DigitsValue(s[..j]), d);
      }
    }
  }

  lemma LastDigit(m: nat, d: nat)
    requires m > 0 && d < 10
    ensures NatToString(m * 10 + d) == NatToString(m) + [(48 + d) as char]
  {
  }

  // The text is the number in decimal, but for leading zeros and a plus sign.
  ghost predicate Reads(s: string, n: nat) {
    ReadsUnsigned(s, n) || (s != "" && s[0] == '+' && ReadsUnsigned(s[1..], n))
  }

  ghost predicate ReadsUnsigned(s: string, n: nat) {
    exists k :: s == Zeros(k) + NatToString(n)
  }

  lemma ReadingDigits(s: string, n: nat)
    ensures s != "" && AllDigits(s) && DigitsValue(s) == n <==> ReadsUnsigned(s, n)
  {
    if s != "" && AllDigits(s) && DigitsValue(s) == n {
      var k := DigitsAreDecimal(s);
    }
    if k :| s == Zeros(k) + NatToString(n) {
      ZerosCountNothing(k, n);
      DecimalRoundTrip(n);
    }
  }

  // The parser accepts exactly such texts of the numbers below the bound.
  lemma ParsesExactly(s: string, bound: nat, n: nat)
    ensures ParseUnsigned(s, bound) == Some(n) <==> n < bound && Reads(s, n)
  {
    ReadingDigits(s, n);
    if s != "" && s[0] == '+' {
      ReadingDigits(s[1..], n);
      assert !IsDigit(s[0]);
    }
  }

  lemma SignedDecimalParses(n: int)
    requires 0 - I32_BOUND <= n < I32_BOUND
    ensures ParseI32(IntToString(n)) == Some(n)
    ensures forall c :: c in IntToString(n) ==> IsDigit(c) || c == '-'
  {
    DecimalRoundTrip(if n < 0 then -n else n);
    if n < 0 {
      assert IntToString(n)[1..] == NatToString(-n);
    } else {
      assert IsDigit(NatToString(n)[0]);
      PlainDecimalParses(n, I32_BOUND);
    }
  }
}
