// Payment source identifiers: the sequence number of the transaction that made
// the source, woven into the third part of the recipient's payment address.
module SourceIds {
  import opened Options
  import opened Text

  function ToSource(address: string, seqNo: int): Option<string> {
    var parts := Split(address, ':');
    if |parts| != 3 then None
    else Some(Join([parts[0], parts[1], IntToString(seqNo) + "_" + parts[2]], ':'))
  }

  function FromSource(source: string): Option<(int, string)> {
    var parts := Split(source, ':');
    if |parts| != 3 then None
    else
      var last := Split(parts[2], '_');
      if |last| != 2 then None
      else
        match ParseI32(last[0])
        case None => None
        case Some(seqNo) => Some((seqNo, Join([parts[0], parts[1], last[1]], ':')))
  }

  // An address whose sources can be read back.
  predicate WellFormed(address: string) {
    var parts := Split(address, ':');
    |parts| == 3 && '_' !in parts[2]
  }

  predicate IsI32(n: int) { 0 - I32_BOUND <= n < I32_BOUND }

  // The sequence number a source carries, also when its address is not well formed.
  function SeqOf(source: string): Option<int> {
    var parts := Split(source, ':');
    if |parts| != 3 then None else ParseI32(Split(parts[2], '_')[0])
  }

  lemma SourceParts(address: string, seqNo: int)
    requires |Split(address, ':')| == 3 && IsI32(seqNo)
    ensures var parts := Split(address, ':');
            Split(ToSource(address, seqNo).value, ':') == [parts[0], parts[1], IntToString(seqNo) + "_" + parts[2]]
            && Split(IntToString(seqNo) + "_" + parts[2], '_') == [IntToString(seqNo)] + Split(parts[2], '_')
  {
    var parts := Split(address, ':');
    JoinSplit(address, ':');
    SignedDecimalParses(seqNo);
    SplitJoin([parts[0], parts[1], IntToString(seqNo) + "_" + parts[2]], ':');
    SplitFirstPart(IntToString(seqNo), '_', parts[2]);
    assert IntToString(seqNo) + ['_'] + parts[2] == IntToString(seqNo) + "_" + parts[2];
  }

  // Reading a source back recovers the transaction and the address exactly
  // when the address is well formed, and fails otherwise.
  lemma SourceRoundTrip(address: string, seqNo: int)
    requires |Split(address, ':')| == 3 && IsI32(seqNo)
    ensures FromSource(ToSource(address, seqNo).value)
            == if WellFormed(address) then Some((seqNo, address)) else None
    ensures SeqOf(ToSource(address, seqNo).value) == Some(seqNo)
  {
    var parts := Split(address, ':');
    SourceParts(address, seqNo);
    SignedDecimalParses(seqNo);
    JoinSplit(parts[2], '_');
    if WellFormed(address) {
      SplitWithoutDelimiter(parts[2], '_');
      JoinSplit(address, ':');
      assert [parts[0], parts[1], parts[2]] == parts;
    } else {
      DelimiterSplits(parts[2], '_');
    }
  }

  lemma {:induction false} DelimiterSplits(s: string, c: char)
    requires c in s
    ensures |Split(s, c)| >= 2
  {
    if s[0] != c {
      DelimiterSplits(s[1..], c);
    }
  }

  // Different outputs of different transactions get different sources.
  lemma SourceInjective(a: string, m: int, b: string, n: int)
    requires IsI32(m) && IsI32(n)
    requires ToSource(a, m).Some? && ToSource(a, m) == ToSource(b, n)
    ensures a == b && m == n
  {
    SourceRoundTrip(a, m);
    SourceRoundTrip(b, n);
    SourceParts(a, m);
    SourceParts(b, n);
    var p, q := Split(a, ':'), Split(b, ':');
    var s := IntToString(m) + "_";
    assert (s + p[2])[|s|..] == p[2];
    assert (s + q[2])[|s|..] == q[2];
    JoinSplit(a, ':');
    JoinSplit(b, ':');
    assert p == [p[0], p[1], p[2]] && q == [q[0], q[1], q[2]];
  }

  // The transaction counter is cast to i32, so it wraps every 2^32 steps.
  const WRAP: nat := 0x1_0000_0000

  function AsI32(n: nat): (i: int)
    ensures IsI32(i) && (n - i) % WRAP == 0
  {
    var m := n % WRAP;
    if m < I32_BOUND then m else m - WRAP
  }

  lemma AsI32Injective(m: nat, n: nat)
    requires 1 <= m <= WRAP && 1 <= n <= WRAP
    ensures AsI32(m) == AsI32(n) <==> m == n
  {
  }
}
