// Parameter values that carry structure: payment outputs as parenthesised
// tuples, and fees as a comma-separated table.
module PaymentParams {
  import opened Options
  import opened Text
  import opened Sums
  import opened NullPayLedger

  predicate IsParen(c: char) { c == '(' || c == ')' }

  predicate NoParens(s: string) { forall i :: 0 <= i < |s| ==> !IsParen(s[i]) }

  function ParenFree(s: string): (n: nat)
    ensures n <= |s|
  {
    if s == "" || IsParen(s[0]) then 0 else 1 + ParenFree(s[1..])
  }

  function SkipComma(s: string): string {
    if s != "" && s[0] == ',' then s[1..] else s
  }

  // A match of \(([^\(\)]+)\),? at the start, with n captured characters.
  predicate MatchesAt(s: string, n: nat) {
    s != "" && s[0] == '(' && n == ParenFree(s[1..]) && n > 0 && n + 1 < |s| && s[n + 1] == ')'
  }

  // The capture at the start, if there is one, and where the search goes on.
  function Capture(s: string): (seq<string>, string)
    requires s != ""
    ensures |Capture(s).1| < |s|
  {
    var n := ParenFree(s[1..]);
    if MatchesAt(s, n) then ([s[1..n + 1]], SkipComma(s[n + 2..])) else ([], s[1..])
  }

  // The leftmost, non-overlapping matches and what each of them captures.
  function ExtractTuples(s: string): seq<string>
    decreases |s|
  {
    if s == "" then []
    else
      var (found, rest) := Capture(s);
      found + ExtractTuples(rest)
  }

  // A required parameter: absent, empty and tuple-free values are errors.
  function GetTuples(value: Option<string>): Option<seq<string>> {
    if value.None? || value.value == "" || ExtractTuples(value.value) == [] then None
    else Some(ExtractTuples(value.value))
  }

  function ParseOutput(tuple: string): Option<Output> {
    var parts := Split(tuple, ',');
    if |parts| < 2 || ParseU64(parts[1]).None? then None
    else Some(Output(parts[0], ParseU64(parts[1]).value))
  }

  function ParseEach(tuples: seq<string>): Option<seq<Output>> {
    if tuples == [] then Some([])
    else
      var k := |tuples| - 1;
      match (ParseEach(tuples[..k]), ParseOutput(tuples[k]))
      case (Some(outputs), Some(output)) => Some(outputs + [output])
      case _ => None
  }

  // None stands for every error the parser reports.
  method ParsePaymentOutputs(tuples: seq<string>) returns (outputs: Option<seq<Output>>)
    ensures outputs == if tuples == [] then None else ParseEach(tuples)
  {
    if tuples == [] {
      return None;
    }
    var objects: seq<Output> := [];
    for i := 0 to |tuples|
      invariant ParseEach(tuples[..i]) == Some(objects)
    {
      assert tuples[..i + 1][..i] == tuples[..i];
      var parts := Split(tuples[i], ',');
      if |parts| < 2 {
        OneBadTupleFails(tuples, i);
        return None;
      }
      var amount := ParseU64(parts[1]);
      if amount.None? {
        OneBadTupleFails(tuples, i);
        return None;
      }
      objects := objects + [Output(parts[0], amount.value)];
    }
    assert tuples[..|tuples|] == tuples;
    outputs := Some(objects);
  }

  // A tuple without a comma is refused. With one, the text before the first is
  // the recipient and the text up to the next one the amount, which must be a
  // decimal number below 2^64; what follows is ignored.
  lemma OutputOfTuple(recipient: string, amount: string, more: string)
    requires ',' !in recipient && ',' !in amount && (more == "" || more[0] == ',')
    ensures ParseOutput(recipient).None?
    ensures forall n: u64 ::
      ParseOutput(recipient + "," + amount + more) == Some(Output(recipient, n)) <==> Reads(amount, n)
    ensures ParseOutput(recipient + "," + amount + more).Some? ==>
      ParseOutput(recipient + "," + amount + more).value.recipient == recipient
  {
    SplitTwo(recipient, amount, more, ',');
    SplitWithoutDelimiter(recipient, ',');
    forall n: u64
      ensures ParseU64(amount) == Some(n) <==> Reads(amount, n)
    {
      ParsesExactly(amount, U64_BOUND, n);
    }
  }

  lemma SplitTwo(a: string, b: string, more: string, c: char)
    requires c !in a && c !in b && (more == "" || more[0] == c)
    ensures var parts := Split(a + [c] + b + more, c);
            |parts| >= 2 && parts[0] == a && parts[1] == b
  {
    assert a + [c] + b + more == a + [c] + (b + more);
    SplitFirstPart(a, c, b + more);
    if more == "" {
      assert b + more == b;
      SplitWithoutDelimiter(b, c);
    } else {
      assert b + more == b + [c] + more[1..];
      SplitFirstPart(b, c, more[1..]);
    }
  }

  lemma {:induction false} OneBadTupleFails(tuples: seq<string>, i: nat)
    requires i < |tuples| && ParseOutput(tuples[i]).None?
    ensures ParseEach(tuples).None?
  {
    var k := |tuples| - 1;
    if i < k {
      OneBadTupleFails(tuples[..k], i);
    }
  }

  // ---- what the scanner finds ----

  lemma {:induction false} ParenFreeStops(s: string, c: char, rest: string)
    requires IsParen(c)
    ensures ParenFree(s + [c] + rest) == if ParenFree(s) < |s| then ParenFree(s) else |s|
    ensures ParenFree(s) < |s| ==> IsParen(s[ParenFree(s)])
    ensures NoParens(s) <==> ParenFree(s) == |s|
  {
    var t := s + [c] + rest;
    if s == "" {
      assert t[0] == c;
    } else {
      assert t[1..] == s[1..] + [c] + rest;
      ParenFreeStops(s[1..], c, rest);
      assert s == [s[0]] + s[1..];
    }
  }

  lemma ExtractMatch(s: string, n: nat)
    requires MatchesAt(s, n)
    ensures ExtractTuples(s) == [s[1..n + 1]] + ExtractTuples(SkipComma(s[n + 2..]))
  {
    assert Capture(s) == ([s[1..n + 1]], SkipComma(s[n + 2..]));
  }

  lemma ExtractNoMatch(s: string)
    requires s != "" && !MatchesAt(s, ParenFree(s[1..]))
    ensures ExtractTuples(s) == ExtractTuples(s[1..])
  {
    assert Capture(s) == ([], s[1..]);
  }

  lemma TupleAtStart(tuple: string, after: string)
    requires tuple != "" && NoParens(tuple)
    ensures ExtractTuples("(" + tuple + ")" + after) == [tuple] + ExtractTuples(SkipComma(after))
  {
    var s := "(" + tuple + ")" + after;
    assert s[1..] == tuple + [')'] + after;
    ParenFreeStops(tuple, ')', after);
    ExtractMatch(s, |tuple|);
    assert s[1..|tuple| + 1] == tuple && s[|tuple| + 2..] == after;
  }

  // An opening parenthesis further on does not change what matches before it.
  lemma MatchIsLocal(before: string, rest: string)
    requires before != ""
    ensures var s, n := before + ("(" + rest), ParenFree(before[1..]);
            && (MatchesAt(before, n) ==> MatchesAt(s, n))
            && (!MatchesAt(before, n) ==> !MatchesAt(s, ParenFree(s[1..])))
  {
    var s, tail := before + ("(" + rest), before[1..];
    var n := ParenFree(tail);
    assert s[1..] == tail + ['('] + rest;
    ParenFreeStops(tail, '(', rest);
    assert n < |tail| ==> s[n + 1] == before[n + 1] == tail[n];
    assert n == |tail| ==> s[n + 1] == '(';
  }

  lemma MatchLeaves(before: string, found: string, n: nat)
    requires MatchesAt(before, n) && found != "" && found[0] != ','
    ensures (before + found)[1..n + 1] == before[1..n + 1]
    ensures SkipComma((before + found)[n + 2..]) == SkipComma(before[n + 2..]) + found
  {
    assert (before + found)[n + 2..] == before[n + 2..] + found;
  }

  // Scanning starts afresh at an opening parenthesis.
  lemma {:induction false} ScanFromParen(before: string, rest: string)
    ensures ExtractTuples(before + ("(" + rest)) == ExtractTuples(before) + ExtractTuples("(" + rest)
    decreases |before|
  {
    var found := "(" + rest;
    var s := before + found;
    if before == "" {
      assert s == found;
    } else {
      var n := ParenFree(before[1..]);
      MatchIsLocal(before, rest);
      if MatchesAt(before, n) {
        var left := SkipComma(before[n + 2..]);
        MatchLeaves(before, found, n);
        ScanFromParen(left, rest);
        ExtractMatch(before, n);
        ExtractMatch(s, n);
        assert ExtractTuples(s) == [before[1..n + 1]] + (ExtractTuples(left) + ExtractTuples(found));
      } else {
        assert s[1..] == before[1..] + found;
        ScanFromParen(before[1..], rest);
        ExtractNoMatch(before);
        ExtractNoMatch(s);
      }
    }
  }

  // A parenthesised, non-empty, paren-free text is always found, whatever
  // stands before and after it, and the rest is scanned as if alone.
  lemma TuplesCompose(before: string, tuple: string, after: string)
    requires tuple != "" && NoParens(tuple)
    ensures ExtractTuples(before + ("(" + (tuple + ")" + after)))
            == ExtractTuples(before) + ([tuple] + ExtractTuples(SkipComma(after)))
  {
    ScanFromParen(before, tuple + ")" + after);
    TupleAtStart(tuple, after);
    assert "(" + (tuple + ")" + after) == "(" + tuple + ")" + after;
  }

  // A non-empty paren-free text in parentheses, somewhere.
  predicate TupleAt(s: string, i: nat, j: nat) {
    i + 1 < j < |s| && s[i] == '(' && s[j] == ')' && NoParens(s[i + 1..j])
  }

  ghost predicate HasTuple(s: string) { exists i: nat, j: nat :: TupleAt(s, i, j) }

  lemma TupleShifts(s: string, i: nat, j: nat)
    requires s != "" && TupleAt(s[1..], i, j)
    ensures TupleAt(s, i + 1, j + 1)
  {
    assert s[1..][i + 1..j] == s[i + 2..j + 1];
  }

  lemma {:induction false} NoTupleNothingFound(s: string)
    requires !HasTuple(s)
    ensures ExtractTuples(s) == []
  {
    if s != "" {
      var n := ParenFree(s[1..]);
      ParenFreeIsFree(s[1..]);
      if MatchesAt(s, n) {
        assert s[1..n + 1] == s[1..][..n];
        assert TupleAt(s, 0, n + 1);
      }
      ExtractNoMatch(s);
      if HasTuple(s[1..]) {
        var i: nat, j: nat :| TupleAt(s[1..], i, j);
        TupleShifts(s, i, j);
        assert false;
      }
      NoTupleNothingFound(s[1..]);
    }
  }

  lemma {:induction false} ParenFreeIsFree(s: string)
    ensures NoParens(s[..ParenFree(s)])
  {
    if s != "" && !IsParen(s[0]) {
      ParenFreeIsFree(s[1..]);
      assert s[..ParenFree(s)] == [s[0]] + s[1..][..ParenFree(s[1..])];
    }
  }

  // The parameter is read exactly if it is there and holds a tuple somewhere.
  lemma TuplesAreReadIff(value: Option<string>)
    ensures GetTuples(value).Some? <==> value.Some? && HasTuple(value.value)
    ensures GetTuples(value).Some? ==> GetTuples(value).value != []
  {
    if value.Some? {
      var s := value.value;
      if HasTuple(s) {
        var i: nat, j: nat :| TupleAt(s, i, j);
        assert s == s[..i] + ("(" + (s[i + 1..j] + ")" + s[j + 1..]));
        TuplesCompose(s[..i], s[i + 1..j], s[j + 1..]);
      } else {
        NoTupleNothingFound(s);
      }
    }
  }

  // ---- outputs round trip ----

  predicate CleanRecipient(r: string) { NoParens(r) && ',' !in r }

  function OutputText(entry: (string, nat)): string { entry.0 + "," + NatToString(entry.1) }

  function PrintOutputs(entries: seq<(string, nat)>): string {
    if entries == [] then ""
    else "(" + OutputText(entries[0]) + ")" + (if |entries| == 1 then "" else ",") + PrintOutputs(entries[1..])
  }

  function OutputTexts(entries: seq<(string, nat)>): seq<string> {
    seq(|entries|, i requires 0 <= i < |entries| => OutputText(entries[i]))
  }

  predicate AmountsFit(entries: seq<(string, nat)>) {
    forall i :: 0 <= i < |entries| ==> entries[i].1 < U64_BOUND
  }

  function AsOutputs(entries: seq<(string, nat)>): seq<Output>
    requires AmountsFit(entries)
  {
    seq(|entries|, i requires 0 <= i < |entries| => Output(entries[i].0, entries[i].1))
  }

  lemma OutputTextParses(entry: (string, nat))
    requires CleanRecipient(entry.0)
    ensures NoParens(OutputText(entry)) && OutputText(entry) != ""
    ensures ParseOutput(OutputText(entry)) == if entry.1 < U64_BOUND then Some(Output(entry.0, entry.1)) else None
  {
    var digits := NatToString(entry.1);
    DecimalRoundTrip(entry.1);
    PlainDecimalParses(entry.1, U64_BOUND);
    assert forall i :: 0 <= i < |digits| ==> IsDigit(digits[i]);
    SplitFirstPart(entry.0, ',', digits);
    SplitWithoutDelimiter(digits, ',');
    assert OutputText(entry) == entry.0 + [','] + digits;
  }

  function AfterFirst(entries: seq<(string, nat)>): string
    requires entries != []
  {
    (if |entries| == 1 then "" else ",") + PrintOutputs(entries[1..])
  }

  lemma PrintOutputsCons(entries: seq<(string, nat)>)
    requires entries != []
    ensures PrintOutputs(entries) == "(" + OutputText(entries[0]) + ")" + AfterFirst(entries)
  {
    var comma := if |entries| == 1 then "" else ",";
    var head, rest := "(" + OutputText(entries[0]) + ")", PrintOutputs(entries[1..]);
    assert head + comma + rest == head + (comma + rest);
  }

  lemma CommaIsSkipped(entries: seq<(string, nat)>)
    requires entries != []
    ensures SkipComma(AfterFirst(entries)) == PrintOutputs(entries[1..])
  {
    var rest := PrintOutputs(entries[1..]);
    if |entries| > 1 {
      assert ("," + rest)[1..] == rest;
    } else {
      assert entries[1..] == [];
    }
  }

  lemma OutputTextsCons(entries: seq<(string, nat)>)
    requires entries != []
    ensures OutputTexts(entries) == [OutputText(entries[0])] + OutputTexts(entries[1..])
  {
  }

  lemma {:induction false} PrintedTuplesExtract(entries: seq<(string, nat)>)
    requires forall i :: 0 <= i < |entries| ==> CleanRecipient(entries[i].0)
    ensures ExtractTuples(PrintOutputs(entries)) == OutputTexts(entries)
  {
    if entries != [] {
      OutputTextParses(entries[0]);
      PrintOutputsCons(entries);
      CommaIsSkipped(entries);
      TupleAtStart(OutputText(entries[0]), AfterFirst(entries));
      PrintedTuplesExtract(entries[1..]);
      OutputTextsCons(entries);
    }
  }

  lemma {:induction false} TextsParse(entries: seq<(string, nat)>)
    requires forall i :: 0 <= i < |entries| ==> CleanRecipient(entries[i].0)
    ensures ParseEach(OutputTexts(entries)) == if AmountsFit(entries) then Some(AsOutputs(entries)) else None
  {
    if entries != [] {
      var k := |entries| - 1;
      TextsParse(entries[..k]);
      OutputTextParses(entries[k]);
      assert OutputTexts(entries)[..k] == OutputTexts(entries[..k]);
      assert AmountsFit(entries) <==> AmountsFit(entries[..k]) && entries[k].1 < U64_BOUND;
      if AmountsFit(entries) {
        assert AsOutputs(entries) == AsOutputs(entries[..k]) + [Output(entries[k].0, entries[k].1)];
      }
    } else {
      assert AmountsFit(entries) && AsOutputs(entries) == [];
    }
  }

  // A printed list of outputs reads back as itself, in order, when all amounts
  // fit u64; one amount of 2^64 or more anywhere makes the whole parse fail.
  lemma OutputsRoundTrip(entries: seq<(string, nat)>)
    requires entries != [] && forall i :: 0 <= i < |entries| ==> CleanRecipient(entries[i].0)
    ensures var tuples := GetTuples(Some(PrintOutputs(entries)));
            && tuples.Some?
            && ParseEach(tuples.value) == if AmountsFit(entries) then Some(AsOutputs(entries)) else None
  {
    PrintedTuplesExtract(entries);
    TextsParse(entries);
  }

  // ---- fees ----

  function ParseFee(fee: string): Option<(string, u64)> {
    var parts := Split(fee, ':');
    if |parts| < 2 || ParseU64(parts[1]).None? then None else Some((parts[0], ParseU64(parts[1]).value))
  }

  // Likewise with a colon for an entry of a fee table.
  lemma FeeOfEntry(txnType: string, amount: string, more: string)
    requires ':' !in txnType && ':' !in amount && (more == "" || more[0] == ':')
    ensures ParseFee(txnType).None?
    ensures forall n: u64 ::
      ParseFee(txnType + ":" + amount + more) == Some((txnType, n)) <==> Reads(amount, n)
    ensures ParseFee(txnType + ":" + amount + more).Some? ==> ParseFee(txnType + ":" + amount + more).value.0 == txnType
  {
    SplitTwo(txnType, amount, more, ':');
    SplitWithoutDelimiter(txnType, ':');
    forall n: u64
      ensures ParseU64(amount) == Some(n) <==> Reads(amount, n)
    {
      ParsesExactly(amount, U64_BOUND, n);
    }
  }

  function ParseFees(fees: seq<string>): Option<map<string, u64>> {
    if fees == [] then Some(map[])
    else
      var k := |fees| - 1;
      match (ParseFees(fees[..k]), ParseFee(fees[k]))
      case (Some(m), Some((name, amount))) => Some(m[name := amount])
      case _ => None
  }

  method ParsePaymentFees(fees: seq<string>) returns (table: Option<map<string, u64>>)
    ensures table == ParseFees(fees)
  {
    var feesMap: map<string, u64> := map[];
    for i := 0 to |fees|
      invariant ParseFees(fees[..i]) == Some(feesMap)
    {
      assert fees[..i + 1][..i] == fees[..i];
      var parts := Split(fees[i], ':');
      if |parts| < 2 {
        OneBadFeeFails(fees, i);
        return None;
      }
      var amount := ParseU64(parts[1]);
      if amount.None? {
        OneBadFeeFails(fees, i);
        return None;
      }
      feesMap := feesMap[parts[0] := amount.value];
    }
    assert fees[..|fees|] == fees;
    table := Some(feesMap);
  }

  lemma {:induction false} OneBadFeeFails(fees: seq<string>, i: nat)
    requires i < |fees| && ParseFee(fees[i]).None?
    ensures ParseFees(fees).None?
  {
    var k := |fees| - 1;
    if i < k {
      OneBadFeeFails(fees[..k], i);
    }
  }

  predicate CleanType(t: string) { ',' !in t && ':' !in t }

  function FeeText(entry: (string, nat)): string { entry.0 + ":" + NatToString(entry.1) }

  function FeeTexts(entries: seq<(string, nat)>): seq<string> {
    seq(|entries|, i requires 0 <= i < |entries| => FeeText(entries[i]))
  }

  function PrintFees(entries: seq<(string, nat)>): string { Join(FeeTexts(entries), ',') }

  // The table the entries describe; of two entries for a type the later counts.
  function TableOf(entries: seq<(string, nat)>): map<string, nat> {
    if entries == [] then map[]
    else
      var k := |entries| - 1;
      TableOf(entries[..k])[entries[k].0 := entries[k].1]
  }

  lemma FeeTextParses(entry: (string, nat))
    requires CleanType(entry.0)
    ensures ',' !in FeeText(entry)
    ensures ParseFee(FeeText(entry)) == if entry.1 < U64_BOUND then Some((entry.0, entry.1)) else None
  {
    var digits := NatToString(entry.1);
    DecimalRoundTrip(entry.1);
    PlainDecimalParses(entry.1, U64_BOUND);
    assert forall c :: c in digits ==> IsDigit(c);
    SplitFirstPart(entry.0, ':', digits);
    SplitWithoutDelimiter(digits, ':');
    assert FeeText(entry) == entry.0 + [':'] + digits;
  }

  lemma AmountsFitInit(entries: seq<(string, nat)>)
    requires entries != []
    ensures AmountsFit(entries) <==> AmountsFit(entries[..|entries| - 1]) && entries[|entries| - 1].1 < U64_BOUND
  {
  }

  lemma ParseFeesLast(fees: seq<string>)
    requires fees != []
    ensures var k := |fees| - 1;
            var (before, last) := (ParseFees(fees[..k]), ParseFee(fees[k]));
            && (ParseFees(fees).Some? <==> before.Some? && last.Some?)
            && (ParseFees(fees).Some? ==> ParseFees(fees).value == before.value[last.value.0 := last.value.1])
  {
  }

  lemma {:induction false} FeeTextsParse(entries: seq<(string, nat)>)
    requires forall i :: 0 <= i < |entries| ==> CleanType(entries[i].0)
    ensures AmountsFit(entries) ==>
      ParseFees(FeeTexts(entries)).Some? && ParseFees(FeeTexts(entries)).value == TableOf(entries)
    ensures !AmountsFit(entries) ==> ParseFees(FeeTexts(entries)).None?
  {
    if entries != [] {
      var k := |entries| - 1;
      FeeTextsParse(entries[..k]);
      FeeTextParses(entries[k]);
      assert FeeTexts(entries)[..k] == FeeTexts(entries[..k]);
      AmountsFitInit(entries);
      ParseFeesLast(FeeTexts(entries));
    }
  }

  lemma FeeTextsHaveNoComma(entries: seq<(string, nat)>)
    requires forall i :: 0 <= i < |entries| ==> CleanType(entries[i].0)
    ensures forall t :: t in FeeTexts(entries) ==> ',' !in t
  {
    var texts := FeeTexts(entries);
    forall t | t in texts
      ensures ',' !in t
    {
      var i :| 0 <= i < |texts| && texts[i] == t;
      FeeTextParses(entries[i]);
    }
  }

  // A printed fee table, split at its commas and parsed, is the table its
  // entries describe, whatever their order; an amount of 2^64 or more fails.
  lemma FeesRoundTrip(entries: seq<(string, nat)>)
    requires entries != [] && forall i :: 0 <= i < |entries| ==> CleanType(entries[i].0)
    ensures var parsed := ParseFees(Split(PrintFees(entries), ','));
            && PrintFees(entries) != ""
            && (parsed.Some? <==> AmountsFit(entries))
            && (parsed.Some? ==> parsed.value == TableOf(entries))
  {
    FeeTextsHaveNoComma(entries);
    SplitJoin(FeeTexts(entries), ',');
    FeeTextsParse(entries);
    assert FeeTexts(entries)[0] != "";
  }

  // Entries that list a map once per type describe that map, in any order.
  lemma TableOfListing(entries: seq<(string, nat)>, m: map<string, nat>)
    requires forall i :: 0 <= i < |entries| ==> entries[i].0 in m && m[entries[i].0] == entries[i].1
    requires forall t :: t in m ==> exists i :: 0 <= i < |entries| && entries[i].0 == t
    ensures TableOf(entries) == m
  {
    TableOfEntries(entries, m);
    forall t | t in m
      ensures t in TableOf(entries)
    {
      var i :| 0 <= i < |entries| && entries[i].0 == t;
    }
  }

  lemma {:induction false} TableOfEntries(entries: seq<(string, nat)>, m: map<string, nat>)
    requires forall i :: 0 <= i < |entries| ==> entries[i].0 in m && m[entries[i].0] == entries[i].1
    ensures forall t :: t in TableOf(entries) ==> t in m && TableOf(entries)[t] == m[t]
    ensures forall i :: 0 <= i < |entries| ==> entries[i].0 in TableOf(entries)
  {
    if entries != [] {
      var k := |entries| - 1;
      TableOfEntries(entries[..k], m);
      assert forall i :: 0 <= i < k ==> entries[i] == entries[..k][i];
    }
  }
}
