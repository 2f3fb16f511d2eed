// The library's check of a payment request, which stands before every handler
// of a payment plugin: what it refuses, and to which method it passes the rest.
module PaymentRequests {
  import opened Options
  import opened Text
  import opened Sums
  import opened NullPayLedger

  const NULL_METHOD := "null"
  const I64_BOUND: nat := 0x8000_0000_0000_0000

  datatype Refusal = InvalidStructure | IncompatibleMethods

  datatype Method = Refused(why: Refusal) | Named(name: string)

  function MethodOf(address: string): Option<string> {
    var parts := Split(address, ':');
    if |parts| == 3 then Some(parts[1]) else None
  }

  function Methods(addresses: seq<string>): set<Option<string>> {
    set a | a in addresses :: MethodOf(a)
  }

  // Equal texts collapse in a hash set, so a smaller set shows a repetition;
  // one method must be left over.
  function CommonMethod(addresses: seq<string>): Method {
    if addresses == [] || |Elements(addresses)| != |addresses| then Refused(InvalidStructure)
    else if None in Methods(addresses) then Refused(InvalidStructure)
    else if |Methods(addresses)| != 1 then Refused(IncompatibleMethods)
    else Named(MethodOf(addresses[0]).value)
  }

  function Recipients(outputs: seq<Output>): seq<string> {
    seq(|outputs|, i requires 0 <= i < |outputs| => outputs[i].recipient)
  }

  function MergeMethods(ofInputs: Method, ofOutputs: Method): Method {
    match (ofInputs, ofOutputs)
    case (Refused(why), _) => Refused(why)
    case (_, Refused(why)) => Refused(why)
    case (Named(a), Named(b)) => if a != b then Refused(IncompatibleMethods) else Named(a)
  }

  function PaymentMethodOf(inputs: seq<string>, outputs: seq<Output>): Method {
    MergeMethods(CommonMethod(inputs), CommonMethod(Recipients(outputs)))
  }

  // A fee request may come without outputs.
  function FeesMethodOf(inputs: seq<string>, outputs: seq<Output>): Method {
    if outputs == [] then CommonMethod(inputs) else PaymentMethodOf(inputs, outputs)
  }

  function MintMethodOf(outputs: seq<Output>): Method { CommonMethod(Recipients(outputs)) }

  // ---- what reaches the null plugin ----

  predicate Listed(addresses: seq<string>) {
    Distinct(addresses) && forall i :: 0 <= i < |addresses| ==> MethodOf(addresses[i]) == Some(NULL_METHOD)
  }

  predicate FeesReach(inputs: seq<string>, outputs: seq<Output>) {
    FeesMethodOf(inputs, outputs) == Named(NULL_METHOD)
  }

  predicate PaymentReaches(inputs: seq<string>, outputs: seq<Output>) {
    PaymentMethodOf(inputs, outputs) == Named(NULL_METHOD)
  }

  predicate MintReaches(outputs: seq<Output>) { MintMethodOf(outputs) == Named(NULL_METHOD) }

  // Fees are read as i64 before they are passed on.
  predicate TableReaches(table: seq<(string, u64)>) {
    forall i :: 0 <= i < |table| ==> table[i].1 < I64_BOUND
  }

  lemma {:induction false} DistinctIsSetSize(xs: seq<string>)
    ensures |Elements(xs)| <= |xs|
    ensures |Elements(xs)| == |xs| <==> Distinct(xs)
  {
    if xs == [] {
      assert Elements(xs) == {};
    } else {
      var k := |xs| - 1;
      var init, last := xs[..k], xs[k];
      DistinctIsSetSize(init);
      assert xs == init + [last];
      assert Elements(xs) == Elements(init) + {last};
      assert Distinct(xs) <==> Distinct(init) && last !in init by {
        if Distinct(init) && last !in init {
          forall i, j | 0 <= i < j < |xs|
            ensures xs[i] != xs[j]
          {
            assert xs[i] == init[i];
            assert j < k ==> xs[j] == init[j];
          }
        }
        if Distinct(xs) {
          assert forall i :: 0 <= i < k ==> init[i] == xs[i];
        }
      }
    }
  }

  lemma SingletonMethods(addresses: seq<string>, m: Option<string>)
    requires addresses != []
    ensures |Methods(addresses)| == 1 && MethodOf(addresses[0]) == m
            <==> forall i :: 0 <= i < |addresses| ==> MethodOf(addresses[i]) == m
  {
    var methods := Methods(addresses);
    assert forall i :: 0 <= i < |addresses| ==> addresses[i] in addresses && MethodOf(addresses[i]) in methods;
    if |methods| == 1 {
      assert MethodOf(addresses[0]) in methods && |methods - {MethodOf(addresses[0])}| == 0;
    }
    if forall i :: 0 <= i < |addresses| ==> MethodOf(addresses[i]) == m {
      assert MethodOf(addresses[0]) == m && m in methods;
      assert forall x :: x in methods ==> x == m;
      assert methods == {m};
    }
  }

  // A payment address or source of the null method, written out.
  lemma NullMethodMeans(address: string)
    ensures MethodOf(address) == Some(NULL_METHOD) <==>
      exists a, c :: ':' !in a && ':' !in c && address == Join([a, "null", c], ':')
  {
    JoinSplit(address, ':');
    var parts := Split(address, ':');
    if MethodOf(address) == Some(NULL_METHOD) {
      assert parts == [parts[0], "null", parts[2]];
      assert parts[0] in parts && parts[2] in parts;
    }
    if a, c :| ':' !in a && ':' !in c && address == Join([a, "null", c], ':') {
      SplitJoin([a, "null", c], ':');
    }
  }

  // A list is passed on to the null method exactly when it is not empty, has no
  // repetition and every entry has three parts with that method in the middle.
  lemma CommonMethodExact(addresses: seq<string>)
    ensures CommonMethod(addresses) == Named(NULL_METHOD) <==> addresses != [] && Listed(addresses)
  {
    DistinctIsSetSize(addresses);
    if addresses != [] {
      SingletonMethods(addresses, Some(NULL_METHOD));
      assert addresses[0] in addresses;
    }
  }

  predicate WellStructured(addresses: seq<string>) {
    addresses != [] && Distinct(addresses) && forall i :: 0 <= i < |addresses| ==> MethodOf(addresses[i]).Some?
  }

  // All other lists are refused: as wrongly structured if they are empty, have a
  // repetition or an entry without three parts, else because methods differ.
  lemma CommonMethodRefusals(addresses: seq<string>)
    ensures CommonMethod(addresses) == Refused(InvalidStructure) <==> !WellStructured(addresses)
    ensures CommonMethod(addresses) == Refused(IncompatibleMethods) <==>
      WellStructured(addresses)
      && exists i :: 0 <= i < |addresses| && MethodOf(addresses[i]) != MethodOf(addresses[0])
  {
    DistinctIsSetSize(addresses);
    if addresses != [] {
      SingletonMethods(addresses, MethodOf(addresses[0]));
      assert forall i :: 0 <= i < |addresses| ==>
        addresses[i] in addresses && MethodOf(addresses[i]) in Methods(addresses);
    }
  }

  // What is wrong with the inputs is said first, then what is wrong with the
  // outputs; then the two methods must be the same.
  lemma PaymentRefusals(inputs: seq<string>, outputs: seq<Output>)
    ensures var i, o := CommonMethod(inputs), CommonMethod(Recipients(outputs));
            var r := PaymentMethodOf(inputs, outputs);
            && (i.Refused? ==> r == i)
            && (!i.Refused? && o.Refused? ==> r == o)
            && (i.Named? && o.Named? ==> r == if i == o then i else Refused(IncompatibleMethods))
  {
  }

  lemma ListedRecipients(outputs: seq<Output>)
    ensures Listed(Recipients(outputs)) <==>
      DistinctRecipients(outputs)
      && forall i :: 0 <= i < |outputs| ==> MethodOf(outputs[i].recipient) == Some(NULL_METHOD)
  {
    assert forall i :: 0 <= i < |outputs| ==> Recipients(outputs)[i] == outputs[i].recipient;
  }

  // What each request handler of the plugin can rely on, and all it can.
  lemma ReachingRequests(inputs: seq<string>, outputs: seq<Output>)
    ensures MintReaches(outputs) <==> outputs != [] && Listed(Recipients(outputs))
    ensures PaymentReaches(inputs, outputs) <==>
      inputs != [] && Listed(inputs) && outputs != [] && Listed(Recipients(outputs))
    ensures FeesReach(inputs, outputs) <==> inputs != [] && Listed(inputs) && Listed(Recipients(outputs))
    ensures Listed(Recipients(outputs)) ==> DistinctRecipients(outputs) && ThreeParts(outputs)
  {
    CommonMethodExact(inputs);
    CommonMethodExact(Recipients(outputs));
    ListedRecipients(outputs);
    if outputs == [] {
      assert Recipients(outputs) == [];
    }
  }

  predicate ThreeParts(outputs: seq<Output>) {
    forall i :: 0 <= i < |outputs| ==> |Split(outputs[i].recipient, ':')| == 3
  }

  // Naming a source or a recipient twice never gets past the library.
  lemma RepetitionsAreRefused(inputs: seq<string>, outputs: seq<Output>)
    ensures !Distinct(inputs) ==> !PaymentReaches(inputs, outputs) && !FeesReach(inputs, outputs)
    ensures !DistinctRecipients(outputs) ==>
      !PaymentReaches(inputs, outputs) && !FeesReach(inputs, outputs) && !MintReaches(outputs)
  {
    ReachingRequests(inputs, outputs);
  }
}
