// A payment typed as a command line: printing, splitting, parsing and dispatch
// together with the tuple parser of its outputs.
module PaymentLine {
  import opened Options
  import opened CommandLine
  import opened CommandLineRoundTrip
  import opened PaymentParams

  lemma {:induction false} PrintedOutputsEndInParen(entries: seq<(string, nat)>)
    requires entries != []
    ensures PrintOutputs(entries) != "" && PrintOutputs(entries)[|PrintOutputs(entries)| - 1] == ')'
  {
    if |entries| > 1 {
      PrintedOutputsEndInParen(entries[1..]);
    } else {
      assert PrintOutputs(entries) == "(" + OutputText(entries[0]) + ")";
    }
  }

  // Outputs printed into a parameter of any registered command come back out of
  // the executed line as the same outputs, in order. They never end in a
  // backslash, so they may stand anywhere in the line.
  lemma {:induction false} PrintedOutputsArrive(reg: Registry, inv: Invocation, answers: nat -> Answer,
                                                  k: nat, entries: seq<(string, nat)>)
    requires Registered(reg, inv) && k < |inv.tokens| && inv.tokens[k].1 == PrintOutputs(entries)
    requires entries != [] && AmountsFit(entries)
    requires forall i :: 0 <= i < |entries| ==> CleanRecipient(entries[i].0)
    requires OnlyLastEndsInBackslash(ItemsOf(inv.main, inv.tokens))
    ensures !EndsInBackslash(inv.tokens[k].1)
    ensures var out := Execute(reg, PrintLine(inv), answers);
            && out.Invoke? && out.inGroup == inv.inGroup && out.command == inv.command
            && inv.tokens[k].0 in out.params
            && var tuples := GetTuples(Some(out.params[inv.tokens[k].0]));
               tuples.Some? && ParseEach(tuples.value) == Some(AsOutputs(entries))
  {
    PrintedOutputsEndInParen(entries);
    ExecutingPrintedLine(reg, inv, answers);
    TokenMapHolds(inv.tokens, k);
    OutputsRoundTrip(entries);
  }
}
