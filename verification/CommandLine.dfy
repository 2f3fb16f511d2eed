// From a line of text to the command it runs: quote trimming, unescaping,
// parameter parsing and dispatch.
module CommandLine {
  import opened Options
  import opened CommandWords

  datatype ParamMeta = ParamMeta(name: string, isOptional: bool, isDeferred: bool)

  datatype CommandMeta = CommandMeta(main: Option<string>, params: seq<ParamMeta>)

  datatype Registry = Registry(
    groups: map<string, map<string, CommandMeta>>,
    commands: map<string, CommandMeta>)

  type Params = map<string, string>

  datatype ParseError =
    | NoMainParam(name: string)
    | BadEscape(name: string)
    | Repeated(name: string)
    | NoValue(name: string)
    | UnknownParam(name: string)

  // Parameters read so far, and the deferred ones still to be asked for.
  datatype Parsed = Bad(error: ParseError) | Good(params: Params, deferred: seq<string>)

  // What the user types for the k-th deferred parameter; empty input is asked again.
  type Answer = s: string | s != "" witness "x"

  function TrimQuotes(s: string): string {
    if |s| > 1 && s[0] == '"' && s[|s| - 1] == '"' then s[1..|s| - 1] else s
  }

  function EscapedChar(c: char): Option<char> {
    match c
    case 'b' => Some('\U{0008}')
    case 'f' => Some('\U{000C}')
    case 'n' => Some('\n')
    case 'r' => Some('\r')
    case 't' => Some('\t')
    case '\'' => Some('\'')
    case '"' => Some('"')
    case '\\' => Some('\\')
    case _ => None
  }

  // The letters after a backslash, and what they stand for.
  const ESCAPES := "bfnrt'\"\\"
  const ESCAPED: seq<int> := [8, 12, 10, 13, 9, 39, 34, 92]

  lemma EscapesAreListed(c: char)
    ensures EscapedChar(c).Some? <==> c in ESCAPES
    ensures forall i :: 0 <= i < |ESCAPES| ==> EscapedChar(ESCAPES[i]) == Some(ESCAPED[i] as char)
  {
  }

  function Unescape(s: string): Option<string> {
    if s == "" then Some("")
    else if s[0] != '\\' then Prepend(s[0], Unescape(s[1..]))
    else if |s| == 1 || EscapedChar(s[1]).None? then None
    else Prepend(EscapedChar(s[1]).value, Unescape(s[2..]))
  }

  function Prepend(c: char, rest: Option<string>): Option<string> {
    if rest.None? then None else Some([c] + rest.value)
  }

  // splitn(2, '='): the name, and the value when there is an equals sign.
  function SplitToken(word: string): (string, Option<string>) {
    if word == "" then ("", None)
    else if word[0] == '=' then ("", Some(word[1..]))
    else
      var (name, value) := SplitToken(word[1..]);
      ([word[0]] + name, value)
  }

  function FindParam(params: seq<ParamMeta>, name: string): Option<ParamMeta> {
    if params == [] then None
    else if params[0].name == name then Some(params[0])
    else FindParam(params[1..], name)
  }

  // One token: res and deferred are what the earlier tokens left.
  function TakeToken(meta: CommandMeta, word: string, res: Params, deferred: seq<string>): Parsed {
    var (name, value) := SplitToken(word);
    if name in res then Bad(Repeated(name))
    else
      match FindParam(meta.params, name)
      case None => Bad(UnknownParam(name))
      case Some(param) =>
        match value
        case Some(text) =>
          var unescaped := Unescape(TrimQuotes(text));
          if unescaped.None? then Bad(BadEscape(name)) else Good(res[name := unescaped.value], deferred)
        case None =>
          if param.isDeferred then Good(res, deferred + [name]) else Bad(NoValue(name))
  }

  function ParseTokens(meta: CommandMeta, line: string, res: Params, deferred: seq<string>): Parsed
    decreases |line|
  {
    SplitShrinks(line);
    var (word, tail) := FirstWord(line);
    if word == "" then Good(res, deferred)
    else
      match TakeToken(meta, word, res, deferred)
      case Bad(error) => Bad(error)
      case Good(r, d) => ParseTokens(meta, tail, r, d)
  }

  function AskAll(res: Params, deferred: seq<string>, answers: nat -> Answer): Params {
    if deferred == [] then res
    else
      var k := |deferred| - 1;
      AskAll(res, deferred[..k], answers)[deferred[k] := answers(k)]
  }

  function ParseMain(meta: CommandMeta, line: string): (Parsed, string) {
    if meta.main.None? then (Good(map[], []), line)
    else
      var (word, tail) := FirstWord(line);
      if word == "" then (Bad(NoMainParam(meta.main.value)), tail)
      else
        match Unescape(TrimQuotes(word))
        case None => (Bad(BadEscape(meta.main.value)), tail)
        case Some(value) => (Good(map[meta.main.value := value], []), tail)
  }

  datatype Outcome = Rejected(error: ParseError) | Accepted(params: Params)

  function ParseParams(meta: CommandMeta, line: string, answers: nat -> Answer): Outcome {
    var (main, tail) := ParseMain(meta, line);
    if main.Bad? then Rejected(main.error)
    else
      match ParseTokens(meta, tail, main.params, [])
      case Bad(error) => Rejected(error)
      case Good(res, deferred) => Accepted(AskAll(res, deferred, answers))
  }

  // The loop of the parser. It ends because every non-empty word leaves a
  // strictly shorter tail.
  method RunParser(meta: CommandMeta, line: string, answers: nat -> Answer) returns (out: Outcome)
    ensures out == ParseParams(meta, line, answers)
  {
    var res: Params := map[];
    var params := line;
    if meta.main.Some? {
      var paramValue, tail := SplitFirstWord(params);
      params := tail;
      if paramValue == "" {
        return Rejected(NoMainParam(meta.main.value));
      }
      var value := Unescape(TrimQuotes(paramValue));
      if value.None? {
        return Rejected(BadEscape(meta.main.value));
      }
      res := res[meta.main.value := value.value];
    }
    ghost var start, res0 := params, res;
    var deferred := [];
    while true
      invariant ParseTokens(meta, start, res0, []) == ParseTokens(meta, params, res, deferred)
      decreases |params|
    {
      SplitShrinks(params);
      var param, tail := SplitFirstWord(params);
      if param == "" {
        break;
      }
      params := tail;
      var (name, value) := SplitToken(param);
      if name in res {
        return Rejected(Repeated(name));
      }
      var meta' := FindParam(meta.params, name);
      if meta'.None? {
        return Rejected(UnknownParam(name));
      }
      if value.Some? {
        var text := Unescape(TrimQuotes(value.value));
        if text.None? {
          return Rejected(BadEscape(name));
        }
        res := res[name := text.value];
      } else if meta'.value.isDeferred {
        deferred := deferred + [name];
      } else {
        return Rejected(NoValue(name));
      }
    }
    ghost var read := res;
    for k := 0 to |deferred|
      invariant res == AskAll(read, deferred[..k], answers)
    {
      assert deferred[..k + 1][..k] == deferred[..k];
      res := res[deferred[k] := answers(k)];
    }
    assert deferred[..|deferred|] == deferred;
    out := Accepted(res);
  }

  // ---- dispatch ----

  datatype Dispatch =
    | Help
    | GroupHelp(group: string)
    | CommandHelp(inGroup: Option<string>, command: string)
    | UnknownCommand
    | BadParams(error: ParseError)
    | Invoke(inGroup: Option<string>, command: string, params: Params)

  function ExecuteCommand(group: Option<string>, name: string, meta: CommandMeta, line: string, answers: nat -> Answer)
    : Dispatch
  {
    if FirstWord(line).0 == "help" then CommandHelp(group, name)
    else
      match ParseParams(meta, line, answers)
      case Rejected(error) => BadParams(error)
      case Accepted(params) => Invoke(group, name, params)
  }

  function ExecuteGroupCommand(group: string, commands: map<string, CommandMeta>, line: string, answers: nat -> Answer)
    : Dispatch
  {
    var (cmd, params) := FirstWord(line);
    if cmd == "help" then GroupHelp(group)
    else if cmd in commands then ExecuteCommand(Some(group), cmd, commands[cmd], params, answers)
    else UnknownCommand
  }

  function Execute(reg: Registry, line: string, answers: nat -> Answer): Dispatch {
    var (cmd, params) := FirstWord(line);
    if cmd == "help" then Help
    else if cmd in reg.groups then ExecuteGroupCommand(cmd, reg.groups[cmd], params, answers)
    else if cmd in reg.commands then ExecuteCommand(None, cmd, reg.commands[cmd], params, answers)
    else UnknownCommand
  }

  // ---- what a successful parse contains ----

  function NameOf(word: string): string { SplitToken(word).0 }

  predicate Valued(word: string) { SplitToken(word).1.Some? }

  // The first declaration of the name.
  predicate FirstNamed(params: seq<ParamMeta>, name: string, i: nat) {
    i < |params| && params[i].name == name && forall j :: 0 <= j < i ==> params[j].name != name
  }

  lemma {:induction false} FindsTheFirst(params: seq<ParamMeta>, name: string, i: nat)
    requires FirstNamed(params, name, i)
    ensures FindParam(params, name) == Some(params[i])
  {
    if i > 0 {
      FindsTheFirst(params[1..], name, i - 1);
    }
  }

  lemma {:induction false} FindParamFinds(params: seq<ParamMeta>, name: string)
    ensures FindParam(params, name).Some? <==> exists p :: p in params && p.name == name
    ensures FindParam(params, name).Some? ==>
      FindParam(params, name).value in params && FindParam(params, name).value.name == name
  {
    if params != [] {
      FindParamFinds(params[1..], name);
      assert params == [params[0]] + params[1..];
    }
  }

  // A token that is acceptable where its name is still free: it names a
  // declared parameter and brings a value that unescapes, or may come later.
  predicate TokenFits(meta: CommandMeta, word: string) {
    var (name, value) := SplitToken(word);
    && FindParam(meta.params, name).Some?
    && match value
       case Some(text) => Unescape(TrimQuotes(text)).Some?
       case None => FindParam(meta.params, name).value.isDeferred
  }

  function ValueOf(word: string): string
    requires Valued(word) && Unescape(TrimQuotes(SplitToken(word).1.value)).Some?
  {
    Unescape(TrimQuotes(SplitToken(word).1.value)).value
  }

  // No name may come again once it has its value; a name still waiting may.
  predicate TokensFit(meta: CommandMeta, words: seq<string>, known: set<string>) {
    && (forall i :: 0 <= i < |words| ==> TokenFits(meta, words[i]) && NameOf(words[i]) !in known)
    && (forall i, j :: 0 <= i < j < |words| && Valued(words[i]) ==> NameOf(words[i]) != NameOf(words[j]))
  }

  function ValuedNames(words: seq<string>): set<string> {
    set i | 0 <= i < |words| && Valued(words[i]) :: NameOf(words[i])
  }

  function Names(words: seq<string>): set<string> {
    set i | 0 <= i < |words| :: NameOf(words[i])
  }

  function WaitingNames(words: seq<string>): seq<string> {
    if words == [] then []
    else (if Valued(words[0]) then [] else [NameOf(words[0])]) + WaitingNames(words[1..])
  }

  function Taken(word: string): set<string> { if Valued(word) then {NameOf(word)} else {} }

  lemma TokensFitCons(meta: CommandMeta, words: seq<string>, known: set<string>)
    requires words != []
    ensures TokensFit(meta, words, known) <==>
      && TokenFits(meta, words[0]) && NameOf(words[0]) !in known
      && TokensFit(meta, words[1..], known + Taken(words[0]))
    ensures ValuedNames(words) == Taken(words[0]) + ValuedNames(words[1..])
    ensures Names(words) == {NameOf(words[0])} + Names(words[1..])
  {
    var rest := words[1..];
    assert forall i :: 0 < i < |words| ==> words[i] == rest[i - 1];
    forall i | 0 <= i < |rest|
      ensures rest[i] == words[i + 1]
    {
    }
    if TokensFit(meta, words, known) {
      assert TokensFit(meta, rest, known + Taken(words[0]));
    }
  }

  predicate Keeps(res: Params, params: Params) {
    forall k :: k in res ==> k in params && params[k] == res[k]
  }

  predicate HoldsWord(word: string, params: Params)
    requires Valued(word)
  {
    && Unescape(TrimQuotes(SplitToken(word).1.value)).Some?
    && NameOf(word) in params && params[NameOf(word)] == ValueOf(word)
  }

  predicate Holds(words: seq<string>, params: Params) {
    forall i :: 0 <= i < |words| && Valued(words[i]) ==> HoldsWord(words[i], params)
  }

  // What the token loop makes of the words, from what was read before them.
  ghost predicate Exact(meta: CommandMeta, words: seq<string>, res: Params, deferred: seq<string>, out: Parsed) {
    && (out.Good? <==> TokensFit(meta, words, res.Keys))
    && (out.Good? ==>
          && out.params.Keys == res.Keys + ValuedNames(words)
          && out.deferred == deferred + WaitingNames(words)
          && Keeps(res, out.params)
          && Holds(words, out.params))
  }

  function AfterToken(word: string, res: Params): Params
    requires Valued(word) ==> Unescape(TrimQuotes(SplitToken(word).1.value)).Some?
  {
    if Valued(word) then res[NameOf(word) := ValueOf(word)] else res
  }

  lemma TakeTokenIsExact(meta: CommandMeta, word: string, res: Params, deferred: seq<string>)
    ensures var out := TakeToken(meta, word, res, deferred);
            && (out.Good? <==> TokenFits(meta, word) && NameOf(word) !in res)
            && (out.Good? ==>
                  out == Good(AfterToken(word, res), deferred + if Valued(word) then [] else [NameOf(word)]))
  {
    assert deferred + [] == deferred;
  }

  lemma HoldsFirst(word: string, res: Params, params: Params)
    requires Valued(word) ==> Unescape(TrimQuotes(SplitToken(word).1.value)).Some?
    requires NameOf(word) !in res && Keeps(AfterToken(word, res), params)
    ensures Keeps(res, params)
    ensures Valued(word) ==> HoldsWord(word, params)
  {
    var r := AfterToken(word, res);
    assert forall k :: k in res ==> k in r && r[k] == res[k];
    if Valued(word) {
      assert NameOf(word) in r && r[NameOf(word)] == ValueOf(word);
    }
  }

  lemma HoldsCons(words: seq<string>, params: Params)
    requires words != [] && Holds(words[1..], params) && (Valued(words[0]) ==> HoldsWord(words[0], params))
    ensures Holds(words, params)
  {
    forall i | 0 <= i < |words| && Valued(words[i])
      ensures HoldsWord(words[i], params)
    {
      if i > 0 {
        assert words[i] == words[1..][i - 1];
      }
    }
  }

  lemma WaitingCons(words: seq<string>, deferred: seq<string>)
    requires words != []
    ensures deferred + (if Valued(words[0]) then [] else [NameOf(words[0])]) + WaitingNames(words[1..])
            == deferred + WaitingNames(words)
  {
  }

  lemma TakeTokenStep(meta: CommandMeta, words: seq<string>, res: Params, deferred: seq<string>, out: Parsed)
    requires words != [] && TokenFits(meta, words[0]) && NameOf(words[0]) !in res
    requires Exact(meta, words[1..], AfterToken(words[0], res),
                   deferred + (if Valued(words[0]) then [] else [NameOf(words[0])]), out)
    ensures Exact(meta, words, res, deferred, out)
  {
    TokensFitCons(meta, words, res.Keys);
    assert AfterToken(words[0], res).Keys == res.Keys + Taken(words[0]);
    if out.Good? {
      WaitingCons(words, deferred);
      HoldsFirst(words[0], res, out.params);
      HoldsCons(words, out.params);
    }
  }

  // The token loop accepts exactly the lines whose words fit, and then holds
  // exactly their names and values.
  lemma {:induction false} ParseTokensExact(meta: CommandMeta, line: string, res: Params, deferred: seq<string>)
    ensures Exact(meta, Words(line), res, deferred, ParseTokens(meta, line, res, deferred))
    decreases |line|
  {
    SplitShrinks(line);
    var (word, tail) := FirstWord(line);
    if word == "" {
      assert Words(line) == [];
      assert res.Keys + ValuedNames([]) == res.Keys;
      assert deferred + WaitingNames([]) == deferred;
    } else {
      var words := [word] + Words(tail);
      assert words[1..] == Words(tail);
      var taken := TakeToken(meta, word, res, deferred);
      TakeTokenIsExact(meta, word, res, deferred);
      if taken.Good? {
        ParseTokensExact(meta, tail, taken.params, taken.deferred);
        TakeTokenStep(meta, words, res, deferred, ParseTokens(meta, line, res, deferred));
      } else {
        TokensFitCons(meta, words, res.Keys);
      }
    }
  }

  lemma {:induction false} AskAllKeys(res: Params, deferred: seq<string>, answers: nat -> Answer)
    ensures AskAll(res, deferred, answers).Keys == res.Keys + (set d | d in deferred)
    ensures forall k :: k in res && k !in deferred ==> AskAll(res, deferred, answers)[k] == res[k]
    ensures forall d :: d in deferred ==> AskAll(res, deferred, answers)[d] != ""
  {
    if deferred != [] {
      var k := |deferred| - 1;
      AskAllKeys(res, deferred[..k], answers);
      assert deferred == deferred[..k] + [deferred[k]];
    }
  }

  // An answer goes to the name it was asked for, unless that name is asked for
  // again later on.
  predicate Answered(waiting: seq<string>, params: Params, answers: nat -> Answer) {
    forall i :: 0 <= i < |waiting| && waiting[i] !in waiting[i + 1..] ==>
      waiting[i] in params && params[waiting[i]] == answers(i)
  }

  lemma AllAnswered(res: Params, deferred: seq<string>, answers: nat -> Answer)
    ensures Answered(deferred, AskAll(res, deferred, answers), answers)
  {
    forall i | 0 <= i < |deferred| && deferred[i] !in deferred[i + 1..]
      ensures deferred[i] in AskAll(res, deferred, answers) && AskAll(res, deferred, answers)[deferred[i]] == answers(i)
    {
      AskAllAnswers(res, deferred, answers, i);
    }
  }

  lemma {:induction false} AskAllAnswers(res: Params, deferred: seq<string>, answers: nat -> Answer, i: nat)
    requires i < |deferred| && deferred[i] !in deferred[i + 1..]
    ensures deferred[i] in AskAll(res, deferred, answers) && AskAll(res, deferred, answers)[deferred[i]] == answers(i)
  {
    var k := |deferred| - 1;
    if i < k {
      assert deferred[i + 1..] == deferred[..k][i + 1..] + [deferred[k]];
      AskAllAnswers(res, deferred[..k], answers, i);
    }
  }

  lemma {:induction false} WaitingAndValued(words: seq<string>)
    ensures Names(words) == ValuedNames(words) + (set d | d in WaitingNames(words))
  {
    if words != [] {
      TokensFitCons(CommandMeta(None, []), words, {});
      WaitingAndValued(words[1..]);
      var waiting := if Valued(words[0]) then [] else [NameOf(words[0])];
      assert forall d :: d in WaitingNames(words) <==> d in waiting || d in WaitingNames(words[1..]);
    }
  }

  function MainNames(meta: CommandMeta): set<string> {
    if meta.main.Some? then {meta.main.value} else {}
  }

  // A value given in the line is the one in the result, unless the same name
  // was also left for later.
  ghost predicate Given(words: seq<string>, params: Params) {
    forall i :: 0 <= i < |words| && Valued(words[i]) ==>
      NameOf(words[i]) in WaitingNames(words) || HoldsWord(words[i], params)
  }

  // What the answers make of the words of a line that fits.
  ghost predicate Complete(main: Params, words: seq<string>, params: Params, answers: nat -> Answer) {
    && params.Keys == main.Keys + Names(words)
    && Keeps(main, params) && Given(words, params) && Answered(WaitingNames(words), params, answers)
  }

  lemma MainIsNotAskedFor(meta: CommandMeta, words: seq<string>, known: set<string>)
    requires TokensFit(meta, words, known)
    ensures forall d :: d in WaitingNames(words) ==> d !in known
  {
    WaitingNamesComeFromWords(words);
  }

  lemma AskedIsComplete(meta: CommandMeta, words: seq<string>, main: Params, parsed: Parsed, answers: nat -> Answer)
    requires Exact(meta, words, main, [], parsed)
    ensures parsed.Good? <==> TokensFit(meta, words, main.Keys)
    ensures parsed.Good? ==> Complete(main, words, AskAll(parsed.params, parsed.deferred, answers), answers)
  {
    if parsed.Good? {
      assert parsed.deferred == WaitingNames(words);
      WaitingAndValued(words);
      MainIsNotAskedFor(meta, words, main.Keys);
      AskAllKeys(parsed.params, parsed.deferred, answers);
      AllAnswered(parsed.params, parsed.deferred, answers);
    }
  }

  // The parser accepts exactly when the main parameter is there and unescapes
  // and the other words fit; its keys are then the main name and all the names
  // the words give, a value given in the line is the one in the result unless
  // the same name was also left for later, and an answer is the value of the
  // name it was asked for, the last one if it was asked for more than once.
  lemma ParseParamsExact(meta: CommandMeta, line: string, answers: nat -> Answer)
    ensures var (main, tail) := ParseMain(meta, line);
            var out := ParseParams(meta, line, answers);
            && (main.Good? ==> main.params.Keys == MainNames(meta))
            && (out.Accepted? <==> main.Good? && TokensFit(meta, Words(tail), MainNames(meta)))
            && (out.Accepted? ==> Complete(main.params, Words(tail), out.params, answers))
  {
    var (main, tail) := ParseMain(meta, line);
    if main.Good? {
      ParseTokensExact(meta, tail, main.params, []);
      AskedIsComplete(meta, Words(tail), main.params, ParseTokens(meta, tail, main.params, []), answers);
    }
  }

  lemma {:induction false} WaitingNamesComeFromWords(words: seq<string>)
    ensures forall d :: d in WaitingNames(words) ==> exists i :: 0 <= i < |words| && NameOf(words[i]) == d
  {
    if words != [] {
      WaitingNamesComeFromWords(words[1..]);
      forall d | d in WaitingNames(words)
        ensures exists i :: 0 <= i < |words| && NameOf(words[i]) == d
      {
        if d in WaitingNames(words[1..]) {
          var i :| 0 <= i < |words[1..]| && NameOf(words[1..][i]) == d;
          assert NameOf(words[i + 1]) == d;
        } else {
          assert NameOf(words[0]) == d;
        }
      }
    }
  }
}
