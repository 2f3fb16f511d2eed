// How any line is answered: which command or help screen it reaches, and which
// error the parser gives when it gives one.
module CommandAnswers {
  import opened Options
  import opened CommandWords
  import opened CommandLine

  // ---- which command ----

  // The line behind its first n words.
  function After(line: string, n: nat): string {
    if n == 0 then line else FirstWord(After(line, n - 1)).1
  }

  function Nth(words: seq<string>, n: nat): string { if n < |words| then words[n] else "" }

  // By its first three words alone: help first, then groups, then top-level
  // commands; what the arguments say is for the parser.
  function ByWords(reg: Registry, first: string, second: string, third: string, line: string, answers: nat -> Answer)
    : Dispatch
  {
    if first == "help" then Help
    else if first in reg.groups then
      if second == "help" then GroupHelp(first)
      else if second !in reg.groups[first] then UnknownCommand
      else if third == "help" then CommandHelp(Some(first), second)
      else Parsing(Some(first), second, ParseParams(reg.groups[first][second], After(line, 2), answers))
    else if first !in reg.commands then UnknownCommand
    else if second == "help" then CommandHelp(None, first)
    else Parsing(None, first, ParseParams(reg.commands[first], After(line, 1), answers))
  }

  function Parsing(inGroup: Option<string>, command: string, out: Outcome): Dispatch {
    if out.Accepted? then Invoke(inGroup, command, out.params) else BadParams(out.error)
  }

  lemma FirstOfWords(line: string)
    ensures var (word, tail) := FirstWord(line);
            && word == Nth(Words(line), 0)
            && Words(tail) == (if Words(line) == [] then [] else Words(line)[1..])
  {
    SplitShrinks(line);
    if FirstWord(line).0 == "" {
      SplitShrinks("");
    }
  }

  lemma DropOneMore(w: seq<string>, n: nat)
    requires n > 0
    ensures n - 1 < |w| ==> w[n - 1..][1..] == w[n..]
  {
  }

  lemma {:induction false} WordsOfTail(line: string, n: nat)
    ensures var w := Words(line);
            Words(After(line, n)) == if n < |w| then w[n..] else []
  {
    if n > 0 {
      WordsOfTail(line, n - 1);
      FirstOfWords(After(line, n - 1));
      DropOneMore(Words(line), n);
    }
  }

  lemma NthOfLine(line: string, n: nat)
    ensures FirstWord(After(line, n)).0 == Nth(Words(line), n)
  {
    WordsOfTail(line, n);
    FirstOfWords(After(line, n));
  }

  lemma ExecuteByTails(reg: Registry, line: string, answers: nat -> Answer)
    ensures Execute(reg, line, answers)
            == ByWords(reg, FirstWord(After(line, 0)).0, FirstWord(After(line, 1)).0, FirstWord(After(line, 2)).0,
                       line, answers)
  {
    assert After(line, 1) == FirstWord(line).1 && After(line, 2) == FirstWord(After(line, 1)).1;
  }

  // Whatever the line, it is answered by its words.
  lemma LineIsAnswered(reg: Registry, line: string, answers: nat -> Answer)
    ensures var w := Words(line);
            Execute(reg, line, answers) == ByWords(reg, Nth(w, 0), Nth(w, 1), Nth(w, 2), line, answers)
  {
    ExecuteByTails(reg, line, answers);
    NthOfLine(line, 0);
    NthOfLine(line, 1);
    NthOfLine(line, 2);
  }

  // ---- which error ----

  // The names that have a value before the i-th word.
  function Settled(words: seq<string>, i: nat, known: set<string>): set<string>
    requires i <= |words|
  {
    known + ValuedNames(words[..i])
  }

  // The first word that does not fit is what the error is about: a name that
  // has its value already, one that is not declared, a value with a bad
  // escape, or no value where one is needed.
  ghost predicate IsAbout(meta: CommandMeta, word: string, settled: set<string>, error: ParseError) {
    var name := NameOf(word);
    if name in settled then error == Repeated(name)
    else if forall p :: p in meta.params ==> p.name != name then error == UnknownParam(name)
    else if Valued(word) then error == BadEscape(name)
    else error == NoValue(name)
  }

  lemma BadTokenIsAbout(meta: CommandMeta, word: string, res: Params, deferred: seq<string>)
    ensures TakeToken(meta, word, res, deferred).Bad? ==>
      IsAbout(meta, word, res.Keys, TakeToken(meta, word, res, deferred).error)
  {
    FindParamFinds(meta.params, NameOf(word));
  }

  lemma SettledCons(words: seq<string>, i: nat, known: set<string>)
    requires i < |words|
    ensures Settled(words, i + 1, known) == Settled(words[1..], i, known + Taken(words[0]))
  {
    TokensFitCons(CommandMeta(None, []), words[..i + 1], known);
    assert words[..i + 1][1..] == words[1..][..i] && words[..i + 1][0] == words[0];
  }

  // The words before the i-th fit, and the error is about that one.
  ghost predicate Blames(meta: CommandMeta, words: seq<string>, known: set<string>, i: nat, error: ParseError) {
    i < |words| && TokensFit(meta, words[..i], known) && IsAbout(meta, words[i], Settled(words, i, known), error)
  }

  lemma BlamesFirst(meta: CommandMeta, words: seq<string>, known: set<string>, error: ParseError)
    requires words != [] && IsAbout(meta, words[0], known, error)
    ensures Blames(meta, words, known, 0, error)
  {
    assert Settled(words, 0, known) == known;
  }

  lemma BlamesLater(meta: CommandMeta, words: seq<string>, known: set<string>, i: nat, error: ParseError)
    requires words != [] && TokenFits(meta, words[0]) && NameOf(words[0]) !in known
    requires Blames(meta, words[1..], known + Taken(words[0]), i, error)
    ensures Blames(meta, words, known, i + 1, error)
  {
    SettledCons(words, i, known);
    assert words[..i + 1][0] == words[0] && words[..i + 1][1..] == words[1..][..i];
    TokensFitCons(meta, words[..i + 1], known);
  }

  // Every error of the token loop is about the first word that does not fit.
  lemma {:induction false} ErrorIsAboutFirstBadWord(meta: CommandMeta, line: string, res: Params, deferred: seq<string>)
    returns (i: nat)
    requires ParseTokens(meta, line, res, deferred).Bad?
    ensures Blames(meta, Words(line), res.Keys, i, ParseTokens(meta, line, res, deferred).error)
    decreases |line|
  {
    SplitShrinks(line);
    var (word, tail) := FirstWord(line);
    var words := Words(line);
    assert words[0] == word && words[1..] == Words(tail);
    var taken := TakeToken(meta, word, res, deferred);
    TakeTokenIsExact(meta, word, res, deferred);
    if taken.Bad? {
      i := 0;
      BadTokenIsAbout(meta, word, res, deferred);
      BlamesFirst(meta, words, res.Keys, taken.error);
    } else {
      var j := ErrorIsAboutFirstBadWord(meta, tail, taken.params, taken.deferred);
      i := j + 1;
      assert taken.params.Keys == res.Keys + Taken(word);
      BlamesLater(meta, words, res.Keys, j, ParseTokens(meta, tail, taken.params, taken.deferred).error);
    }
  }

  // Before the words, the main parameter: it is missing or badly escaped.
  lemma MainErrorIsAbout(meta: CommandMeta, line: string, answers: nat -> Answer)
    requires meta.main.Some?
    ensures Words(line) == [] ==> ParseParams(meta, line, answers) == Rejected(NoMainParam(meta.main.value))
    ensures Words(line) != [] && Unescape(TrimQuotes(Words(line)[0])).None? ==>
      ParseParams(meta, line, answers) == Rejected(BadEscape(meta.main.value))
  {
    FirstOfWords(line);
    SplitShrinks(line);
  }
}
