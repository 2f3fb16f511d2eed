// Printing an invocation and executing the printed line.
module CommandLineRoundTrip {
  import opened Options
  import opened CommandWords
  import opened CommandLine

  // ---- printing ----

  function EscapeChar(c: char): string { if c == '"' || c == '\\' then ['\\', c] else [c] }

  function Escape(v: string): string {
    if v == "" then "" else EscapeChar(v[0]) + Escape(v[1..])
  }

  function Quote(v: string): string { "\"" + Escape(v) + "\"" }

  // A printed argument: "" or a name with its equals sign, then the quoted value.
  datatype Item = Item(prefix: string, value: string) {
    function Text(): string { prefix + Quote(value) }
  }

  function PrintItems(items: seq<Item>): string {
    if items == [] then ""
    else if |items| == 1 then items[0].Text()
    else items[0].Text() + " " + PrintItems(items[1..])
  }

  predicate EndsInBackslash(v: string) { v != "" && v[|v| - 1] == '\\' }

  // No whitespace and no quotation mark.
  predicate Plain(s: string) {
    forall i :: 0 <= i < |s| ==> !IsWhitespace(s[i]) && s[i] != '"'
  }

  predicate PlainPrefix(p: string) { Plain(p) && !EndsInBackslash(p) }

  // ---- where a printed argument ends ----

  lemma {:induction false} PlainPassesThrough(p: string, rest: string, q: bool)
    requires Plain(p)
    ensures WordEnd(p + rest, q, false) == |p| + WordEnd(rest, if p == "" then q else EndsInBackslash(p), false)
  {
    if p == "" {
      assert p + rest == rest;
    } else {
      assert (p + rest)[1..] == p[1..] + rest;
      PlainPassesThrough(p[1..], rest, p[0] == '\\');
    }
  }

  lemma EscapeCharPasses(c: char, more: string, q: bool)
    ensures WordEnd(EscapeChar(c) + more, q, true) == |EscapeChar(c)| + WordEnd(more, c == '\\', true)
  {
    var s := EscapeChar(c) + more;
    if c == '"' || c == '\\' {
      assert s[1..] == [c] + more;
      assert s[1..][1..] == more;
      assert WordEnd(s, q, true) == 1 + WordEnd(s[1..], true, true);
    } else {
      assert s[1..] == more;
    }
  }

  lemma EscapeCons(v: string, rest: string)
    requires v != ""
    ensures Escape(v) + rest == EscapeChar(v[0]) + (Escape(v[1..]) + rest)
  {
  }

  // Inside quotes every quotation mark is escaped, so the mode stays.
  lemma {:induction false} EscapedPassesThrough(v: string, rest: string, q: bool)
    ensures WordEnd(Escape(v) + rest, q, true)
            == |Escape(v)| + WordEnd(rest, if v == "" then q else EndsInBackslash(v), true)
  {
    if v == "" {
      assert Escape(v) + rest == rest;
    } else {
      EscapeCons(v, rest);
      EscapeCharPasses(v[0], Escape(v[1..]) + rest, q);
      EscapedPassesThrough(v[1..], rest, v[0] == '\\');
    }
  }

  lemma QuotedPassesThrough(v: string, rest: string)
    ensures WordEnd(Quote(v) + rest, false, false) == |Quote(v)| + WordEnd(rest, false, EndsInBackslash(v))
  {
    var close := "\"" + rest;
    var body := Escape(v) + close;
    assert Quote(v) + rest == "\"" + body && ("\"" + body)[1..] == body;
    EscapedPassesThrough(v, close, false);
    assert close[1..] == rest;
  }

  // After the closing mark the mode is off, unless the value ends in a
  // backslash: then that mark counts as escaped and the mode stays on.
  lemma ItemPassesThrough(item: Item, rest: string)
    requires PlainPrefix(item.prefix)
    ensures WordEnd(item.Text() + rest, false, false)
            == |item.Text()| + WordEnd(rest, false, EndsInBackslash(item.value))
  {
    assert item.Text() + rest == item.prefix + (Quote(item.value) + rest);
    PlainPassesThrough(item.prefix, Quote(item.value) + rest, false);
    QuotedPassesThrough(item.value, rest);
  }

  lemma {:induction false} PrintItemsTidy(items: seq<Item>)
    requires forall i :: i in items ==> PlainPrefix(i.prefix)
    ensures Tidy(PrintItems(items)) && (items != [] ==> PrintItems(items) != "" && '"' in PrintItems(items))
  {
    if items != [] {
      var text := items[0].Text();
      assert text[|text| - 1] == '"' && !IsWhitespace(text[0]);
      if |items| > 1 {
        PrintItemsTidy(items[1..]);
        assert PrintItems(items)[|text|] == ' ';
      }
    }
  }

  lemma OnlyItemSplits(item: Item)
    requires PlainPrefix(item.prefix)
    ensures FirstWord(item.Text()) == (item.Text(), "")
  {
    var text := item.Text();
    PrintItemsTidy([item]);
    TrimTidies(text);
    ItemPassesThrough(item, "");
    assert text + "" == text;
  }

  lemma BesideOthersIsTidy(item: Item, rest: string)
    requires PlainPrefix(item.prefix) && rest != "" && Tidy(rest)
    ensures Tidy(item.Text() + (" " + rest))
  {
    PrintItemsTidy([item]);
  }

  lemma WordIsCut(head: string, after: string, n: nat)
    requires Tidy(head + after) && n <= |after| && WordEnd(head + after, false, false) == |head| + n
    ensures FirstWord(head + after) == (head + after[..n], TrimLeft(after[n..]))
  {
    var s := head + after;
    TrimTidies(s);
    assert s[..|head| + n] == head + after[..n];
    assert s[|head| + n..] == after[n..];
  }

  lemma SpaceEndsWord(rest: string)
    requires Tidy(rest)
    ensures var after := " " + rest;
            && after[..WordEnd(after, false, true)] != ""
            && WordEnd(after, false, false) == 0 && after[..0] == "" && TrimLeft(after[0..]) == rest
  {
    var after := " " + rest;
    assert after[0..] == after && after[1..] == rest;
    assert WordEnd(after, false, true) >= 1;
  }

  lemma ItemBeforeOthers(item: Item, rest: string)
    requires PlainPrefix(item.prefix) && rest != "" && Tidy(rest)
    ensures var (word, tail) := FirstWord(item.Text() + (" " + rest));
            && (!EndsInBackslash(item.value) ==> word == item.Text() && tail == rest)
            && (EndsInBackslash(item.value) ==>
                  exists more :: more != "" && word == item.Text() + more)
  {
    var text, after := item.Text(), " " + rest;
    BesideOthersIsTidy(item, rest);
    ItemPassesThrough(item, after);
    SpaceEndsWord(rest);
    WordIsCut(text, after, WordEnd(after, false, EndsInBackslash(item.value)));
    assert text + "" == text;
  }

  lemma PrintItemsCons(items: seq<Item>)
    requires |items| > 1
    ensures PrintItems(items) == items[0].Text() + (" " + PrintItems(items[1..]))
  {
    var text, rest := items[0].Text(), PrintItems(items[1..]);
    assert text + " " + rest == text + (" " + rest);
  }

  // The first argument is split off whole when it is the last one or its value
  // does not end in a backslash; otherwise it swallows some of what follows.
  lemma FirstItemSplits(items: seq<Item>)
    requires items != [] && forall i :: i in items ==> PlainPrefix(i.prefix)
    ensures var (word, tail) := FirstWord(PrintItems(items));
            && (|items| == 1 || !EndsInBackslash(items[0].value) ==>
                  word == items[0].Text() && tail == PrintItems(items[1..]))
            && (|items| > 1 && EndsInBackslash(items[0].value) ==>
                  exists more :: more != "" && word == items[0].Text() + more)
  {
    if |items| == 1 {
      OnlyItemSplits(items[0]);
    } else {
      PrintItemsTidy(items[1..]);
      ItemBeforeOthers(items[0], PrintItems(items[1..]));
      PrintItemsCons(items);
    }
  }

  // ---- reading a printed argument back ----

  lemma UnescapeOne(c: char, rest: string)
    ensures Unescape(EscapeChar(c) + rest) == Prepend(c, Unescape(rest))
  {
    var s := EscapeChar(c) + rest;
    if c == '"' || c == '\\' {
      assert s[0] == '\\' && s[1] == c && s[2..] == rest;
    } else {
      assert s[0] == c && s[1..] == rest;
    }
  }

  function Append(v: string, rest: Option<string>): Option<string> {
    if rest.None? then None else Some(v + rest.value)
  }

  lemma PrependAppend(v: string, rest: Option<string>)
    requires v != ""
    ensures Prepend(v[0], Append(v[1..], rest)) == Append(v, rest)
  {
    if rest.Some? {
      assert [v[0]] + (v[1..] + rest.value) == v + rest.value;
    }
  }

  lemma AppendNothing(rest: Option<string>)
    ensures Append("", rest) == rest
  {
    if rest.Some? {
      assert "" + rest.value == rest.value;
    }
  }

  lemma {:induction false} UnescapeEscape(v: string, rest: string)
    ensures Unescape(Escape(v) + rest) == Append(v, Unescape(rest))
  {
    if v == "" {
      assert Escape(v) + rest == rest;
      AppendNothing(Unescape(rest));
    } else {
      UnescapeEscape(v[1..], rest);
      EscapeCons(v, rest);
      UnescapeOne(v[0], Escape(v[1..]) + rest);
      PrependAppend(v, Unescape(rest));
    }
  }

  lemma QuotedReadsBack(v: string)
    ensures Unescape(TrimQuotes(Quote(v))) == Some(v)
  {
    assert Quote(v)[1..|Quote(v)| - 1] == Escape(v);
    UnescapeEscape(v, "");
    assert Escape(v) + "" == Escape(v);
    assert v + "" == v;
  }

  lemma UnescapeIsNotEmpty(s: string)
    requires s != ""
    ensures Unescape(s) != Some("")
  {
  }

  lemma LongerReadsLonger(v: string, after: string)
    requires after != ""
    ensures var read := Unescape(Escape(v) + after);
            read.Some? ==> |read.value| > |v|
  {
    UnescapeEscape(v, after);
    UnescapeIsNotEmpty(after);
  }

  lemma QuoteThenLonger(v: string, more: string)
    ensures Unescape(Quote(v) + more) != Some(v)
  {
    var body := Escape(v) + ("\"" + more);
    var u := Quote(v) + more;
    assert u == "\"" + body && u[1..] == body;
    LongerReadsLonger(v, "\"" + more);
  }

  lemma TrimmedSwallow(v: string, more: string)
    requires more != "" && more[|more| - 1] == '"'
    ensures TrimQuotes(Quote(v) + more) == Escape(v) + ("\"" + more[..|more| - 1])
  {
    var inner := Escape(v) + ("\"" + more[..|more| - 1]);
    assert more == more[..|more| - 1] + "\"";
    Peel(Quote(v) + more, inner);
  }

  lemma Peel(s: string, inner: string)
    requires s == "\"" + inner + "\""
    ensures TrimQuotes(s) == inner
  {
  }

  // A quoted value with anything after it never reads back as that value.
  lemma SwallowedReadsWrong(v: string, more: string)
    requires more != ""
    ensures Unescape(TrimQuotes(Quote(v) + more)) != Some(v)
  {
    if more[|more| - 1] == '"' {
      TrimmedSwallow(v, more);
      LongerReadsLonger(v, "\"" + more[..|more| - 1]);
    } else {
      QuoteThenLonger(v, more);
    }
  }

  predicate NameOk(name: string) { Plain(name) && '=' !in name }

  lemma {:induction false} TokenSplits(name: string, text: string)
    requires '=' !in name
    ensures SplitToken(name + "=" + text) == (name, Some(text))
  {
    var word := name + "=" + text;
    if name == "" {
      assert word == "=" + text;
    } else {
      assert word[1..] == name[1..] + "=" + text;
      TokenSplits(name[1..], text);
      assert [name[0]] + name[1..] == name;
    }
  }

  // ---- the token loop on a printed line ----

  function TokenItems(tokens: seq<(string, string)>): seq<Item> {
    if tokens == [] then [] else [Item(tokens[0].0 + "=", tokens[0].1)] + TokenItems(tokens[1..])
  }

  function TokenMap(tokens: seq<(string, string)>): Params {
    if tokens == [] then map[] else TokenMap(tokens[1..])[tokens[0].0 := tokens[0].1]
  }

  predicate TokensOk(meta: CommandMeta, tokens: seq<(string, string)>) {
    && (forall i :: 0 <= i < |tokens| ==> NameOk(tokens[i].0) && FindParam(meta.params, tokens[i].0).Some?)
    && (forall i, j :: 0 <= i < j < |tokens| ==> tokens[i].0 != tokens[j].0)
  }

  // No value but the last may end in a backslash.
  predicate OnlyLastEndsInBackslash(items: seq<Item>) {
    forall i :: 0 <= i < |items| - 1 ==> !EndsInBackslash(items[i].value)
  }

  lemma {:induction false} TokenItemsShape(tokens: seq<(string, string)>)
    requires forall i :: 0 <= i < |tokens| ==> NameOk(tokens[i].0)
    ensures |TokenItems(tokens)| == |tokens|
    ensures forall i :: i in TokenItems(tokens) ==> PlainPrefix(i.prefix)
  {
    if tokens != [] {
      TokenItemsShape(tokens[1..]);
      assert Plain(tokens[0].0 + "=");
    }
  }

  lemma {:induction false} TokenMapKeys(tokens: seq<(string, string)>)
    ensures forall k :: k in TokenMap(tokens) ==> exists i :: 0 <= i < |tokens| && tokens[i].0 == k
  {
    if tokens != [] {
      TokenMapKeys(tokens[1..]);
      forall k | k in TokenMap(tokens)
        ensures exists i :: 0 <= i < |tokens| && tokens[i].0 == k
      {
        if k != tokens[0].0 {
          var rest := tokens[1..];
          assert k in TokenMap(rest);
          var i :| 0 <= i < |rest| && rest[i].0 == k;
          assert tokens[i + 1].0 == k;
        }
      }
    }
  }

  lemma PrintedTokenIsTaken(meta: CommandMeta, name: string, value: string, res: Params, deferred: seq<string>)
    requires NameOk(name) && FindParam(meta.params, name).Some? && name !in res
    ensures TakeToken(meta, Item(name + "=", value).Text(), res, deferred) == Good(res[name := value], deferred)
  {
    TokenSplits(name, Quote(value));
    QuotedReadsBack(value);
    assert Item(name + "=", value).Text() == name + "=" + Quote(value);
  }

  // A value that is in stays what it is.
  lemma {:induction false} LoopKeepsValues(meta: CommandMeta, line: string, res: Params, deferred: seq<string>,
                                             name: string)
    requires name in res && name !in deferred
    ensures var out := ParseTokens(meta, line, res, deferred);
            out.Good? ==> name in out.params && out.params[name] == res[name] && name !in out.deferred
    decreases |line|
  {
    SplitShrinks(line);
    var (word, tail) := FirstWord(line);
    if word != "" {
      var taken := TakeToken(meta, word, res, deferred);
      TakeTokenIsExact(meta, word, res, deferred);
      if taken.Good? {
        LoopKeepsValues(meta, tail, taken.params, taken.deferred, name);
      }
    }
  }

  lemma LoopStep(meta: CommandMeta, line: string, res: Params, deferred: seq<string>)
    requires FirstWord(line).0 != ""
    ensures match TakeToken(meta, FirstWord(line).0, res, deferred)
            case Bad(error) => ParseTokens(meta, line, res, deferred) == Bad(error)
            case Good(r, d) => ParseTokens(meta, line, res, deferred) == ParseTokens(meta, FirstWord(line).1, r, d)
  {
  }

  // One printed token is read as its name and value, and the rest stays printed.
  lemma PrintedTokenStep(meta: CommandMeta, tokens: seq<(string, string)>, res: Params)
    requires TokensOk(meta, tokens) && tokens != [] && tokens[0].0 !in res
    requires |tokens| == 1 || !EndsInBackslash(tokens[0].1)
    ensures ParseTokens(meta, PrintItems(TokenItems(tokens)), res, [])
            == ParseTokens(meta, PrintItems(TokenItems(tokens[1..])), res[tokens[0].0 := tokens[0].1], [])
  {
    var items := TokenItems(tokens);
    TokenItemsShape(tokens);
    FirstItemSplits(items);
    assert items[1..] == TokenItems(tokens[1..]);
    PrintedTokenIsTaken(meta, tokens[0].0, tokens[0].1, res, []);
    LoopStep(meta, PrintItems(items), res, []);
  }

  lemma OnlyLastCons(items: seq<Item>)
    requires items != []
    ensures OnlyLastEndsInBackslash(items) <==>
      (|items| == 1 || !EndsInBackslash(items[0].value)) && OnlyLastEndsInBackslash(items[1..])
  {
    assert forall i :: 0 < i < |items| ==> items[i] == items[1..][i - 1];
    if OnlyLastEndsInBackslash(items) {
      forall i | 0 <= i < |items[1..]| - 1
        ensures !EndsInBackslash(items[1..][i].value)
      {
        assert items[1..][i] == items[i + 1];
      }
    }
  }

  lemma OnlyLastStep(tokens: seq<(string, string)>)
    requires tokens != []
    ensures OnlyLastEndsInBackslash(TokenItems(tokens)) <==>
      (|tokens| == 1 || !EndsInBackslash(tokens[0].1)) && OnlyLastEndsInBackslash(TokenItems(tokens[1..]))
  {
    TokenItemsLength(tokens);
    OnlyLastCons(TokenItems(tokens));
    assert TokenItems(tokens)[1..] == TokenItems(tokens[1..]);
  }

  lemma {:induction false} TokenItemsLength(tokens: seq<(string, string)>)
    ensures |TokenItems(tokens)| == |tokens|
  {
    if tokens != [] {
      TokenItemsLength(tokens[1..]);
    }
  }

  lemma TokenMapStep(tokens: seq<(string, string)>, res: Params)
    requires tokens != [] && forall i, j :: 0 <= i < j < |tokens| ==> tokens[i].0 != tokens[j].0
    ensures res[tokens[0].0 := tokens[0].1] + TokenMap(tokens[1..]) == res + TokenMap(tokens)
  {
    NameNotAgain(tokens);
  }

  predicate AllNew(tokens: seq<(string, string)>, res: Params) {
    forall i :: 0 <= i < |tokens| ==> tokens[i].0 !in res
  }

  lemma TokensOkStep(meta: CommandMeta, tokens: seq<(string, string)>, res: Params)
    requires TokensOk(meta, tokens) && AllNew(tokens, res) && tokens != []
    ensures TokensOk(meta, tokens[1..]) && AllNew(tokens[1..], res[tokens[0].0 := tokens[0].1])
  {
  }

  lemma {:induction false} PrintedTokensParse(meta: CommandMeta, tokens: seq<(string, string)>, res: Params)
    requires TokensOk(meta, tokens) && AllNew(tokens, res)
    requires OnlyLastEndsInBackslash(TokenItems(tokens))
    ensures ParseTokens(meta, PrintItems(TokenItems(tokens)), res, []) == Good(res + TokenMap(tokens), [])
  {
    if tokens == [] {
      assert FirstWord("") == ("", "");
      assert res + map[] == res;
    } else {
      OnlyLastStep(tokens);
      TokensOkStep(meta, tokens, res);
      PrintedTokenStep(meta, tokens, res);
      PrintedTokensParse(meta, tokens[1..], res[tokens[0].0 := tokens[0].1]);
      TokenMapStep(tokens, res);
    }
  }

  lemma NameNotAgain(tokens: seq<(string, string)>)
    requires tokens != [] && forall i, j :: 0 <= i < j < |tokens| ==> tokens[i].0 != tokens[j].0
    ensures tokens[0].0 !in TokenMap(tokens[1..])
  {
    TokenMapKeys(tokens[1..]);
  }

  // The loop ended in an error, or holds another value for some printed name.
  ghost predicate Wrong(out: Parsed, tokens: seq<(string, string)>) {
    out.Good? ==>
      exists i :: 0 <= i < |tokens| && tokens[i].0 in out.params
                  && out.params[tokens[i].0] != tokens[i].1 && tokens[i].0 !in out.deferred
  }

  lemma SwallowingTokenIsWrong(meta: CommandMeta, tokens: seq<(string, string)>, res: Params)
    requires TokensOk(meta, tokens) && |tokens| > 1 && tokens[0].0 !in res
    requires EndsInBackslash(tokens[0].1)
    ensures Wrong(ParseTokens(meta, PrintItems(TokenItems(tokens)), res, []), tokens)
  {
    var (name, value) := tokens[0];
    var items := TokenItems(tokens);
    TokenItemsShape(tokens);
    FirstItemSplits(items);
    var (word, tail) := FirstWord(PrintItems(items));
    var more :| more != "" && word == items[0].Text() + more;
    assert word == name + "=" + (Quote(value) + more);
    TokenSplits(name, Quote(value) + more);
    SwallowedReadsWrong(value, more);
    LoopStep(meta, PrintItems(items), res, []);
    TakeTokenIsExact(meta, word, res, []);
    var taken := TakeToken(meta, word, res, []);
    if taken.Good? {
      LoopKeepsValues(meta, tail, taken.params, taken.deferred, name);
    }
  }

  lemma WrongLater(out: Parsed, tokens: seq<(string, string)>)
    requires tokens != [] && Wrong(out, tokens[1..])
    ensures Wrong(out, tokens)
  {
    if out.Good? {
      var rest := tokens[1..];
      var i :| 0 <= i < |rest| && rest[i].0 in out.params
               && out.params[rest[i].0] != rest[i].1 && rest[i].0 !in out.deferred;
      assert tokens[i + 1] == rest[i];
    }
  }

  lemma {:induction false} SwallowingTokensAreWrong(meta: CommandMeta, tokens: seq<(string, string)>, res: Params)
    requires TokensOk(meta, tokens) && AllNew(tokens, res)
    requires !OnlyLastEndsInBackslash(TokenItems(tokens))
    ensures Wrong(ParseTokens(meta, PrintItems(TokenItems(tokens)), res, []), tokens)
  {
    OnlyLastStep(tokens);
    if |tokens| > 1 && EndsInBackslash(tokens[0].1) {
      SwallowingTokenIsWrong(meta, tokens, res);
    } else {
      TokensOkStep(meta, tokens, res);
      PrintedTokenStep(meta, tokens, res);
      SwallowingTokensAreWrong(meta, tokens[1..], res[tokens[0].0 := tokens[0].1]);
      WrongLater(ParseTokens(meta, PrintItems(TokenItems(tokens)), res, []), tokens);
    }
  }

  lemma {:induction false} TokenMapHolds(tokens: seq<(string, string)>, i: nat)
    requires forall i, j :: 0 <= i < j < |tokens| ==> tokens[i].0 != tokens[j].0
    requires i < |tokens|
    ensures tokens[i].0 in TokenMap(tokens) && TokenMap(tokens)[tokens[i].0] == tokens[i].1
  {
    if i > 0 {
      TokenMapHolds(tokens[1..], i - 1);
    }
  }

  // ---- parameters with and without a main one ----

  function ItemsOf(main: Option<string>, tokens: seq<(string, string)>): seq<Item> {
    (if main.Some? then [Item("", main.value)] else []) + TokenItems(tokens)
  }

  function MainMap(meta: CommandMeta, main: Option<string>): Params {
    if meta.main.Some? && main.Some? then map[meta.main.value := main.value] else map[]
  }

  // The parameters fit the command: a main value exactly if it takes one, and
  // declared, distinct, printable names.
  predicate ArgumentsOk(meta: CommandMeta, main: Option<string>, tokens: seq<(string, string)>) {
    && (main.Some? <==> meta.main.Some?)
    && TokensOk(meta, tokens)
    && (forall i :: 0 <= i < |tokens| ==> Some(tokens[i].0) != meta.main)
  }

  lemma ItemsOfShape(main: Option<string>, tokens: seq<(string, string)>)
    requires forall i :: 0 <= i < |tokens| ==> NameOk(tokens[i].0)
    ensures |ItemsOf(main, tokens)| == |tokens| + if main.Some? then 1 else 0
    ensures forall i :: i in ItemsOf(main, tokens) ==> PlainPrefix(i.prefix)
    ensures main.Some? ==> ItemsOf(main, tokens)[1..] == TokenItems(tokens)
    ensures main.None? ==> ItemsOf(main, tokens) == TokenItems(tokens)
    ensures OnlyLastEndsInBackslash(ItemsOf(main, tokens)) <==>
      OnlyLastEndsInBackslash(TokenItems(tokens)) && (main.Some? && tokens != [] ==> !EndsInBackslash(main.value))
  {
    TokenItemsShape(tokens);
    var items, rest := ItemsOf(main, tokens), TokenItems(tokens);
    if main.Some? {
      assert forall i :: 0 <= i < |rest| ==> rest[i] == items[i + 1];
      assert items[0].value == main.value;
    }
  }

  lemma MainReadsBack(meta: CommandMeta, main: string, tokens: seq<(string, string)>)
    requires meta.main.Some? && ArgumentsOk(meta, Some(main), tokens)
    ensures var (parsed, tail) := ParseMain(meta, PrintItems(ItemsOf(Some(main), tokens)));
            && (tokens == [] || !EndsInBackslash(main) ==>
                  parsed == Good(map[meta.main.value := main], []) && tail == PrintItems(TokenItems(tokens)))
            && (tokens != [] && EndsInBackslash(main) && parsed.Good? ==>
                  meta.main.value in parsed.params && parsed.params[meta.main.value] != main)
  {
    var items := ItemsOf(Some(main), tokens);
    ItemsOfShape(Some(main), tokens);
    FirstItemSplits(items);
    QuotedReadsBack(main);
    assert items[0].Text() == Quote(main);
    if tokens != [] && EndsInBackslash(main) {
      var more :| more != "" && FirstWord(PrintItems(items)).0 == Quote(main) + more;
      SwallowedReadsWrong(main, more);
    }
  }

  // Once a readable main value is off, the token loop and the questions decide.
  lemma TokensDecide(meta: CommandMeta, main: Option<string>, tokens: seq<(string, string)>, answers: nat -> Answer)
    requires ArgumentsOk(meta, main, tokens) && (main.Some? ==> tokens == [] || !EndsInBackslash(main.value))
    ensures ParseParams(meta, PrintItems(ItemsOf(main, tokens)), answers)
            == match ParseTokens(meta, PrintItems(TokenItems(tokens)), MainMap(meta, main), [])
               case Bad(error) => Rejected(error)
               case Good(res, deferred) => Accepted(AskAll(res, deferred, answers))
  {
    ItemsOfShape(main, tokens);
    if main.Some? {
      MainReadsBack(meta, main.value, tokens);
    }
  }

  lemma ParamsReadBack(meta: CommandMeta, main: Option<string>, tokens: seq<(string, string)>, answers: nat -> Answer)
    requires ArgumentsOk(meta, main, tokens) && OnlyLastEndsInBackslash(ItemsOf(main, tokens))
    ensures ParseParams(meta, PrintItems(ItemsOf(main, tokens)), answers)
            == Accepted(MainMap(meta, main) + TokenMap(tokens))
  {
    ItemsOfShape(main, tokens);
    TokensDecide(meta, main, tokens, answers);
    PrintedTokensParse(meta, tokens, MainMap(meta, main));
  }

  lemma MainReadsWrong(meta: CommandMeta, main: string, tokens: seq<(string, string)>, answers: nat -> Answer)
    requires meta.main.Some? && ArgumentsOk(meta, Some(main), tokens) && tokens != [] && EndsInBackslash(main)
    ensures var out := ParseParams(meta, PrintItems(ItemsOf(Some(main), tokens)), answers);
            out.Accepted? ==> meta.main.value in out.params && out.params[meta.main.value] != main
  {
    MainReadsBack(meta, main, tokens);
    var (parsed, tail) := ParseMain(meta, PrintItems(ItemsOf(Some(main), tokens)));
    if parsed.Good? {
      LoopKeepsValues(meta, tail, parsed.params, [], meta.main.value);
      var out := ParseTokens(meta, tail, parsed.params, []);
      if out.Good? {
        AskAllKeys(out.params, out.deferred, answers);
      }
    }
  }

  lemma WrongStaysWrong(out: Parsed, tokens: seq<(string, string)>, first: Params, answers: nat -> Answer)
    requires out.Good? && Wrong(out, tokens)
    requires forall i, j :: 0 <= i < j < |tokens| ==> tokens[i].0 != tokens[j].0
    ensures AskAll(out.params, out.deferred, answers) != first + TokenMap(tokens)
  {
    var i :| 0 <= i < |tokens| && tokens[i].0 in out.params
             && out.params[tokens[i].0] != tokens[i].1 && tokens[i].0 !in out.deferred;
    AskAllKeys(out.params, out.deferred, answers);
    TokenMapHolds(tokens, i);
    assert (first + TokenMap(tokens))[tokens[i].0] == tokens[i].1;
  }

  lemma MainIsMapped(meta: CommandMeta, main: string, tokens: seq<(string, string)>)
    requires ArgumentsOk(meta, Some(main), tokens)
    ensures (MainMap(meta, Some(main)) + TokenMap(tokens))[meta.main.value] == main
  {
    TokenMapKeys(tokens);
  }

  lemma TokensReadWrong(meta: CommandMeta, main: Option<string>, tokens: seq<(string, string)>, answers: nat -> Answer)
    requires ArgumentsOk(meta, main, tokens) && !OnlyLastEndsInBackslash(TokenItems(tokens))
    requires main.Some? ==> !EndsInBackslash(main.value)
    ensures ParseParams(meta, PrintItems(ItemsOf(main, tokens)), answers)
            != Accepted(MainMap(meta, main) + TokenMap(tokens))
  {
    TokensDecide(meta, main, tokens, answers);
    SwallowingTokensAreWrong(meta, tokens, MainMap(meta, main));
    var out := ParseTokens(meta, PrintItems(TokenItems(tokens)), MainMap(meta, main), []);
    if out.Good? {
      WrongStaysWrong(out, tokens, MainMap(meta, main), answers);
    }
  }

  lemma ParamsReadWrong(meta: CommandMeta, main: Option<string>, tokens: seq<(string, string)>, answers: nat -> Answer)
    requires ArgumentsOk(meta, main, tokens) && !OnlyLastEndsInBackslash(ItemsOf(main, tokens))
    ensures ParseParams(meta, PrintItems(ItemsOf(main, tokens)), answers)
            != Accepted(MainMap(meta, main) + TokenMap(tokens))
  {
    ItemsOfShape(main, tokens);
    if main.Some? && tokens != [] && EndsInBackslash(main.value) {
      MainReadsWrong(meta, main.value, tokens, answers);
      MainIsMapped(meta, main.value, tokens);
    } else {
      TokensReadWrong(meta, main, tokens, answers);
    }
  }

  // ---- whole lines ----

  datatype Invocation = Invocation(
    inGroup: Option<string>, command: string, main: Option<string>, tokens: seq<(string, string)>)

  function PrintArguments(inv: Invocation): string {
    var items := ItemsOf(inv.main, inv.tokens);
    if items == [] then "" else " " + PrintItems(items)
  }

  function PrintLine(inv: Invocation): string {
    (if inv.inGroup.Some? then inv.inGroup.value + " " else "") + inv.command + PrintArguments(inv)
  }

  predicate Word(s: string) { s != "" && Plain(s) && s != "help" }

  // The invocation names a command of the registry and gives it fitting parameters.
  predicate Registered(reg: Registry, inv: Invocation) {
    && Word(inv.command)
    && match inv.inGroup
       case Some(group) =>
         Word(group) && group in reg.groups && inv.command in reg.groups[group]
         && ArgumentsOk(reg.groups[group][inv.command], inv.main, inv.tokens)
       case None =>
         inv.command !in reg.groups && inv.command in reg.commands
         && ArgumentsOk(reg.commands[inv.command], inv.main, inv.tokens)
  }

  function MetaOf(reg: Registry, inv: Invocation): CommandMeta
    requires Registered(reg, inv)
  {
    if inv.inGroup.Some? then reg.groups[inv.inGroup.value][inv.command] else reg.commands[inv.command]
  }

  function Meaning(reg: Registry, inv: Invocation): Dispatch
    requires Registered(reg, inv)
  {
    Invoke(inv.inGroup, inv.command, MainMap(MetaOf(reg, inv), inv.main) + TokenMap(inv.tokens))
  }

  lemma PlainWordSplits(word: string, rest: string)
    requires word != "" && Plain(word) && Tidy(rest)
    ensures FirstWord(word + if rest == "" then "" else " " + rest) == (word, rest)
  {
    var after := if rest == "" then "" else " " + rest;
    PlainPassesThrough(word, after, false);
    SpaceEndsWord(rest);
    WordIsCut(word, after, 0);
    assert word + "" == word;
  }

  lemma QuotedIsNotHelp(item: Item, word: string)
    requires word == item.Text() || exists more :: word == item.Text() + more
    ensures word != "help"
  {
    var text := item.Text();
    var i := |text| - 1;
    assert text[i] == '"' && word[i] == '"';
    assert '"' in word && '"' !in "help";
  }

  lemma FirstItemIsNotHelp(items: seq<Item>)
    requires items != [] && forall i :: i in items ==> PlainPrefix(i.prefix)
    ensures FirstWord(PrintItems(items)).0 != "help"
  {
    FirstItemSplits(items);
    QuotedIsNotHelp(items[0], FirstWord(PrintItems(items)).0);
  }

  lemma ArgumentsAreNotHelp(meta: CommandMeta, main: Option<string>, tokens: seq<(string, string)>)
    requires ArgumentsOk(meta, main, tokens)
    ensures Tidy(PrintItems(ItemsOf(main, tokens)))
    ensures PrintItems(ItemsOf(main, tokens)) == "" <==> ItemsOf(main, tokens) == []
    ensures FirstWord(PrintItems(ItemsOf(main, tokens))).0 != "help"
  {
    var items := ItemsOf(main, tokens);
    ItemsOfShape(main, tokens);
    PrintItemsTidy(items);
    if items == [] {
      assert FirstWord("").0 == "";
    } else {
      FirstItemIsNotHelp(items);
    }
  }

  lemma CommandSplits(command: string, args: string)
    requires Word(command) && Tidy(args)
    ensures var line := command + if args == "" then "" else " " + args;
            line != "" && Tidy(line) && FirstWord(line) == (command, args)
  {
    PlainWordSplits(command, args);
    var line := command + if args == "" then "" else " " + args;
    assert line[|line| - 1] == if args == "" then command[|command| - 1] else args[|args| - 1];
  }

  lemma LineShape(inv: Invocation)
    ensures var args := PrintItems(ItemsOf(inv.main, inv.tokens));
            (args == "" <==> ItemsOf(inv.main, inv.tokens) == []) ==>
              var rest := inv.command + if args == "" then "" else " " + args;
              PrintLine(inv) == if inv.inGroup.Some? then inv.inGroup.value + (" " + rest) else rest
  {
    if inv.inGroup.Some? {
      assert PrintLine(inv) == inv.inGroup.value + (" " + (inv.command + PrintArguments(inv)));
    } else {
      assert PrintLine(inv) == inv.command + PrintArguments(inv);
    }
  }

  // A printed line reaches its command with its printed arguments.
  lemma PrintedLineDispatches(reg: Registry, inv: Invocation, answers: nat -> Answer)
    requires Registered(reg, inv)
    ensures Execute(reg, PrintLine(inv), answers)
            == ExecuteCommand(inv.inGroup, inv.command, MetaOf(reg, inv),
                              PrintItems(ItemsOf(inv.main, inv.tokens)), answers)
  {
    var args := PrintItems(ItemsOf(inv.main, inv.tokens));
    ArgumentsAreNotHelp(MetaOf(reg, inv), inv.main, inv.tokens);
    LineShape(inv);
    CommandSplits(inv.command, args);
    if inv.inGroup.Some? {
      CommandSplits(inv.inGroup.value, inv.command + if args == "" then "" else " " + args);
    }
  }

  // Executing the printed line dispatches to the command with exactly the
  // given parameters if and only if no value before the last ends in a
  // backslash.
  lemma ExecutingPrintedLine(reg: Registry, inv: Invocation, answers: nat -> Answer)
    requires Registered(reg, inv)
    ensures Execute(reg, PrintLine(inv), answers) == Meaning(reg, inv)
            <==> OnlyLastEndsInBackslash(ItemsOf(inv.main, inv.tokens))
  {
    var meta := MetaOf(reg, inv);
    PrintedLineDispatches(reg, inv, answers);
    ArgumentsAreNotHelp(meta, inv.main, inv.tokens);
    if OnlyLastEndsInBackslash(ItemsOf(inv.main, inv.tokens)) {
      ParamsReadBack(meta, inv.main, inv.tokens, answers);
    } else {
      ParamsReadWrong(meta, inv.main, inv.tokens, answers);
    }
  }
}
