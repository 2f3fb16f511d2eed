// The word splitter of the command line. A quotation mark not preceded by a
// backslash turns "whitespace is part of the word" on and off.
module CommandWords {

  // char::is_whitespace: the Unicode White_Space property.
  predicate IsWhitespace(c: char) {
    var n := c as int;
    || 0x09 <= n <= 0x0D || n == 0x20 || n == 0x85 || n == 0xA0 || n == 0x1680
    || 0x2000 <= n <= 0x200A || n == 0x2028 || n == 0x2029 || n == 0x202F || n == 0x205F || n == 0x3000
  }

  // Its 25 characters.
  const WHITESPACE: set<int> := {
    9, 10, 11, 12, 13, 32, 133, 160, 5760, 8192, 8193, 8194, 8195, 8196, 8197, 8198, 8199, 8200, 8201, 8202,
    8232, 8233, 8239, 8287, 12288}

  lemma WhitespaceIsListed(c: char)
    ensures IsWhitespace(c) <==> c as int in WHITESPACE
  {
  }

  function TrimLeft(s: string): string {
    if s != "" && IsWhitespace(s[0]) then TrimLeft(s[1..]) else s
  }

  function TrimRight(s: string): string {
    if s != "" && IsWhitespace(s[|s| - 1]) then TrimRight(s[..|s| - 1]) else s
  }

  function Trim(s: string): string { TrimRight(TrimLeft(s)) }

  // Neither end is whitespace.
  predicate Tidy(s: string) {
    s == "" || (!IsWhitespace(s[0]) && !IsWhitespace(s[|s| - 1]))
  }

  // How many characters come before the whitespace that ends the word.
  function WordEnd(s: string, quoteEscape: bool, spaceEscape: bool): (n: nat)
    ensures n <= |s|
  {
    if s == "" || (IsWhitespace(s[0]) && !spaceEscape) then 0
    else 1 + WordEnd(s[1..], s[0] == '\\', if !quoteEscape && s[0] == '"' then !spaceEscape else spaceEscape)
  }

  function FirstWord(s: string): (string, string) {
    var t := Trim(s);
    var n := WordEnd(t, false, false);
    (t[..n], TrimLeft(t[n..]))
  }

  method SplitFirstWord(s: string) returns (word: string, tail: string)
    ensures (word, tail) == FirstWord(s)
  {
    var isQuoteEscape, isWhitespaceEscape := false, false;
    var t := Trim(s);
    for pos := 0 to |t|
      invariant WordEnd(t, false, false) == pos + WordEnd(t[pos..], isQuoteEscape, isWhitespaceEscape)
    {
      var ch := t[pos];
      assert t[pos..][0] == ch && t[pos..][1..] == t[pos + 1..];
      if IsWhitespace(ch) && !isWhitespaceEscape {
        return t[..pos], TrimLeft(t[pos..]);
      }
      if !isQuoteEscape && ch == '"' {
        isWhitespaceEscape := !isWhitespaceEscape;
      }
      isQuoteEscape := ch == '\\';
    }
    assert t[..|t|] == t && t[|t|..] == "";
    return t, "";
  }

  // ---- trimming ----

  lemma {:induction false} TrimLeftShrinks(s: string)
    ensures |TrimLeft(s)| <= |s| && TrimLeft(s) == s[|s| - |TrimLeft(s)|..]
    ensures TrimLeft(s) != "" ==> !IsWhitespace(TrimLeft(s)[0])
  {
    if s != "" && IsWhitespace(s[0]) {
      TrimLeftShrinks(s[1..]);
    }
  }

  lemma {:induction false} TrimRightShrinks(s: string)
    ensures |TrimRight(s)| <= |s| && TrimRight(s) == s[..|TrimRight(s)|]
    ensures TrimRight(s) != "" ==> !IsWhitespace(TrimRight(s)[|TrimRight(s)| - 1])
  {
    if s != "" && IsWhitespace(s[|s| - 1]) {
      TrimRightShrinks(s[..|s| - 1]);
    }
  }

  lemma TrimTidies(s: string)
    ensures Tidy(Trim(s)) && |Trim(s)| <= |s|
    ensures Tidy(s) ==> Trim(s) == s
  {
    TrimLeftShrinks(s);
    TrimRightShrinks(TrimLeft(s));
  }

  // What follows a word has no whitespace left at either end.
  lemma TailIsTidy(t: string, n: nat)
    requires Tidy(t) && n <= |t|
    ensures Tidy(TrimLeft(t[n..]))
  {
    TrimLeftShrinks(t[n..]);
  }

  // A non-empty word leaves a strictly shorter tail; an empty one leaves none.
  lemma SplitShrinks(s: string)
    ensures var (word, tail) := FirstWord(s);
            && (word == "" <==> Trim(s) == "")
            && (word == "" ==> tail == "")
            && (word != "" ==> |tail| < |s|)
            && Tidy(tail)
  {
    TrimTidies(s);
    var t := Trim(s);
    var n := WordEnd(t, false, false);
    TailIsTidy(t, n);
    TrimLeftShrinks(t[n..]);
  }

  // ---- restarting the flags at every word changes nothing ----

  // The words that repeated splitting of the tail gives.
  function Words(s: string): seq<string>
    decreases |s|
  {
    SplitShrinks(s);
    var (word, tail) := FirstWord(s);
    if word == "" then [] else [word] + Words(tail)
  }

  function Push(word: string): seq<string> { if word == "" then [] else [word] }

  // One pass over the whole line, the flags carried along throughout.
  function SinglePass(s: string, word: string, quoteEscape: bool, spaceEscape: bool): seq<string> {
    if s == "" then Push(word)
    else
      var q := s[0] == '\\';
      var w := if !quoteEscape && s[0] == '"' then !spaceEscape else spaceEscape;
      if IsWhitespace(s[0]) && !spaceEscape then Push(word) + SinglePass(s[1..], "", q, w)
      else SinglePass(s[1..], word + [s[0]], q, w)
  }

  lemma {:induction false} PassEndsWord(s: string, word: string, q: bool, w: bool)
    ensures var n := WordEnd(s, q, w);
            SinglePass(s, word, q, w) == Push(word + s[..n]) + SinglePass(s[n..], "", false, false)
  {
    if s == "" {
      assert word + s == word;
    } else if IsWhitespace(s[0]) && !w {
      assert s[0] != '\\' && s[0] != '"';
      assert word + s[..0] == word;
      assert s[0..] == s;
      assert SinglePass(s, "", false, false) == SinglePass(s[1..], "", false, false);
    } else {
      var w' := if !q && s[0] == '"' then !w else w;
      PassEndsWord(s[1..], word + [s[0]], s[0] == '\\', w');
      var m := WordEnd(s[1..], s[0] == '\\', w');
      assert word + [s[0]] + s[1..][..m] == word + s[..m + 1];
      assert s[1..][m..] == s[m + 1..];
    }
  }

  lemma {:induction false} PassSkipsSpace(s: string)
    ensures SinglePass(TrimLeft(s), "", false, false) == SinglePass(s, "", false, false)
  {
    if s != "" && IsWhitespace(s[0]) {
      PassSkipsSpace(s[1..]);
    }
  }

  // For every line, splitting word by word and one single pass agree.
  lemma {:induction false} WordsAreSinglePass(s: string)
    ensures Words(s) == SinglePass(Trim(s), "", false, false)
    decreases |s|
  {
    var t := Trim(s);
    var n := WordEnd(t, false, false);
    var (word, tail) := FirstWord(s);
    SplitShrinks(s);
    PassEndsWord(t, "", false, false);
    assert "" + t[..n] == t[..n];
    if word != "" {
      WordsAreSinglePass(tail);
      TrimTidies(tail);
      PassSkipsSpace(t[n..]);
    }
  }

  function Flatten(words: seq<string>): string {
    if words == [] then "" else words[0] + Flatten(words[1..])
  }

  // The line without the whitespace that is outside quotes.
  function Squeeze(s: string, quoteEscape: bool, spaceEscape: bool): string {
    if s == "" then ""
    else
      var w := if !quoteEscape && s[0] == '"' then !spaceEscape else spaceEscape;
      (if IsWhitespace(s[0]) && !spaceEscape then "" else [s[0]]) + Squeeze(s[1..], s[0] == '\\', w)
  }

  lemma {:induction false} PassKeepsText(s: string, word: string, q: bool, w: bool)
    ensures Flatten(SinglePass(s, word, q, w)) == word + Squeeze(s, q, w)
  {
    if s == "" {
      assert word + "" == word;
      assert [word][1..] == [];
    } else {
      var w' := if !q && s[0] == '"' then !w else w;
      if IsWhitespace(s[0]) && !w {
        PassKeepsText(s[1..], "", s[0] == '\\', w');
        if word != "" {
          assert ([word] + SinglePass(s[1..], "", s[0] == '\\', w'))[1..] == SinglePass(s[1..], "", s[0] == '\\', w');
        } else {
          assert [] + SinglePass(s[1..], "", s[0] == '\\', w') == SinglePass(s[1..], "", s[0] == '\\', w');
        }
      } else {
        PassKeepsText(s[1..], word + [s[0]], s[0] == '\\', w');
        assert word + [s[0]] + Squeeze(s[1..], s[0] == '\\', w') == word + ([s[0]] + Squeeze(s[1..], s[0] == '\\', w'));
      }
    }
  }

  // Splitting drops unquoted whitespace and nothing else.
  lemma WordsKeepText(s: string)
    ensures Flatten(Words(s)) == Squeeze(Trim(s), false, false)
  {
    WordsAreSinglePass(s);
    PassKeepsText(Trim(s), "", false, false);
  }
}
