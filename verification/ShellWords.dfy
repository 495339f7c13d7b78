/**
 Shell quoting and word splitting as the env file uses them: shlex.quote and shlex.split,
 which follow the quoting rules of section 2.2 of the POSIX Shell Command
 Language. */
module ShellWords {
  import opened PyText

  datatype Words = Words(words: seq<string>) | NoClosingQuotation | NoEscapedCharacter

  predicate IsSafe(c: char) {
    IsAsciiAlnum(c) || c == '_' || c == '@' || c == '%' || c == '+' || c == '=' || c == ':' || c == ',' || c == '.'
    || c == '/' || c == '-'
  }

  /** Every single quote inside single quotes is written as '"'"'. */
  function Escaped(v: string): (r: string) {
    if v == "" then "" else EscapedChar(v[0]) + Escaped(v[1..])
  }

  function Quote(v: string): (r: string) {
    if v == "" then "''"
    else if forall c :: c in v ==> IsSafe(c) then v
    else "'" + Escaped(v) + "'"
  }

  /** Where the splitter is: between words, in a word, in quotes, or after a backslash. */
  datatype Place = Blank | Word | Single | Double | AfterBackslash(quoted: bool)

  predicate IsBlank(c: char) {
    c == ' ' || c == '\t' || c == '\r' || c == '\n'
  }

  function Emit(token: string, quoted: bool, rest: Words): (r: Words) {
    if rest.Words? && (token != "" || quoted) then Words([token] + rest.words) else rest
  }

  /** The splitter's state machine, one character at a time. */
  function Lex(s: string, at: Place, token: string, quoted: bool): (r: Words)
    decreases |s|
  {
    if s == "" then
      match at
      case Blank => Words([])
      case Word => Emit(token, quoted, Words([]))
      case AfterBackslash(_) => NoEscapedCharacter
      case _ => NoClosingQuotation
    else
      var c, rest := s[0], s[1..];
      match at
      case Blank =>
        if IsBlank(c) then Lex(rest, Blank, token, quoted)
        else if c == '\\' then Lex(rest, AfterBackslash(false), token, quoted)
        else if c == '\'' then Lex(rest, Single, token, quoted)
        else if c == '"' then Lex(rest, Double, token, quoted)
        else Lex(rest, Word, [c], quoted)
      case Word =>
        if IsBlank(c) then Emit(token, quoted, Lex(rest, Blank, "", false))
        else if c == '\\' then Lex(rest, AfterBackslash(false), token, quoted)
        else if c == '\'' then Lex(rest, Single, token, quoted)
        else if c == '"' then Lex(rest, Double, token, quoted)
        else Lex(rest, Word, token + [c], quoted)
      case Single =>
        if c == '\'' then Lex(rest, Word, token, true)
        else Lex(rest, Single, token + [c], true)
      case Double =>
        if c == '"' then Lex(rest, Word, token, true)
        else if c == '\\' then Lex(rest, AfterBackslash(true), token, true)
        else Lex(rest, Double, token + [c], true)
      case AfterBackslash(inQuotes) =>
        if inQuotes then Lex(rest, Double, token + (if c == '\\' || c == '"' then [c] else ['\\', c]), quoted)
        else Lex(rest, Word, token + [c], quoted)
  }

  function Split(s: string): (r: Words) {
    Lex(s, Blank, "", false)
  }

  lemma {:induction false} EscapedAppend(a: string, b: string)
    ensures Escaped(a + b) == Escaped(a) + Escaped(b)
  {
    hide EscapedChar, Escaped;
    if a == "" {
      EscapedNothing();
      assert a + b == b;
    } else {
      EscapedAppend(a[1..], b);
      EscapedCons(a[0], a[1..] + b);
      EscapedCons(a[0], a[1..]);
      Associate([a[0]], a[1..], b);
      Associate(EscapedChar(a[0]), Escaped(a[1..]), Escaped(b));
      assert a == [a[0]] + a[1..];
    }
  }

  lemma EscapedNothing()
    ensures Escaped("") == ""
  {
  }

  lemma Associate(a: string, b: string, c: string)
    ensures a + b + c == a + (b + c)
  {
  }

  function EscapedChar(c: char): (r: string) {
    if c == '\'' then "'\"'\"'" else [c]
  }

  lemma EscapedCons(c: char, rest: string)
    ensures Escaped([c] + rest) == EscapedChar(c) + Escaped(rest)
  {
    assert ([c] + rest)[1..] == rest;
  }

  /** Between single quotes, an escaped text adds exactly itself to the word. */
  lemma {:induction false} LexEscaped(v: string, tail: string, token: string)
    ensures Lex(Escaped(v) + tail, Single, token, true) == Lex(tail, Single, token + v, true)
    decreases |v|
  {
    if v == "" {
      assert Escaped(v) + tail == tail && token + v == token;
    } else {
      var rest := Escaped(v[1..]) + tail;
      LexEscaped(v[1..], tail, token + [v[0]]);
      assert token + [v[0]] + v[1..] == token + v;
      if v[0] == '\'' {
        LexQuotedQuote(rest, token);
        assert Escaped(v) + tail == "'\"'\"'" + rest;
      } else {
        assert Escaped(v) + tail == [v[0]] + rest;
        assert ([v[0]] + rest)[1..] == rest;
      }
    }
  }

  /** The five characters that stand for a single quote inside single quotes. */
  lemma LexQuotedQuote(rest: string, token: string)
    ensures Lex("'\"'\"'" + rest, Single, token, true) == Lex(rest, Single, token + "'", true)
  {
    var s := "'\"'\"'" + rest;
    assert s[1..] == "\"'\"'" + rest;
    assert s[1..][1..] == "'\"'" + rest;
    assert s[1..][1..][1..] == "\"'" + rest;
    assert s[1..][1..][1..][1..] == "'" + rest;
    assert s[1..][1..][1..][1..][1..] == rest;
    assert Lex(s, Single, token, true) == Lex("\"'\"'" + rest, Word, token, true);
    assert Lex("\"'\"'" + rest, Word, token, true) == Lex("'\"'" + rest, Double, token, true);
    assert Lex("'\"'" + rest, Double, token, true) == Lex("\"'" + rest, Double, token + "'", true);
    assert Lex("\"'" + rest, Double, token + "'", true) == Lex("'" + rest, Word, token + "'", true);
  }

  lemma {:induction false} LexSafe(v: string, token: string)
    requires forall c :: c in v ==> IsSafe(c)
    ensures Lex(v, Word, token, false) == Emit(token + v, false, Words([]))
    decreases |v|
  {
    if v == "" {
      assert token + v == token;
    } else {
      assert IsSafe(v[0]);
      LexSafe(v[1..], token + [v[0]]);
      assert token + [v[0]] + v[1..] == token + v;
    }
  }

  /** The text after an opening quote starts the same way whether or not anything was quoted before. */
  lemma LexOpened(s: string)
    ensures Split("'" + s) == Lex(s, Single, "", true)
  {
    assert ("'" + s)[1..] == s;
    assert Lex("'" + s, Blank, "", false) == Lex(s, Single, "", false);
    if s != "" {
      assert Lex(s, Single, "", false) == Lex(s, Single, "", true);
    }
  }

  lemma SplitOfSafe(v: string)
    requires v != "" && forall c :: c in v ==> IsSafe(c)
    ensures Split(v) == Words([v])
  {
    assert IsSafe(v[0]);
    LexSafe(v[1..], [v[0]]);
    assert [v[0]] + v[1..] == v;
  }

  lemma SplitOfEscaped(v: string)
    ensures Split("'" + Escaped(v) + "'") == Words([v])
  {
    assert "'" + (Escaped(v) + "'") == "'" + Escaped(v) + "'";
    LexOpened(Escaped(v) + "'");
    LexEscaped(v, "'", "");
    assert "" + v == v;
    assert Lex("'", Single, v, true) == Lex("", Word, v, true);
  }

  /** Splitting a quoted value gives back exactly that value as one word. */
  lemma SplitOfQuote(v: string)
    ensures Split(Quote(v)) == Words([v])
  {
    hide Lex, Split, IsSafe;
    SplitOfEscaped(v);
    if v != "" && forall c :: c in v ==> IsSafe(c) {
      SplitOfSafe(v);
    } else if v == "" {
      assert "'" + "" + "'" == "''";
    }
  }

  /** Cut off before its closing quote, a quoted value cannot be split. */
  lemma SplitOfUnclosed(v: string)
    ensures Split("'" + Escaped(v)) == NoClosingQuotation
  {
    LexOpened(Escaped(v));
    assert Escaped(v) + "" == Escaped(v);
    LexEscaped(v, "", "");
  }

  // ----------------------------------------------------- the rules of splitting

  /** A value is written without quotes exactly when all its characters are safe and there is one. */
  lemma QuoteIsPlain(v: string)
    ensures Quote(v) == v <==>
            v != "" && forall c :: c in v ==> 'a' <= c <= 'z' || 'A' <= c <= 'Z' || '0' <= c <= '9' || c in "_@%+=:,./-"
    ensures Quote(v) != v ==> |Quote(v)| >= 2 && Quote(v)[0] == Quote(v)[|Quote(v)| - 1] == '\''
  {
    EscapedGrows(v);
    assert forall c :: IsSafe(c) <==>
                       'a' <= c <= 'z' || 'A' <= c <= 'Z' || '0' <= c <= '9' || c in "_@%+=:,./-";
  }

  lemma {:induction false} EscapedGrows(v: string)
    ensures |Escaped(v)| >= |v|
  {
    if v != "" {
      EscapedGrows(v[1..]);
    }
  }

  predicate IsPlain(c: char) {
    c !in [' ', '\t', '\r', '\n', '\\', '\'', '"']
  }

  /** A blank ends a word, and blanks before a word are skipped. */
  lemma SplitAtBlank(w: string, blank: char, rest: string)
    requires All(w, IsPlain) && blank in [' ', '\t', '\r', '\n']
    ensures Split([blank] + rest) == Split(rest)
    ensures w != "" ==> Split(w) == Words([w])
    ensures w != "" ==> Split(w + [blank] + rest)
                        == match Split(rest) case Words(words) => Words([w] + words) case other => other
  {
    assert ([blank] + rest)[1..] == rest;
    if w != "" {
      LexPlain(w[1..], [blank] + rest, [w[0]]);
      LexPlain(w[1..], "", [w[0]]);
      assert [w[0]] + w[1..] == w && w[1..] + "" == w[1..];
      assert (w + [blank] + rest)[1..] == w[1..] + ([blank] + rest);
    }
  }

  lemma {:induction false} LexPlain(w: string, tail: string, token: string)
    requires All(w, IsPlain)
    ensures Lex(w + tail, Word, token, false) == Lex(tail, Word, token + w, false)
    decreases |w|
  {
    if w == "" {
      assert w + tail == tail && token + w == token;
    } else {
      assert (w + tail)[1..] == w[1..] + tail;
      LexPlain(w[1..], tail, token + [w[0]]);
      assert token + [w[0]] + w[1..] == token + w;
    }
  }

  /** Between double quotes a backslash stands before a backslash and a double quote. */
  ghost function DoubleEscaped(v: string): (r: string) {
    if v == "" then "" else (if v[0] == '\\' || v[0] == '"' then ['\\', v[0]] else [v[0]]) + DoubleEscaped(v[1..])
  }

  lemma {:induction false} LexDouble(v: string, tail: string, token: string)
    ensures Lex(DoubleEscaped(v) + tail, Double, token, true) == Lex(tail, Double, token + v, true)
    decreases |v|
  {
    if v == "" {
      assert DoubleEscaped(v) + tail == tail && token + v == token;
    } else {
      var rest := DoubleEscaped(v[1..]) + tail;
      LexDouble(v[1..], tail, token + [v[0]]);
      assert token + [v[0]] + v[1..] == token + v;
      if v[0] == '\\' || v[0] == '"' {
        assert DoubleEscaped(v) + tail == ['\\', v[0]] + rest;
        LexPair(v[0], rest, token);
      } else {
        assert DoubleEscaped(v) + tail == [v[0]] + rest;
        assert ([v[0]] + rest)[1..] == rest;
      }
    }
  }

  /** Between double quotes a backslash goes away before a backslash or a double quote, and stays before the rest. */
  lemma LexPair(c: char, rest: string, token: string)
    ensures Lex(['\\', c] + rest, Double, token, true)
            == Lex(rest, Double, if c == '\\' || c == '"' then token + [c] else token + ['\\', c], true)
  {
    var s := ['\\', c] + rest;
    assert s[1..] == [c] + rest && ([c] + rest)[1..] == rest;
    assert Lex(s, Double, token, true) == Lex([c] + rest, AfterBackslash(true), token, true);
  }

  /** A text in double quotes is one word, and so is one whose every character follows a backslash. */
  lemma SplitOfDoubleQuoted(v: string)
    ensures Split("\"" + DoubleEscaped(v) + "\"") == Words([v])
    ensures Split("\"" + DoubleEscaped(v)) == NoClosingQuotation
    ensures v != "" ==> Split(Backslashed(v)) == Words([v])
    ensures Split(Backslashed(v) + "\\") == NoEscapedCharacter
  {
    hide Lex;
    DoubleOpened(DoubleEscaped(v) + "\"");
    DoubleOpened(DoubleEscaped(v));
    assert "\"" + (DoubleEscaped(v) + "\"") == "\"" + DoubleEscaped(v) + "\"" && "" + v == v;
    assert DoubleEscaped(v) + "" == DoubleEscaped(v) && Backslashed(v) + "" == Backslashed(v);
    LexDouble(v, "\"", "");
    LexDouble(v, "", "");
    LexBackslashed(v, "", "", Blank);
    LexBackslashed(v, "\\", "", Blank);
    LexEnds(v);
  }

  lemma DoubleOpened(s: string)
    ensures Split("\"" + s) == Lex(s, Double, "", true)
  {
    assert ("\"" + s)[1..] == s;
    assert Lex("\"" + s, Blank, "", false) == Lex(s, Double, "", false);
    if s != "" {
      assert Lex(s, Double, "", false) == Lex(s, Double, "", true);
    }
  }

  lemma LexEnds(v: string)
    ensures Lex("\"", Double, v, true) == Words([v]) && Lex("", Double, v, true) == NoClosingQuotation
    ensures v != "" ==> Lex("", Word, v, false) == Words([v])
    ensures Lex("\\", Word, v, false) == NoEscapedCharacter && Lex("\\", Blank, v, false) == NoEscapedCharacter
  {
    assert Lex("\"", Double, v, true) == Lex("", Word, v, true);
    assert "\\"[1..] == "";
    assert Lex("", AfterBackslash(false), v, false) == NoEscapedCharacter;
  }

  ghost function Backslashed(v: string): (r: string) {
    if v == "" then "" else ['\\', v[0]] + Backslashed(v[1..])
  }

  lemma {:induction false} LexBackslashed(v: string, tail: string, token: string, at: Place)
    requires at == Word || at == Blank
    ensures Lex(Backslashed(v) + tail, at, token, false)
            == Lex(tail, if v == "" then at else Word, token + v, false)
    decreases |v|
  {
    if v == "" {
      assert Backslashed(v) + tail == tail && token + v == token;
    } else {
      var rest := Backslashed(v[1..]) + tail;
      LexBackslashed(v[1..], tail, token + [v[0]], Word);
      assert token + [v[0]] + v[1..] == token + v;
      assert Backslashed(v) + tail == ['\\', v[0]] + rest;
      LexEscape(v[0], rest, token, at);
    }
  }

  lemma LexEscape(c: char, rest: string, token: string, at: Place)
    requires at == Word || at == Blank
    ensures Lex(['\\', c] + rest, at, token, false) == Lex(rest, Word, token + [c], false)
  {
    var s := ['\\', c] + rest;
    assert s[0] == '\\' && s[1..] == [c] + rest && ([c] + rest)[1..] == rest;
    assert Lex(s, at, token, false) == Lex([c] + rest, AfterBackslash(false), token, false);
  }
}
