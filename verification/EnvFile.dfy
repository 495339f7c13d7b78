/**
 The runtime env file (runtime_env.py): one `export KEY=VALUE` line per variable, the value
 shell-quoted, read back line by
 line. */
module EnvFile {
  import opened Seqs
  import opened PyText
  import opened ShellWords

  const EXPORT := "export "

  function Line(key: string, value: string): (r: string) {
    EXPORT + key + "=" + Quote(value)
  }

  /** The file for the variables in the given key order; the source takes the sorted one. */
  function Render(env: map<string, string>, keys: seq<string>): (text: string)
    requires forall k :: k in keys ==> k in env
  {
    if keys == [] then "" else Line(keys[0], env[keys[0]]) + "\n" + Render(env, keys[1..])
  }

  datatype Parsed = Skip | Entry(key: string, value: string) | BadLine(reason: Problem)

  datatype Problem = UnclosedQuote | DanglingEscape | NoWord

  datatype ReadResult = Env(data: map<string, string>) | Raised(reason: Problem)

  /** What the text after the first equals sign gives. */
  function ValueOf(key: string, value: string): (r: Parsed) {
    if value == "" then Entry(key, "")
    else
      match Split(value)
      case Words(words) => if words == [] then BadLine(NoWord) else Entry(key, words[0])
      case NoClosingQuotation => BadLine(UnclosedQuote)
      case NoEscapedCharacter => BadLine(DanglingEscape)
  }

  function ParseBody(body: string): (r: Parsed) {
    var i := IndexOf(body, '=');
    if i == |body| then Skip else ValueOf(body[..i], body[i + 1..])
  }

  /** What one line of the file says. */
  function ParseLine(raw: string): (r: Parsed) {
    var line := Strip(raw);
    if EXPORT <= line then ParseBody(line[|EXPORT|..]) else Skip
  }

  function ReadLines(lines: seq<string>, data: map<string, string>): (r: ReadResult)
    decreases |lines|
  {
    if lines == [] then Env(data)
    else
      match ParseLine(lines[0])
      case Skip => ReadLines(lines[1..], data)
      case Entry(k, v) => ReadLines(lines[1..], data[k := v])
      case BadLine(reason) => Raised(reason)
  }

  function Read(text: string): (r: ReadResult) {
    ReadLines(SplitLines(text), map[])
  }

  /** The reader as the source writes it: a loop that fills a dictionary. A missing file reads as empty. */
  method ReadRuntimeEnvFile(file: Option<string>) returns (r: ReadResult)
    ensures r == if file.None? then Env(map[]) else Read(file.value)
  {
    var data: map<string, string> := map[];
    if file.None? {
      return Env(data);
    }
    var lines := SplitLines(file.value);
    for i := 0 to |lines|
      invariant ReadLines(lines[i..], data) == Read(file.value)
    {
      assert lines[i..][0] == lines[i] && lines[i..][1..] == lines[i + 1..];
      match ParseLine(lines[i])
      case Skip =>
      case Entry(k, v) => data := data[k := v];
      case BadLine(reason) => return Raised(reason);
    }
    return Env(data);
  }

  predicate HasLineBreak(s: string) {
    exists c :: c in s && IsLineBreak(c)
  }

  predicate GoodKey(key: string) {
    '=' !in key && !HasLineBreak(key)
  }

  lemma {:induction false} EscapedChars(v: string)
    ensures forall c :: c in Escaped(v) ==> c in v || c == '\'' || c == '"'
  {
    if v != "" {
      EscapedChars(v[1..]);
    }
  }

  lemma QuoteChars(v: string)
    ensures Quote(v) != "" && !IsSpace(Quote(v)[|Quote(v)| - 1])
    ensures forall c :: c in Quote(v) ==> c in v || c == '\'' || c == '"'
  {
    EscapedChars(v);
    if v != "" && forall c :: c in v ==> IsSafe(c) {
      assert IsSafe(v[|v| - 1]);
    }
  }

  // --------------------------------------------------------------- one line

  /** A line that starts with a variable, up to where its value starts. */
  function Head(key: string): (r: string) {
    EXPORT + key + "="
  }

  lemma BodyOfAssignment(key: string, value: string)
    requires '=' !in key
    ensures ParseBody(key + "=" + value) == ValueOf(key, value)
  {
    hide ValueOf;
    var body := key + "=" + value;
    assert body[|key|] == '=';
    assert forall i :: 0 <= i < |key| ==> body[i] == key[i];
    assert IndexOf(body, '=') == |key|;
    assert body[..|key|] == key && body[|key| + 1..] == value;
  }

  lemma ParseOfAssignment(key: string, value: string)
    requires '=' !in key && value != "" && !IsSpace(value[|value| - 1])
    ensures ParseLine(Head(key) + value) == ValueOf(key, value)
  {
    hide ValueOf, ParseBody, Strip;
    var line := Head(key) + value;
    assert line[0] == 'e' && line[|line| - 1] == value[|value| - 1];
    StripNothing(line);
    BodyOfAssignment(key, value);
    assert line == EXPORT + (key + "=" + value);
    assert line[|EXPORT|..] == key + "=" + value;
  }

  lemma StripNothing(s: string)
    requires s != "" && !IsSpace(s[0]) && !IsSpace(s[|s| - 1])
    ensures Strip(s) == s
  {
    TrimFixpoint(s, IsSpace);
  }

  /** A written line is an assignment with the quoted value. */
  lemma LineIs(key: string, value: string)
    ensures Line(key, value) == "export " + key + "=" + Quote(value)
  {
    assert EXPORT == "export ";
  }

  /** White space around a line is ignored. A line that is no exported assignment says nothing; an exported one gives
      the first word of what follows its first equals sign. */
  lemma LineSays(left: string, line: string, right: string, key: string, value: string)
    requires All(left, IsSpace) && All(right, IsSpace)
    requires line == "" || (!IsSpace(line[0]) && !IsSpace(line[|line| - 1]))
    ensures !("export " <= line && '=' in line) ==> ParseLine(left + line + right) == Skip
    ensures line == "export " + key + "=" + value && '=' !in key ==>
              ParseLine(left + line + right)
              == if value == "" then Entry(key, "")
                 else match Split(value)
                   case Words(words) => if words == [] then BadLine(NoWord) else Entry(key, words[0])
                   case NoClosingQuotation => BadLine(UnclosedQuote)
                   case NoEscapedCharacter => BadLine(DanglingEscape)
  {
    hide Trim, Split;
    TrimIs(left, line, right, IsSpace);
    if line == "export " + key + "=" + value && '=' !in key {
      assert line == EXPORT + (key + "=" + value);
      BodyOfAssignment(key, value);
    }
    if EXPORT <= line {
      NoEquals(line);
    }
  }

  lemma NoEquals(line: string)
    requires EXPORT <= line
    ensures IndexOf(line[|EXPORT|..], '=') == |line| - |EXPORT| <==> '=' !in line
  {
    assert forall i :: 0 <= i < |EXPORT| ==> line[i] == EXPORT[i] != '=';
    var i := IndexOf(line[|EXPORT|..], '=');
    assert i < |line| - |EXPORT| ==> line[i + |EXPORT|] == '=';
    assert forall j :: |EXPORT| <= j < |line| ==> line[j] == line[|EXPORT|..][j - |EXPORT|];
  }

  lemma ParseOfLine(key: string, value: string)
    requires '=' !in key
    ensures ParseLine(Line(key, value)) == Entry(key, value)
  {
    QuoteChars(value);
    ParseOfAssignment(key, Quote(value));
    SplitOfQuote(value);
  }

  /** A line cut off inside the quotes of its value raises, however much white space stripping removes. */
  lemma {:induction false} ParseOfCutLine(key: string, value: string)
    requires '=' !in key
    ensures ParseLine(Head(key) + "'" + Escaped(value)) == BadLine(UnclosedQuote)
    decreases |value|
  {
    hide ParseBody, Split, Escaped, Strip;
    if value != "" && IsSpace(value[|value| - 1]) {
      var n := |value| - 1;
      ParseOfCutLine(key, value[..n]);
      var shorter := Head(key) + "'" + Escaped(value[..n]);
      EscapedSpace(value);
      assert Head(key) + "'" + Escaped(value) == shorter + [value[n]];
      assert shorter[0] == 'e';
      StripIgnoresTail(shorter, value[n]);
    } else {
      var rest := "'" + Escaped(value);
      assert Head(key) + "'" + Escaped(value) == Head(key) + rest;
      EscapedEnd(value);
      ParseOfAssignment(key, rest);
      SplitOfUnclosed(value);
    }
  }

  lemma EscapedSpace(value: string)
    requires value != "" && IsSpace(value[|value| - 1])
    ensures Escaped(value) == Escaped(value[..|value| - 1]) + [value[|value| - 1]]
  {
    hide IsSpace, IsLineBreak, IsSafe, Escaped;
    var front, last := value[..|value| - 1], value[|value| - 1];
    assert value == front + [last];
    EscapedAppend(front, [last]);
    EscapedOfPlain(last);
  }

  lemma EscapedOfPlain(c: char)
    ensures c != '\'' ==> Escaped([c]) == [c]
    ensures IsSpace(c) || IsLineBreak(c) ==> c != '\'' && !IsSafe(c)
  {
    assert [c][1..] == "";
  }

  lemma EscapedEnd(value: string)
    requires value == "" || !IsSpace(value[|value| - 1])
    ensures var rest := "'" + Escaped(value); !IsSpace(rest[|rest| - 1])
  {
    if value != "" {
      var n := |value| - 1;
      assert value == value[..n] + [value[n]];
      EscapedAppend(value[..n], [value[n]]);
      assert Escaped([value[n]]) == if value[n] == '\'' then "'\"'\"'" else [value[n]];
    }
  }

  lemma StripIgnoresTail(s: string, c: char)
    requires s != "" && !IsSpace(s[0]) && IsSpace(c)
    ensures Strip(s + [c]) == Strip(s)
  {
    assert Lead(s + [c], IsSpace) == 0 && Lead(s, IsSpace) == 0;
    assert (s + [c])[0..] == s + [c] && s[0..] == s;
    assert (s + [c])[..|s|] == s;
  }

  // ------------------------------------------------------------ the whole file

  lemma SplitOfLine(line: string, rest: string)
    requires !HasLineBreak(line)
    ensures SplitLines(line + "\n" + rest) == [line] + SplitLines(rest)
  {
    var s := line + "\n" + rest;
    assert forall i :: 0 <= i < |line| ==> s[i] == line[i] && s[i] in line;
    LineLengthUnique(s, |line|);
    assert s[..|line|] == line && s[|line| + 1..] == rest;
  }

  lemma LineHasNoBreak(key: string, value: string)
    requires GoodKey(key) && !HasLineBreak(value)
    ensures !HasLineBreak(Line(key, value))
  {
    QuoteChars(value);
    forall c | c in Line(key, value)
      ensures !IsLineBreak(c)
    {
      assert c in EXPORT || c in key || c == '=' || c in Quote(value);
      assert c in EXPORT ==> c in "export ";
    }
  }

  lemma FirstLine(first: string, c: char, more: string)
    requires !HasLineBreak(first) && IsLineBreak(c)
    ensures var lines := SplitLines(first + [c] + more); lines != [] && lines[0] == first
  {
    var s := first + [c] + more;
    assert s[|first|] == c;
    assert forall i :: 0 <= i < |first| ==> s[i] == first[i] && s[i] in first;
    LineLengthUnique(s, |first|);
    assert s[..|first|] == first;
  }

  lemma CutValue(value: string) returns (front: string, c: char, rest: string)
    requires HasLineBreak(value)
    ensures value == front + [c] + rest && IsLineBreak(c) && !HasLineBreak(front)
  {
    var n := LineLength(value);
    front, c, rest := value[..n], value[n], value[n + 1..];
  }

  lemma QuoteOfUnsafe(value: string, c: char)
    requires c in value && !IsSafe(c)
    ensures Quote(value) == "'" + Escaped(value) + "'"
  {
  }

  /** An entry whose value has a line break, cut at that break. */
  lemma CutText(key: string, value: string) returns (front: string, c: char, tail: string)
    requires HasLineBreak(value)
    ensures Line(key, value) == Head(key) + "'" + Escaped(front) + [c] + tail
    ensures IsLineBreak(c) && !HasLineBreak(front)
  {
    hide Escaped, HasLineBreak, IsLineBreak, IsSafe, Quote;
    var rest;
    front, c, rest := CutValue(value);
    EscapedOfPlain(c);
    QuoteOfUnsafe(value, c);
    EscapedAppend(front + [c], rest);
    EscapedAppend(front, [c]);
    tail := Escaped(rest) + "'";
    assert Escaped(value) == Escaped(front) + [c] + Escaped(rest);
  }

  lemma HeadHasNoBreak(key: string, front: string)
    requires GoodKey(key) && !HasLineBreak(front)
    ensures !HasLineBreak(Head(key) + "'" + Escaped(front))
  {
    EscapedChars(front);
    forall c | c in Head(key) + "'" + Escaped(front)
      ensures !IsLineBreak(c)
    {
      assert c in "export " || c in key || c == '=' || c == '\'' || c in Escaped(front);
    }
  }

  /** The first line of an entry whose value has a line break ends inside the value's quotes. */
  lemma CutLine(key: string, value: string, rest: string) returns (front: string)
    requires GoodKey(key) && HasLineBreak(value)
    ensures var lines := SplitLines(Line(key, value) + "\n" + rest);
            lines != [] && lines[0] == Head(key) + "'" + Escaped(front)
  {
    hide Line, Escaped, HasLineBreak, GoodKey, IsLineBreak, SplitLines, Head;
    var c, tail;
    front, c, tail := CutText(key, value);
    HeadHasNoBreak(key, front);
    var first := Head(key) + "'" + Escaped(front);
    FirstLine(first, c, tail + "\n" + rest);
    assert Line(key, value) + "\n" + rest == first + [c] + (tail + "\n" + rest);
  }

  ghost predicate Lists(keys: seq<string>, env: map<string, string>) {
    NoDup(keys) && forall k :: k in keys <==> k in env
  }

  /** The variables of `env` named in `keys`, on top of `data`. */
  ghost function Merged(data: map<string, string>, env: map<string, string>, keys: seq<string>)
    : (m: map<string, string>)
    requires forall k :: k in keys ==> k in env
  {
    map k | k in data.Keys + env.Keys && (k in keys || k in data) :: if k in keys then env[k] else data[k]
  }

  lemma MergedNothing(data: map<string, string>, env: map<string, string>)
    ensures Merged(data, env, []) == data
  {
  }

  lemma MergedFirst(data: map<string, string>, env: map<string, string>, keys: seq<string>)
    requires keys != [] && forall k :: k in keys ==> k in env
    ensures Merged(data[keys[0] := env[keys[0]]], env, keys[1..]) == Merged(data, env, keys)
  {
    assert keys == [keys[0]] + keys[1..];
  }

  lemma {:induction false} ReadOfRender(env: map<string, string>, keys: seq<string>, data: map<string, string>)
    requires forall k :: k in keys ==> k in env && GoodKey(k) && !HasLineBreak(env[k])
    ensures ReadLines(SplitLines(Render(env, keys)), data) == Env(Merged(data, env, keys))
    decreases |keys|
  {
    hide ParseLine, SplitLines, Line, HasLineBreak, Merged;
    if keys == [] {
      SplitNothing();
      MergedNothing(data, env);
    } else {
      var k, rest := keys[0], keys[1..];
      LineHasNoBreak(k, env[k]);
      SplitOfLine(Line(k, env[k]), Render(env, rest));
      ParseOfLine(k, env[k]);
      ReadOfRender(env, rest, data[k := env[k]]);
      MergedFirst(data, env, keys);
    }
  }

  lemma SplitNothing()
    ensures SplitLines("") == []
  {
  }

  lemma {:induction false} ReadOfBrokenRender(env: map<string, string>, keys: seq<string>, data: map<string, string>)
    requires forall k :: k in keys ==> k in env && GoodKey(k)
    requires exists k :: k in keys && HasLineBreak(env[k])
    ensures ReadLines(SplitLines(Render(env, keys)), data) == Raised(UnclosedQuote)
    decreases |keys|
  {
    hide ParseLine, SplitLines, Line, HasLineBreak;
    var k, rest := keys[0], keys[1..];
    assert keys == [k] + rest;
    if HasLineBreak(env[k]) {
      var front := CutLine(k, env[k], Render(env, rest));
      ParseOfCutLine(k, front);
    } else {
      LineHasNoBreak(k, env[k]);
      SplitOfLine(Line(k, env[k]), Render(env, rest));
      ParseOfLine(k, env[k]);
      ReadOfBrokenRender(env, rest, data[k := env[k]]);
    }
  }

  /** Reading back a written file gives the same variables exactly when no value holds a line break; with one,
      reading raises. Quotes, spaces, backslashes and empty values survive, in whatever order the keys are written. */
  lemma EnvFileRoundTrip(env: map<string, string>, keys: seq<string>)
    requires Lists(keys, env) && forall k :: k in env ==> GoodKey(k)
    ensures Read(Render(env, keys)) == Env(env) <==> forall k :: k in env ==> !HasLineBreak(env[k])
    ensures Read(Render(env, keys)).Raised? <==> exists k :: k in env && HasLineBreak(env[k])
  {
    hide ReadLines, SplitLines, Render, GoodKey, HasLineBreak;
    if forall k :: k in env ==> !HasLineBreak(env[k]) {
      ReadOfRender(env, keys, map[]);
      assert Merged(map[], env, keys) == env;
    } else {
      ReadOfBrokenRender(env, keys, map[]);
    }
  }

  /** A value on two lines is written as two lines, and reading the first of them raises. */
  lemma LineBreakExample()
    ensures Read(Render(map["K" := "a\nb"], ["K"])) == Raised(UnclosedQuote)
  {
    hide ReadLines, SplitLines, Render;
    var value := "a\nb";
    assert value[1] == '\n' && value[1] in value;
    assert HasLineBreak(value);
    KeyIsGood();
    ReadOfBrokenRender(map["K" := value], ["K"], map[]);
  }

  lemma KeyIsGood()
    ensures GoodKey("K")
  {
  }
}
