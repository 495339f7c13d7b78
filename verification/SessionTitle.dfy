/**
 Turning a model's reply into a session title (session_title.py): the first line, with prefixes,
 quotes, emphasis and closing punctuation stripped until nothing changes, and
 bounded. */
module SessionTitle {
  import opened PyText

  const MAX_CHARS: nat := 60
  const ELLIPSIS: char := '\U{2026}'

  predicate IsQuote(c: char) {
    c in "\"'`\U{201c}\U{201d}\U{2018}\U{2019}\U{300c}\U{300d}\U{300e}\U{300f}\U{300a}\U{300b}"
  }

  predicate IsTrailing(c: char) {
    c in ".\U{3002}!\U{ff01}"
  }

  predicate IsColon(c: char) {
    c == ':' || c == '\U{ff1a}'
  }

  /** Matching one letter of a pattern with the case ignored, as Python's regular expressions do for text. */
  predicate Matches(c: char, letter: char) {
    LowerChar(c) == letter || (letter == 'i' && c in "\U{130}\U{131}") || (letter == 's' && c == '\U{17f}')
  }

  /** The text starts with the label, white space and a colon. */
  predicate Labelled(text: string, word: string) {
    && |word| <= |text|
    && (forall i :: 0 <= i < |word| ==> Matches(text[i], word[i]))
    && var j := ColonAt(text, word); j < |text| && IsColon(text[j])
  }

  function ColonAt(text: string, word: string): (j: nat)
    requires |word| <= |text|
  {
    |word| + Lead(text[|word|..], IsSpace)
  }

  function Labels(): (r: seq<string>) {
    ["title", "session title", "session name", "name", "\U{6807}\U{9898}"]
  }

  function PastLabel(text: string, word: string): (r: string)
    requires Labelled(text, word)
    ensures |r| < |text|
  {
    TrimLeft(text[ColonAt(text, word) + 1..], IsSpace)
  }

  /** The text after its label, colon and white space. */
  function Unlabelled(text: string, labels: seq<string>): (r: string) {
    if labels == [] then text
    else if Labelled(text, labels[0]) then PastLabel(text, labels[0])
    else Unlabelled(text, labels[1..])
  }

  /** The text is wrapped in `n` marks on both sides of something within one line. */
  predicate Wrapped(text: string, n: nat, mark: char) {
    && 2 * n < |text|
    && (forall i :: 0 <= i < n ==> text[i] == mark)
    && (forall i :: |text| - n <= i < |text| ==> text[i] == mark)
    && '\n' !in text[n..|text| - n]
  }

  predicate Emphasised(text: string, n: nat) {
    Wrapped(text, n, '*') || Wrapped(text, n, '_')
  }

  /** The widest emphasis of up to three marks. */
  function EmphasisWidth(text: string): (n: nat)
    ensures 2 * n <= |text|
  {
    if Emphasised(text, 3) then 3 else if Emphasised(text, 2) then 2 else if Emphasised(text, 1) then 1 else 0
  }

  function Unemphasised(text: string): (r: string) {
    var n := EmphasisWidth(text);
    if n == 0 then text else Strip(text[n..|text| - n])
  }

  function Unquoted(text: string): (r: string) {
    Strip(Trim(text, IsQuote))
  }

  function Unpunctuated(text: string): (r: string) {
    Strip(TrimRight(text, IsTrailing))
  }

  function StripOnce(text: string): (r: string) {
    ReplaceRuns(Unpunctuated(Unemphasised(Unquoted(Strip(Unlabelled(text, Labels()))))), IsSpace, ' ')
  }

  // -------------------------------------------------------- what counts as what

  /** The marks by code point: quotes, closing punctuation, colons. */
  lemma MarksAre(c: char)
    ensures IsQuote(c) <==> c as int in {0x22, 0x27, 0x60, 0x201c, 0x201d, 0x2018, 0x2019, 0x300c, 0x300d, 0x300e,
                                         0x300f, 0x300a, 0x300b}
    ensures IsTrailing(c) <==> c as int in {0x2e, 0x3002, 0x21, 0xff01}
    ensures IsColon(c) <==> c as int in {0x3a, 0xff1a}
  {
  }

  /** A word that counts as a label, whatever the case of its letters. */
  ghost predicate LabelWord(w: string) {
    SameLetters(w, "title") || SameLetters(w, "session title") || SameLetters(w, "session name")
    || SameLetters(w, "name") || SameLetters(w, "\U{6807}\U{9898}")
  }

  /** The same letters in small or capital form; the dotted capital and dotless small i and the long s count too. */
  ghost predicate SameLetters(w: string, small: string) {
    && |w| == |small|
    && forall i :: 0 <= i < |w| ==>
         || w[i] == small[i]
         || ('a' <= small[i] <= 'z' && w[i] as int == small[i] as int - 32)
         || (small[i] == 'i' && w[i] as int in {0x130, 0x131}) || (small[i] == 's' && w[i] as int == 0x17f)
  }

  /** A text is labelled when a label word, white space and a colon are its beginning. */
  lemma LabelsAre(text: string)
    ensures (exists k :: 0 <= k < |Labels()| && Labelled(text, Labels()[k]))
            <==> exists n, m :: 0 <= n <= m < |text| && LabelWord(text[..n]) && All(text[n..m], IsSpace)
                                && text[m] as int in {0x3a, 0xff1a}
  {
    hide Labelled, LabelWord, SameLetters, Labels;
    if k :| 0 <= k < |Labels()| && Labelled(text, Labels()[k]) {
      LabelEnds(text, k);
    }
    if n, m :| 0 <= n <= m < |text| && LabelWord(text[..n]) && All(text[n..m], IsSpace)
               && text[m] as int in {0x3a, 0xff1a} {
      LabelStarts(text, n, m);
    }
  }

  lemma WordOf(w: string, k: nat)
    requires k < |Labels()|
    ensures SameLetters(w, Labels()[k]) ==> LabelWord(w)
  {
    hide SameLetters;
  }

  lemma LabelEnds(text: string, k: nat)
    requires k < |Labels()| && Labelled(text, Labels()[k])
    ensures var n := |Labels()[k]|;
            n <= |text| && LabelWord(text[..n])
            && var m := ColonAt(text, Labels()[k]);
               n <= m < |text| && All(text[n..m], IsSpace) && text[m] as int in {0x3a, 0xff1a}
  {
    hide Labels, LabelWord, IsSpace;
    var word := Labels()[k];
    var n, m := |word|, ColonAt(text, word);
    WordOf(text[..n], k);
    MarksAre(text[m]);
    assert forall i :: 0 <= i < m - n ==> text[n..][i] == text[n..m][i];
    forall i | 0 <= i < n ensures Matches(text[i], word[i]) { }
    LettersMatch(text[..n], word);
  }

  lemma LettersMatch(w: string, small: string)
    requires |w| == |small|
    ensures (forall i :: 0 <= i < |w| ==> Matches(w[i], small[i])) ==> SameLetters(w, small)
    ensures SameLetters(w, small) && Small(small) ==> forall i :: 0 <= i < |w| ==> Matches(w[i], small[i])
  {
  }

  ghost predicate Small(s: string) {
    forall i :: 0 <= i < |s| ==> !('A' <= s[i] <= 'Z')
  }

  lemma LabelStarts(text: string, n: nat, m: nat)
    requires n <= m < |text| && LabelWord(text[..n]) && All(text[n..m], IsSpace) && text[m] as int in {0x3a, 0xff1a}
    ensures exists k :: 0 <= k < |Labels()| && Labelled(text, Labels()[k])
  {
    hide Labels, Matches;
    var k := LabelOf(text[..n]);
    var word := Labels()[k];
    MarksAre(text[m]);
    ColonIsNotSpace(text[m]);
    LettersMatch(text[..n], word);
    assert forall i :: 0 <= i < n ==> text[..n][i] == text[i];
    hide IsSpace;
    assert text[n..] == text[n..m] + text[m..];
    LeadIs(text[n..m], text[m..], IsSpace);
    assert ColonAt(text, word) == m;
  }

  lemma LabelOf(w: string) returns (k: nat)
    requires LabelWord(w)
    ensures k < |Labels()| && SameLetters(w, Labels()[k]) && Small(Labels()[k])
  {
    hide SameLetters;
    k := if SameLetters(w, "title") then 0
         else if SameLetters(w, "session title") then 1
         else if SameLetters(w, "session name") then 2
         else if SameLetters(w, "name") then 3 else 4;
  }

  /** Emphasis is one to three stars or underscores on both sides of some text within one line. */
  lemma EmphasisIs(text: string, n: nat)
    ensures Emphasised(text, n) <==>
            exists inner: string, mark :: inner != "" && '\n' !in inner && (mark == '*' || mark == '_')
                                          && text == Marks(n, mark) + inner + Marks(n, mark)
  {
    if Emphasised(text, n) {
      var mark := if Wrapped(text, n, '*') then '*' else '_';
      var inner := text[n..|text| - n];
      assert text == Marks(n, mark) + inner + Marks(n, mark);
    }
    if inner: string, mark :| inner != "" && '\n' !in inner && (mark == '*' || mark == '_')
                              && text == Marks(n, mark) + inner + Marks(n, mark) {
      assert text[n..|text| - n] == inner;
      assert Wrapped(text, n, mark);
    }
  }

  // ------------------------------------------------------ what is left is clean

  ghost predicate SingleSpaced(s: string) {
    forall i :: 0 <= i < |s| && IsSpace(s[i]) ==> s[i] == ' ' && (i + 1 < |s| ==> !IsSpace(s[i + 1]))
  }

  /** Nothing to strip: no label, no quote or white space at either end, no emphasis, no closing punctuation, and words
      one space apart. */
  ghost predicate IsClean(s: string) {
    && (forall k :: 0 <= k < |Labels()| ==> !Labelled(s, Labels()[k]))
    && (s != "" ==> !IsSpace(s[0]) && !IsQuote(s[0]))
    && (s != "" ==> !IsSpace(s[|s| - 1]) && !IsQuote(s[|s| - 1]) && !IsTrailing(s[|s| - 1]))
    && !Emphasised(s, 1)
    && SingleSpaced(s)
  }

  lemma {:induction false} UnlabelledShrinks(text: string, labels: seq<string>)
    ensures |Unlabelled(text, labels)| <= |text|
    ensures |Unlabelled(text, labels)| == |text| <==> forall k :: 0 <= k < |labels| ==> !Labelled(text, labels[k])
    ensures |Unlabelled(text, labels)| == |text| ==> Unlabelled(text, labels) == text
  {
    if labels != [] && !Labelled(text, labels[0]) {
      UnlabelledShrinks(text, labels[1..]);
      assert forall k :: 0 < k < |labels| ==> labels[k] == labels[1..][k - 1];
    }
  }

  /** Wider emphasis is also emphasis by one mark. */
  lemma EmphasisShrinks(text: string)
    ensures EmphasisWidth(text) == 0 <==> !Emphasised(text, 1)
  {
    forall n: nat, mark | 2 <= n <= 3 && mark in ['*', '_'] && Wrapped(text, n, mark) ensures Wrapped(text, 1, mark) {
      WrappedOnce(text, n, mark);
    }
  }

  lemma WrappedOnce(text: string, n: nat, mark: char)
    requires 1 <= n && Wrapped(text, n, mark) && mark != '\n'
    ensures Wrapped(text, 1, mark)
  {
    forall i | 1 <= i < |text| - 1 ensures text[i] != '\n' {
      assert n <= i < |text| - n ==> text[i] == text[n..|text| - n][i - n];
    }
  }

  lemma {:induction false} RunsFixpoint(s: string)
    ensures ReplaceRuns(s, IsSpace, ' ') == s <==> SingleSpaced(s)
    decreases |s|
  {
    hide IsSpace;
    if s != "" {
      RunsFixpoint(s[1..]);
      SingleSpacedRest(s);
      RunsHead(s);
    }
  }

  lemma SingleSpacedRest(s: string)
    requires s != ""
    ensures SingleSpaced(s) <==> SingleSpaced(s[1..]) && (IsSpace(s[0]) ==> s[0] == ' ' && (|s| > 1 ==> !IsSpace(s[1])))
  {
    hide IsSpace;
    if SingleSpaced(s) {
      assert forall i :: 0 <= i < |s| - 1 ==> s[1..][i] == s[i + 1];
    }
  }

  lemma RunsHead(s: string)
    requires s != ""
    ensures ReplaceRuns(s, IsSpace, ' ') == s
            <==> ReplaceRuns(s[1..], IsSpace, ' ') == s[1..]
                 && (IsSpace(s[0]) ==> s[0] == ' ' && (|s| > 1 ==> !IsSpace(s[1])))
  {
    hide IsSpace;
    assert s == [s[0]] + s[1..];
    if IsSpace(s[0]) {
      var rest := TrimLeft(s[1..], IsSpace);
      assert rest == s[1..] <==> (|s| > 1 ==> !IsSpace(s[1]));
      assert |ReplaceRuns(rest, IsSpace, ' ')| <= |rest|;
      assert ReplaceRuns(s, IsSpace, ' ') == [' '] + ReplaceRuns(rest, IsSpace, ' ');
    } else {
      assert ReplaceRuns(s, IsSpace, ' ') == [s[0]] + ReplaceRuns(s[1..], IsSpace, ' ');
    }
  }

  /** Replacing runs keeps the length only when every run is one character, and then replaces nothing else. */
  lemma {:induction false} RunsSameLength(s: string)
    requires |ReplaceRuns(s, IsSpace, ' ')| == |s|
    ensures forall i :: 0 <= i < |s| ==> ReplaceRuns(s, IsSpace, ' ')[i] == if IsSpace(s[i]) then ' ' else s[i]
    decreases |s|
  {
    if s != "" {
      if IsSpace(s[0]) {
        assert TrimLeft(s[1..], IsSpace) == s[1..];
      }
      RunsSameLength(s[1..]);
    }
  }

  lemma StripShrinks(s: string)
    ensures |Strip(s)| <= |s| && (|Strip(s)| == |s| ==> Strip(s) == s)
    ensures Strip(s) == s <==> s == "" || (!IsSpace(s[0]) && !IsSpace(s[|s| - 1]))
  {
    TrimFixpoint(s, IsSpace);
  }

  lemma UnquotedShrinks(s: string)
    ensures |Unquoted(s)| <= |s| && (|Unquoted(s)| == |s| ==> Unquoted(s) == s)
    ensures s != "" && Unquoted(s) == s ==> !IsQuote(s[0]) && !IsQuote(s[|s| - 1])
    ensures Strip(s) == s && (s == "" || (!IsQuote(s[0]) && !IsQuote(s[|s| - 1]))) ==> Unquoted(s) == s
  {
    StripShrinks(Trim(s, IsQuote));
    TrimFixpoint(s, IsQuote);
  }

  lemma UnpunctuatedShrinks(s: string)
    ensures |Unpunctuated(s)| <= |s| && (|Unpunctuated(s)| == |s| ==> Unpunctuated(s) == s)
    ensures s != "" && Unpunctuated(s) == s ==> !IsTrailing(s[|s| - 1])
    ensures Strip(s) == s && (s == "" || !IsTrailing(s[|s| - 1])) ==> Unpunctuated(s) == s
  {
    StripShrinks(TrimRight(s, IsTrailing));
  }

  lemma UnemphasisedShrinks(s: string)
    ensures |Unemphasised(s)| <= |s| && (|Unemphasised(s)| == |s| ==> Unemphasised(s) == s)
    ensures Unemphasised(s) == s <==> !Emphasised(s, 1)
  {
    EmphasisShrinks(s);
    var n := EmphasisWidth(s);
    StripShrinks(s[n..|s| - n]);
  }

  /** One round of stripping shortens the text unless it only rewrites white space. */
  lemma StripOnceShrinks(s: string)
    ensures |StripOnce(s)| <= |s|
    ensures |StripOnce(s)| == |s| ==> StripOnce(s) == ReplaceRuns(s, IsSpace, ' ')
                                      && Unlabelled(s, Labels()) == s && Strip(s) == s && Unquoted(s) == s
                                      && Unemphasised(s) == s && Unpunctuated(s) == s
  {
    hide Unlabelled, Labels, Strip, Unquoted, Unemphasised, Unpunctuated, ReplaceRuns, Emphasised;
    var a := Unlabelled(s, Labels());
    UnlabelledShrinks(s, Labels());
    StripShrinks(a);
    UnquotedShrinks(Strip(a));
    UnemphasisedShrinks(Unquoted(Strip(a)));
    UnpunctuatedShrinks(Unemphasised(Unquoted(Strip(a))));
  }

  /** Stripping leaves a text alone exactly when it is clean. */
  lemma CleanIsFixpoint(s: string)
    ensures StripOnce(s) == s <==> IsClean(s)
  {
    hide Unlabelled, Labels, Labelled, Strip, Unquoted, Unemphasised, Unpunctuated, ReplaceRuns, Emphasised,
         SingleSpaced, StripOnce, IsSpace,
         IsQuote, IsTrailing;
    StripOnceShrinks(s);
    UnlabelledShrinks(s, Labels());
    StripShrinks(s);
    UnquotedShrinks(s);
    UnemphasisedShrinks(s);
    UnpunctuatedShrinks(s);
    RunsFixpoint(s);
    if IsClean(s) {
      StripOnceOfClean(s);
    }
  }

  lemma StripOnceOfClean(s: string)
    requires Unlabelled(s, Labels()) == s && Strip(s) == s && Unquoted(s) == s && Unemphasised(s) == s
             && Unpunctuated(s) == s
    requires ReplaceRuns(s, IsSpace, ' ') == s
    ensures StripOnce(s) == s
  {
  }

  // ----------------------------------------------------------------- the title

  /** White space other than the plain space is left. */
  predicate HasOddSpace(s: string) {
    exists i :: 0 <= i < |s| && IsSpace(s[i]) && s[i] != ' '
  }

  function Measure(s: string): (n: nat) {
    2 * |s| + if HasOddSpace(s) then 1 else 0
  }

  /** Every round that changes the text shortens it or removes its last odd white space. */
  lemma RoundsEnd(s: string)
    requires StripOnce(s) != s
    ensures Measure(StripOnce(s)) < Measure(s)
  {
    hide StripOnce, ReplaceRuns, IsSpace;
    StripOnceShrinks(s);
    if |StripOnce(s)| == |s| {
      RunsSameLength(s);
      var r := StripOnce(s);
      assert forall i :: 0 <= i < |r| ==> r[i] in r;
      assert !HasOddSpace(r);
    }
  }

  /** What the stripping settles on. */
  function Settled(s: string): (r: string)
    ensures StripOnce(r) == r
    ensures |r| <= |s|
    decreases Measure(s)
  {
    StripOnceShrinks(s);
    if StripOnce(s) == s then s
    else
      RoundsEnd(s);
      Settled(StripOnce(s))
  }

  function FirstLine(lines: seq<string>): (r: string)
    ensures r == "" || exists k :: 0 <= k < |lines| && r == Strip(lines[k])
                                   && forall j :: 0 <= j < k ==> Strip(lines[j]) == ""
    ensures r == "" ==> forall j :: 0 <= j < |lines| ==> Strip(lines[j]) == ""
  {
    if lines == [] then ""
    else if Strip(lines[0]) != "" then Strip(lines[0])
    else FirstLine(lines[1..])
  }

  function Bounded(s: string): (r: string) {
    if |s| > 60 then TrimRight(s[..59], IsSpace) + ['\U{2026}'] else s
  }

  function Title(raw: string): (r: string) {
    Bounded(Settled(FirstLine(SplitLines(raw))))
  }

  /** The model's reply as a name; the loop ends for every reply. */
  method CleanTitle(raw: string) returns (text: string)
    ensures text == Title(raw) && IsClean(text) && |text| <= 60
  {
    hide StripOnce, IsClean, Measure, Strip, FirstLine, SplitLines, TrimRight;
    var lines := SplitLines(raw);
    text := "";
    var i := 0;
    AfterBlank(lines, 0);
    while i < |lines|
      invariant 0 <= i <= |lines| && text == ""
      invariant FirstLine(lines) == FirstLine(lines[i..])
    {
      AfterBlank(lines, i);
      var candidate := Strip(lines[i]);
      if candidate != "" {
        text := candidate;
        break;
      }
      i := i + 1;
    }
    AfterBlank(lines, |lines|);
    ghost var first := text;
    assert first == FirstLine(lines);
    while text != ""
      invariant Settled(text) == Settled(first)
      decreases Measure(text)
    {
      var stripped := StripOnce(text);
      if stripped == text {
        break;
      }
      RoundsEnd(text);
      text := stripped;
    }
    SettledFixpoint(text);
    CleanIsFixpoint(text);
    BoundedIsClean(text);
    if |text| > MAX_CHARS {
      text := TrimRight(text[..MAX_CHARS - 1], IsSpace) + [ELLIPSIS];
    }
  }

  lemma AfterBlank(lines: seq<string>, i: nat)
    requires i <= |lines|
    ensures i == 0 ==> lines[i..] == lines
    ensures i == |lines| ==> FirstLine(lines[i..]) == ""
    ensures i < |lines| ==> FirstLine(lines[i..]) == if Strip(lines[i]) != "" then Strip(lines[i])
                                                     else FirstLine(lines[i + 1..])
  {
    hide Strip;
    if i < |lines| {
      assert lines[i..][1..] == lines[i + 1..];
    }
  }

  lemma SettledFixpoint(s: string)
    requires s == "" || StripOnce(s) == s
    ensures StripOnce(s) == s && Settled(s) == s
  {
    hide StripOnce;
    StripOnceShrinks(s);
  }

  /** A cut title is still clean: the cut ends in an ellipsis, and whatever it starts with the whole text starts
      with. */
  lemma BoundedIsClean(s: string)
    requires IsClean(s)
    ensures IsClean(Bounded(s)) && |Bounded(s)| <= MAX_CHARS
    ensures |s| <= MAX_CHARS ==> Bounded(s) == s
  {
    hide Labelled, IsSpace, IsClean;
    if |s| > MAX_CHARS {
      var head := s[..MAX_CHARS - 1];
      var k := Trail(head, IsSpace);
      assert head[..k] == s[..k];
      FirstNotSpace(s);
      assert head[0] == s[0];
      assert k > 0;
      assert head[k - 1] == s[k - 1];
      CutIsClean(s, k);
    }
  }

  lemma FirstNotSpace(s: string)
    requires IsClean(s) && s != ""
    ensures !IsSpace(s[0])
  {
  }

  lemma CutIsClean(s: string, k: nat)
    requires IsClean(s) && 0 < k <= |s| && !IsSpace(s[k - 1])
    ensures IsClean(s[..k] + [ELLIPSIS])
  {
    hide Labelled, IsSpace, IsQuote, IsTrailing, SingleSpaced;
    NotSpecial();
    CutSpacing(s, k);
    forall i | 0 <= i < |Labels()| ensures !Labelled(s[..k] + [ELLIPSIS], Labels()[i]) {
      if Labelled(s[..k] + [ELLIPSIS], Labels()[i]) {
        LabelOfEnd(s, k, ELLIPSIS, Labels()[i]);
      }
    }
  }

  lemma CutSpacing(s: string, k: nat)
    requires SingleSpaced(s) && 0 < k <= |s| && !IsSpace(s[k - 1])
    ensures SingleSpaced(s[..k] + [ELLIPSIS])
  {
    NotSpecial();
    hide IsSpace;
    var u := s[..k] + [ELLIPSIS];
    assert forall i :: 0 <= i < k ==> u[i] == s[i];
  }

  lemma NotSpecial()
    ensures !IsSpace(ELLIPSIS) && !IsQuote(ELLIPSIS) && !IsTrailing(ELLIPSIS) && !IsColon(ELLIPSIS)
  {
  }

  /** A label at the start of a text's beginning, closed by another character, is a label of the text. */
  lemma LabelOfEnd(s: string, k: nat, c: char, word: string)
    requires k <= |s| && !IsSpace(c) && !IsColon(c) && Labelled(s[..k] + [c], word)
    ensures Labelled(s, word)
  {
    hide Matches;
    var u := s[..k] + [c];
    var j := ColonAt(u, word);
    assert j < k;
    assert forall i :: 0 <= i < k ==> u[i] == s[i];
    assert forall i :: 0 <= i < j - |word| ==> IsSpace(u[|word|..][i]) && u[|word|..][i] == s[|word|..][i];
    LeadUnique(s[|word|..], j - |word|);
  }

  lemma LeadUnique(s: string, n: nat)
    requires n < |s| && !IsSpace(s[n]) && forall i :: 0 <= i < n ==> IsSpace(s[i])
    ensures Lead(s, IsSpace) == n
  {
    hide IsSpace;
    assert s == s[..n] + s[n..];
    LeadIs(s[..n], s[n..], IsSpace);
  }

  /** The texts that cleaning leaves as they are: the clean ones within the bound. */
  lemma TitleFixpoints(s: string)
    ensures Title(s) == s <==> IsClean(s) && |s| <= MAX_CHARS
  {
    hide StripOnce, IsClean, SplitLines, FirstLine, Strip, Bounded, Settled;
    TitleIsClean(s);
    if IsClean(s) {
      FirstLineOfClean(s);
      CleanIsFixpoint(s);
      SettledFixpoint(s);
      BoundedIsClean(s);
    }
  }

  lemma TitleIsClean(raw: string)
    ensures IsClean(Title(raw)) && |Title(raw)| <= MAX_CHARS
  {
    hide StripOnce, IsClean, SplitLines, FirstLine, Bounded;
    CleanIsFixpoint(Settled(FirstLine(SplitLines(raw))));
    BoundedIsClean(Settled(FirstLine(SplitLines(raw))));
  }

  /** Cleaning a cleaned title changes nothing, cut or not. */
  lemma CleanTitleIdempotent(raw: string)
    ensures Title(Title(raw)) == Title(raw)
  {
    TitleIsClean(raw);
    TitleFixpoints(Title(raw));
  }

  lemma FirstLineOfClean(s: string)
    requires IsClean(s)
    ensures FirstLine(SplitLines(s)) == s
  {
    hide Labelled, IsQuote, IsTrailing, Emphasised, Strip;
    if s != "" {
      assert forall i :: 0 <= i < |s| && IsLineBreak(s[i]) ==> IsSpace(s[i]);
      LineLengthUnique(s, |s|);
      StripShrinks(s);
    }
  }

  // ------------------------------------------------------- wrappers come off

  /** What a model puts around a title. */
  datatype Wrapper = Quotes(open: char, close: char) | Stars(n: nat, mark: char) | Stop(c: char)
                   | Headed(word: string, colon: char, gap: string)

  predicate IsWrapper(w: Wrapper) {
    match w
    case Quotes(open, close) => IsQuote(open) && IsQuote(close)
    case Stars(n, mark) => 1 <= n <= 3 && mark in "*_"
    case Stop(c) => IsTrailing(c)
    case Headed(word, colon, gap) =>
      word in Labels() && IsColon(colon) && forall i :: 0 <= i < |gap| ==> IsSpace(gap[i])
  }

  function Marks(n: nat, mark: char): (r: string)
    ensures |r| == n && forall i :: 0 <= i < n ==> r[i] == mark
  {
    seq(n, i => mark)
  }

  function Put(w: Wrapper, x: string): (y: string) {
    match w
    case Quotes(open, close) => [open] + x + [close]
    case Stars(n, mark) => Marks(n, mark) + x + Marks(n, mark)
    case Stop(c) => x + [c]
    case Headed(word, colon, gap) => word + [colon] + gap + x
  }

  /** From where a step has uncovered a clean text the remaining steps leave it alone. */
  lemma CleanSteps(x: string)
    requires IsClean(x)
    ensures Unlabelled(x, Labels()) == x && Strip(x) == x && Unquoted(x) == x && Unemphasised(x) == x
            && Unpunctuated(x) == x
    ensures ReplaceRuns(x, IsSpace, ' ') == x
  {
    hide Unlabelled, Labels, Labelled, Strip, Unquoted, Unemphasised, Unpunctuated, ReplaceRuns, Emphasised,
         SingleSpaced, IsSpace,
         IsQuote, IsTrailing;
    UnlabelledShrinks(x, Labels());
    StripShrinks(x);
    UnquotedShrinks(x);
    UnemphasisedShrinks(x);
    UnpunctuatedShrinks(x);
    RunsFixpoint(x);
  }

  lemma NotALetter(y: string)
    requires y != "" && (IsQuote(y[0]) || y[0] in "*_")
    ensures Unlabelled(y, Labels()) == y
  {
    hide Labelled, Labels, Matches, IsQuote;
    UnlabelledShrinks(y, Labels());
    forall k | 0 <= k < |Labels()| ensures !Labelled(y, Labels()[k]) {
      LabelStart(k, y[0]);
      StartsOtherwise(y, Labels()[k]);
    }
  }

  lemma LabelStart(k: nat, c: char)
    requires k < |Labels()| && (IsQuote(c) || c in "*_")
    ensures Labels()[k] != "" && !Matches(c, Labels()[k][0])
  {
  }

  lemma StartsOtherwise(y: string, word: string)
    requires y != "" && word != "" && !Matches(y[0], word[0])
    ensures !Labelled(y, word)
  {
  }

  lemma TrimToInner(open: char, x: string, close: char, drop: char -> bool)
    requires drop(open) && drop(close) && x != "" && !drop(x[0]) && !drop(x[|x| - 1])
    ensures Trim([open] + x + [close], drop) == x
  {
    var y := [open] + x + [close];
    assert y[1..] == x + [close];
    assert Lead(y, drop) == 1 + Lead(x + [close], drop);
    assert TrimLeft(y, drop) == x + [close];
    TrimLast(x, close, drop);
  }

  lemma TrimLast(x: string, c: char, drop: char -> bool)
    requires drop(c) && x != "" && !drop(x[|x| - 1])
    ensures TrimRight(x + [c], drop) == x
  {
    assert (x + [c])[..|x|] == x;
  }

  lemma QuotesComeOff(x: string, open: char, close: char)
    requires IsClean(x) && x != "" && IsQuote(open) && IsQuote(close)
    ensures StripOnce([open] + x + [close]) == x
  {
    var y := [open] + x + [close];
    CleanSteps(x);
    NotALetter(y);
    QuoteIsNotSpace(open);
    QuoteIsNotSpace(close);
    StripShrinks(y);
    TrimToInner(open, x, close, IsQuote);
    hide Unlabelled, Labels, Strip, Trim, Unemphasised, Unpunctuated, ReplaceRuns, IsClean, IsQuote;
  }

  lemma QuoteIsNotSpace(c: char)
    ensures IsQuote(c) || c in "*_" || IsTrailing(c) ==> !IsSpace(c)
    ensures IsTrailing(c) ==> !IsQuote(c) && c !in "*_" && !IsColon(c)
    ensures c in "*_" ==> !IsQuote(c)
  {
  }

  lemma WidthOfStars(x: string, n: nat, mark: char)
    requires IsClean(x) && x != "" && 1 <= n <= 3 && mark in "*_"
    ensures EmphasisWidth(Marks(n, mark) + x + Marks(n, mark)) == n
  {
    hide Labelled, SingleSpaced, IsQuote, IsTrailing, IsSpace;
    var y := Marks(n, mark) + x + Marks(n, mark);
    assert y[n..|y| - n] == x;
    CleanHasNoBreak(x);
    assert Wrapped(y, n, mark);
    forall k: nat, m | n < k <= 3 && m in "*_" ensures !Wrapped(y, k, m) {
      if Wrapped(y, k, m) {
        WiderMeansInner(x, n, mark, k, m);
      }
    }
  }

  lemma WiderMeansInner(x: string, n: nat, mark: char, k: nat, m: char)
    requires x != "" && '\n' !in x && n < k && Wrapped(Marks(n, mark) + x + Marks(n, mark), k, m)
    ensures Wrapped(x, 1, m)
  {
    var y := Marks(n, mark) + x + Marks(n, mark);
    assert y[n] == x[0] && y[|y| - 1 - n] == x[|x| - 1];
    assert |x| > 2;
  }

  lemma CleanHasNoBreak(x: string)
    requires IsClean(x)
    ensures '\n' !in x
  {
    hide Labelled, IsQuote, IsTrailing, Emphasised;
    assert forall i :: 0 <= i < |x| && x[i] == '\n' ==> IsSpace(x[i]);
  }

  lemma StarsComeOff(x: string, n: nat, mark: char)
    requires IsClean(x) && x != "" && 1 <= n <= 3 && mark in "*_"
    ensures StripOnce(Marks(n, mark) + x + Marks(n, mark)) == x
  {
    var y := Marks(n, mark) + x + Marks(n, mark);
    CleanSteps(x);
    NotALetter(y);
    QuoteIsNotSpace(mark);
    StripShrinks(y);
    UnquotedShrinks(y);
    WidthOfStars(x, n, mark);
    assert y[n..|y| - n] == x;
    hide Unlabelled, Labels, Strip, Unquoted, Unpunctuated, ReplaceRuns, IsClean, IsQuote, IsTrailing, IsSpace,
         EmphasisWidth, Marks;
  }

  lemma StopComesOff(x: string, c: char)
    requires IsClean(x) && x != "" && IsTrailing(c)
    ensures StripOnce(x + [c]) == x
  {
    var y := x + [c];
    CleanSteps(x);
    QuoteIsNotSpace(c);
    UnlabelledWithStop(x, c);
    StopEdges(x, c);
    hide Unlabelled, Labels, Strip, Unquoted, Unemphasised, TrimRight, ReplaceRuns, IsClean, IsQuote, IsTrailing,
         IsSpace;
  }

  lemma StopEdges(x: string, c: char)
    requires IsClean(x) && x != "" && IsTrailing(c)
    ensures var y := x + [c];
            Strip(y) == y && Unquoted(y) == y && Unemphasised(y) == y && TrimRight(y, IsTrailing) == x
  {
    hide Labelled, SingleSpaced, IsSpace, IsQuote, IsTrailing, Strip, Unquoted, Unemphasised, Emphasised;
    var y := x + [c];
    QuoteIsNotSpace(c);
    StripShrinks(y);
    UnquotedShrinks(y);
    UnemphasisedShrinks(y);
    TrimLast(x, c, IsTrailing);
    EndsPlainly(y);
  }

  lemma EndsPlainly(y: string)
    requires y != "" && y[|y| - 1] !in "*_"
    ensures !Emphasised(y, 1)
  {
  }

  lemma UnlabelledWithStop(x: string, c: char)
    requires IsClean(x) && IsTrailing(c)
    ensures Unlabelled(x + [c], Labels()) == x + [c]
  {
    hide Labelled, SingleSpaced, IsQuote, IsTrailing;
    UnlabelledShrinks(x + [c], Labels());
    QuoteIsNotSpace(c);
    forall k | 0 <= k < |Labels()| ensures !Labelled(x + [c], Labels()[k]) {
      if Labelled(x + [c], Labels()[k]) {
        assert x[..|x|] == x;
        LabelOfEnd(x, |x|, c, Labels()[k]);
      }
    }
  }

  lemma {:induction false} UnlabelledAt(y: string, labels: seq<string>, k: nat)
    requires k < |labels| && Labelled(y, labels[k]) && forall j :: 0 <= j < k ==> !Labelled(y, labels[j])
    ensures Unlabelled(y, labels) == PastLabel(y, labels[k])
  {
    hide Labelled, PastLabel;
    if k > 0 {
      assert !Labelled(y, labels[0]);
      UnlabelledAt(y, labels[1..], k - 1);
    }
  }

  lemma LabelsDiffer(j: nat, k: nat)
    requires j < k < |Labels()|
    ensures var a, b := Labels()[j], Labels()[k];
            exists i :: 0 <= i < |a| && i < |b| && !Matches(b[i], a[i])
  {
    var a, b := Labels()[j], Labels()[k];
    var i := if a == "session title" && b == "session name" then 8 else 0;
    assert !Matches(b[i], a[i]);
  }

  lemma LabelMatchesItself(k: nat)
    requires k < |Labels()|
    ensures forall i :: 0 <= i < |Labels()[k]| ==> Matches(Labels()[k][i], Labels()[k][i])
    ensures Labels()[k] != "" && !IsSpace(Labels()[k][0])
  {
  }

  lemma HeadedComesOff(x: string, k: nat, colon: char, gap: string)
    requires IsClean(x) && x != "" && k < |Labels()| && IsColon(colon) && forall i :: 0 <= i < |gap| ==> IsSpace(gap[i])
    ensures StripOnce(Labels()[k] + [colon] + gap + x) == x
  {
    hide Labelled, Labels, Strip, Unquoted, Unemphasised, Unpunctuated, ReplaceRuns, IsClean, IsSpace, Unlabelled,
         TrimLeft;
    var word := Labels()[k];
    var y := word + [colon] + gap + x;
    CleanSteps(x);
    assert y == word + [colon] + (gap + x);
    LabelledHead(y, k, colon, gap + x);
    GapComesOff(gap, x);
  }

  lemma GapComesOff(gap: string, x: string)
    requires IsClean(x) && x != "" && forall i :: 0 <= i < |gap| ==> IsSpace(gap[i])
    ensures TrimLeft(gap + x, IsSpace) == x
  {
    hide Labelled, IsSpace, IsQuote, IsTrailing, SingleSpaced, Emphasised;
    LeadUnique(gap + x, |gap|);
  }

  lemma LabelledHead(y: string, k: nat, colon: char, rest: string)
    requires k < |Labels()| && IsColon(colon) && y == Labels()[k] + [colon] + rest
    ensures Unlabelled(y, Labels()) == TrimLeft(rest, IsSpace)
  {
    hide Matches, Labels;
    var word := Labels()[k];
    LabelMatchesItself(k);
    ColonIsNotSpace(colon);
    assert y[|word|..] == [colon] + rest;
    LeadUnique(y[|word|..], 0);
    assert ColonAt(y, word) == |word| && y[|word| + 1..] == rest;
    assert Labelled(y, word);
    forall j | 0 <= j < k ensures !Labelled(y, Labels()[j]) {
      LabelsDiffer(j, k);
      var i :| 0 <= i < |Labels()[j]| && i < |word| && !Matches(word[i], Labels()[j][i]);
      assert y[i] == word[i];
    }
    UnlabelledAt(y, Labels(), k);
  }

  lemma ColonIsNotSpace(c: char)
    requires IsColon(c)
    ensures !IsSpace(c) && !IsLineBreak(c)
  {
  }

  /** A wrapper around a clean text comes off in one round. */
  lemma WrapperComesOff(w: Wrapper, x: string)
    requires IsWrapper(w) && IsClean(x) && x != ""
    ensures StripOnce(Put(w, x)) == x
  {
    hide IsClean, IsTrailing, IsQuote, IsColon, IsSpace, StripOnce, Labels, Marks;
    match w
    case Quotes(open, close) => QuotesComeOff(x, open, close);
    case Stars(n, mark) => StarsComeOff(x, n, mark);
    case Stop(c) => StopComesOff(x, c);
    case Headed(word, colon, gap) =>
      var k :| 0 <= k < |Labels()| && Labels()[k] == word;
      HeadedComesOff(x, k, colon, gap);
  }

  /** So the title of a wrapped clean text, on one line, is the text. */
  lemma TitleUnwraps(w: Wrapper, x: string)
    requires IsWrapper(w) && IsClean(x) && x != "" && |x| <= MAX_CHARS
    requires Strip(Put(w, x)) == Put(w, x) && forall i :: 0 <= i < |Put(w, x)| ==> !IsLineBreak(Put(w, x)[i])
    ensures Title(Put(w, x)) == x
  {
    hide IsWrapper, IsClean, IsLineBreak, Strip, StripOnce, Labels, Bounded;
    var y := Put(w, x);
    WrapperComesOff(w, x);
    PutGrows(w, x);
    LineLengthUnique(y, |y|);
    CleanIsFixpoint(x);
    SettledFixpoint(x);
    BoundedIsClean(x);
  }

  lemma PutGrows(w: Wrapper, x: string)
    requires IsWrapper(w)
    ensures |Put(w, x)| > |x|
  {
  }
}
