/** The Python string operations the components use, on sequences of code points. */
module PyText {

  /** str.isspace, which str.strip and the regular-expression class for white space also use. */
  predicate IsSpace(c: char) {
    '\t' <= c <= '\r' || '\U{1c}' <= c <= '\U{20}' || c == '\U{85}' || c == '\U{a0}' || c == '\U{1680}'
    || '\U{2000}' <= c <= '\U{200a}' || c == '\U{2028}' || c == '\U{2029}' || c == '\U{202f}'
    || c == '\U{205f}' || c == '\U{3000}'
  }

  /** The characters at which str.splitlines ends a line. */
  predicate IsLineBreak(c: char) {
    '\n' <= c <= '\r' || '\U{1c}' <= c <= '\U{1e}' || c == '\U{85}' || c == '\U{2028}' || c == '\U{2029}'
  }

  predicate IsAsciiAlnum(c: char) {
    'a' <= c <= 'z' || 'A' <= c <= 'Z' || '0' <= c <= '9'
  }

  /** How many characters str.lstrip drops, with the dropped characters given as a predicate. */
  function Lead(s: string, drop: char -> bool): (n: nat)
    ensures n <= |s|
    ensures n < |s| ==> !drop(s[n])
    ensures forall i :: 0 <= i < n ==> drop(s[i])
  {
    if s != "" && drop(s[0]) then 1 + Lead(s[1..], drop) else 0
  }

  /** The length str.rstrip leaves. */
  function Trail(s: string, drop: char -> bool): (n: nat)
    ensures n <= |s|
    ensures n > 0 ==> !drop(s[n - 1])
    ensures forall i :: n <= i < |s| ==> drop(s[i])
  {
    if s != "" && drop(s[|s| - 1]) then Trail(s[..|s| - 1], drop) else |s|
  }

  function TrimLeft(s: string, drop: char -> bool): (r: string) {
    s[Lead(s, drop)..]
  }

  function TrimRight(s: string, drop: char -> bool): (r: string) {
    s[..Trail(s, drop)]
  }

  /** str.strip. */
  function Trim(s: string, drop: char -> bool): (r: string)
    ensures |r| <= |s|
    ensures r != "" ==> !drop(r[0]) && !drop(r[|r| - 1])
    ensures forall c :: c in r ==> c in s
    ensures |r| == |s| ==> r == s
  {
    TrimRight(TrimLeft(s, drop), drop)
  }

  /** Stripping changes nothing exactly when neither end can be stripped. */
  lemma TrimFixpoint(s: string, drop: char -> bool)
    ensures Trim(s, drop) == s <==> s == "" || (!drop(s[0]) && !drop(s[|s| - 1]))
  {
    if s != "" && !drop(s[0]) {
      assert Lead(s, drop) == 0 && TrimLeft(s, drop) == s;
    }
  }

  function Strip(s: string): (r: string) {
    Trim(s, IsSpace)
  }

  lemma StripTwice(s: string)
    ensures Strip(Strip(s)) == Strip(s)
  {
    TrimFixpoint(Strip(s), IsSpace);
  }

  /** re.sub of every maximal run of `bad` characters by one `r`. */
  function ReplaceRuns(s: string, bad: char -> bool, r: char): (t: string)
    ensures |t| <= |s|
    ensures forall c :: c in t ==> c == r || !bad(c)
    decreases |s|
  {
    if s == "" then ""
    else if bad(s[0]) then [r] + ReplaceRuns(TrimLeft(s[1..], bad), bad, r)
    else [s[0]] + ReplaceRuns(s[1..], bad, r)
  }

  lemma {:induction false} ReplaceRunsNoop(s: string, bad: char -> bool, r: char)
    requires forall c :: c in s ==> !bad(c)
    ensures ReplaceRuns(s, bad, r) == s
  {
    if s != "" {
      ReplaceRunsNoop(s[1..], bad, r);
    }
  }

  function LowerChar(c: char): (r: char) {
    if 'A' <= c <= 'Z' then c - 'A' + 'a' else c
  }

  function UpperChar(c: char): (r: char) {
    if 'a' <= c <= 'z' then c - 'a' + 'A' else c
  }

  /** ASCII lower case. */
  function Lower(s: string): (r: string)
    ensures |r| == |s|
  {
    seq(|s|, i requires 0 <= i < |s| => LowerChar(s[i]))
  }

  function Upper(s: string): (r: string)
    ensures |r| == |s|
  {
    seq(|s|, i requires 0 <= i < |s| => UpperChar(s[i]))
  }

  /** The length of the longest prefix without a line break. */
  function LineLength(s: string): (n: nat)
    ensures n <= |s|
    ensures forall i :: 0 <= i < n ==> !IsLineBreak(s[i])
    ensures n < |s| ==> IsLineBreak(s[n])
  {
    if s == "" || IsLineBreak(s[0]) then 0 else 1 + LineLength(s[1..])
  }

  /** str.splitlines: a carriage return followed by a line feed is one break, and a final break adds no line. */
  function SplitLines(s: string): (lines: seq<string>)
    ensures forall line, c :: line in lines && c in line ==> !IsLineBreak(c)
    decreases |s|
  {
    if s == "" then []
    else
      var n := LineLength(s);
      if n == |s| then [s]
      else if s[n] == '\r' && n + 1 < |s| && s[n + 1] == '\n' then [s[..n]] + SplitLines(s[n + 2..])
      else [s[..n]] + SplitLines(s[n + 1..])
  }

  /** The first line of a text is what precedes its first line break. */
  lemma LineLengthUnique(s: string, n: nat)
    requires n <= |s|
    requires forall i :: 0 <= i < n ==> !IsLineBreak(s[i])
    requires n < |s| ==> IsLineBreak(s[n])
    ensures LineLength(s) == n
  {
  }

  /** Where a character first occurs; the length when it does not. */
  function IndexOf(s: string, c: char): (n: nat)
    ensures n <= |s|
    ensures n < |s| ==> s[n] == c
    ensures forall i :: 0 <= i < n ==> s[i] != c
  {
    if s == "" || s[0] == c then 0 else 1 + IndexOf(s[1..], c)
  }

  // ------------------------------------------------- what the operations give

  predicate All(s: string, p: char -> bool) {
    forall i :: 0 <= i < |s| ==> p(s[i])
  }

  /** Stripping takes the characters to drop at both ends and nothing else. */
  lemma TrimIs(left: string, core: string, right: string, drop: char -> bool)
    requires All(left, drop) && All(right, drop)
    requires core == "" || (!drop(core[0]) && !drop(core[|core| - 1]))
    ensures Trim(left + core + right, drop) == core
  {
    var s := left + core + right;
    assert s == left + (core + right);
    if core == "" {
      LeadAll(left + right, drop);
      assert s == left + right;
    } else {
      LeadIs(left, core + right, drop);
      assert s[|left|..] == core + right;
      TrailIs(core, right, drop);
      assert (core + right)[..|core|] == core;
    }
  }

  lemma {:induction false} LeadIs(left: string, rest: string, drop: char -> bool)
    requires All(left, drop) && (rest == "" || !drop(rest[0]))
    ensures Lead(left + rest, drop) == |left|
  {
    if left == "" {
      assert left + rest == rest;
    } else {
      assert (left + rest)[1..] == left[1..] + rest;
      LeadIs(left[1..], rest, drop);
    }
  }

  lemma {:induction false} LeadAll(s: string, drop: char -> bool)
    requires All(s, drop)
    ensures Lead(s, drop) == |s|
  {
    if s != "" {
      LeadAll(s[1..], drop);
    }
  }

  lemma {:induction false} TrailIs(core: string, right: string, drop: char -> bool)
    requires All(right, drop) && core != "" && !drop(core[|core| - 1])
    ensures Trail(core + right, drop) == |core|
  {
    var s := core + right;
    if right == "" {
      assert s == core;
    } else {
      var n := |right| - 1;
      assert s[..|s| - 1] == core + right[..n];
      assert s[|s| - 1] == right[n];
      TrailIs(core, right[..n], drop);
    }
  }

  lemma ReplaceRunsKeep(c: char, rest: string, bad: char -> bool, r: char)
    requires !bad(c)
    ensures ReplaceRuns([c] + rest, bad, r) == [c] + ReplaceRuns(rest, bad, r)
  {
    assert ([c] + rest)[1..] == rest;
  }

  lemma ReplaceRunsRun(run: string, rest: string, bad: char -> bool, r: char)
    requires run != "" && All(run, bad) && (rest == "" || !bad(rest[0]))
    ensures ReplaceRuns(run + rest, bad, r) == [r] + ReplaceRuns(rest, bad, r)
  {
    var s := run + rest;
    assert s[1..] == run[1..] + rest;
    LeadIs(run[1..], rest, bad);
    assert TrimLeft(s[1..], bad) == rest;
  }

  /** A run of characters to replace becomes one character, between texts that have none. */
  lemma {:induction false} ReplaceRunsJoins(a: string, run: string, b: string, bad: char -> bool, r: char)
    requires run != "" && All(run, bad)
    requires (forall i :: 0 <= i < |a| ==> !bad(a[i])) && (forall i :: 0 <= i < |b| ==> !bad(b[i]))
    ensures ReplaceRuns(a + run + b, bad, r) == a + [r] + b
  {
    hide ReplaceRuns;
    if a == "" {
      assert a + run + b == run + b && a + [r] + b == [r] + b;
      ReplaceRunsRun(run, b, bad, r);
      ReplaceRunsNoop(b, bad, r);
    } else {
      var rest := a[1..] + run + b;
      assert a + run + b == [a[0]] + rest;
      ReplaceRunsKeep(a[0], rest, bad, r);
      ReplaceRunsJoins(a[1..], run, b, bad, r);
      assert a + [r] + b == [a[0]] + (a[1..] + [r] + b);
    }
  }

  /** Lower case changes the letters A to Z and nothing else, and upper case the letters a to z. */
  lemma CaseIs(s: string)
    ensures |Upper(s)| == |s|
    ensures forall i :: 0 <= i < |s| ==>
              Upper(s)[i] as int == s[i] as int - if 97 <= s[i] as int <= 122 then 32 else 0
    ensures |Lower(s)| == |s|
    ensures forall i :: 0 <= i < |s| ==>
              Lower(s)[i] as int == s[i] as int + if 65 <= s[i] as int <= 90 then 32 else 0
  {
  }

  /** The white space a text may be stripped of, by code point. */
  lemma SpacesAre(c: char)
    ensures IsSpace(c) <==> c as int in {0x9, 0xA, 0xB, 0xC, 0xD, 0x1C, 0x1D, 0x1E, 0x1F, 0x20, 0x85, 0xA0, 0x1680,
                                         0x2000, 0x2001, 0x2002, 0x2003, 0x2004, 0x2005, 0x2006, 0x2007, 0x2008,
                                         0x2009, 0x200A, 0x2028, 0x2029, 0x202F, 0x205F, 0x3000}
    ensures IsLineBreak(c) <==> c as int in {0xA, 0xB, 0xC, 0xD, 0x1C, 0x1D, 0x1E, 0x85, 0x2028, 0x2029}
  {
  }

  /** A line break ends a line; a carriage return with its line feed is one of them; a last break ends the last line. */
  lemma SplitLinesAt(line: string, brk: char, rest: string)
    requires (forall i :: 0 <= i < |line| ==> !IsLineBreak(line[i])) && IsLineBreak(brk)
    ensures !(brk == '\r' && rest != "" && rest[0] == '\n')
            ==> SplitLines(line + [brk] + rest) == [line] + SplitLines(rest)
    ensures SplitLines(line + "\r\n" + rest) == [line] + SplitLines(rest)
    ensures line != "" ==> SplitLines(line) == [line]
    ensures SplitLines("") == []
  {
    LineLengthUnique(line + [brk] + rest, |line|);
    LineLengthUnique(line + "\r\n" + rest, |line|);
    LineLengthUnique(line, |line|);
    var s, t := line + [brk] + rest, line + "\r\n" + rest;
    assert s[..|line|] == line && s[|line| + 1..] == rest && s[|line|] == brk;
    assert t[..|line|] == line && t[|line| + 2..] == rest && t[|line|] == '\r' && t[|line| + 1] == '\n';
    assert |s| > |line| + 1 ==> s[|line| + 1] == rest[0];
  }
}
