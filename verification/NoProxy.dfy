/** Lists of hosts kept off a proxy (proxy_plan.py): how they are read, completed and printed. */
module NoProxy {
  import opened PyText

  predicate IsSep(c: char) {
    c == ',' || IsSpace(c)
  }

  predicate IsWord(s: string) {
    s != "" && forall i :: 0 <= i < |s| ==> !IsSep(s[i])
  }

  predicate NotSep(c: char) {
    !IsSep(c)
  }

  /** The items of a list, between commas and white space. */
  function Words(s: string): (r: seq<string>)
    decreases |s|
  {
    if s == "" then []
    else if IsSep(s[0]) then Words(s[1..])
    else
      var n := Lead(s, NotSep);
      [s[..n]] + Words(s[n..])
  }

  function Join(items: seq<string>): (r: string) {
    if items == [] then ""
    else if |items| == 1 then items[0]
    else items[0] + "," + Join(items[1..])
  }

  lemma {:induction false} WordsAreWords(s: string)
    ensures forall i :: 0 <= i < |Words(s)| ==> IsWord(Words(s)[i])
    decreases |s|
  {
    if s != "" {
      if IsSep(s[0]) {
        WordsAreWords(s[1..]);
      } else {
        WordsAreWords(s[Lead(s, NotSep)..]);
      }
    }
  }

  lemma {:induction false} LeadOfWord(w: string, rest: string)
    requires forall i :: 0 <= i < |w| ==> !IsSep(w[i])
    requires rest == "" || IsSep(rest[0])
    ensures Lead(w + rest, NotSep) == |w|
  {
    if w == "" {
      assert w + rest == rest;
    } else {
      assert (w + rest)[1..] == w[1..] + rest;
      LeadOfWord(w[1..], rest);
    }
  }

  lemma WordsOfWord(w: string, rest: string)
    requires IsWord(w) && (rest == "" || IsSep(rest[0]))
    ensures Words(w + rest) == [w] + if rest == "" then [] else Words(rest[1..])
  {
    LeadOfWord(w, rest);
    assert (w + rest)[..|w|] == w && (w + rest)[|w|..] == rest;
  }

  /** A comma and white space separate items; a text with neither is one item. */
  lemma {:induction false} WordsSplit(a: string, c: char, b: string)
    requires c == ',' || IsSpace(c)
    ensures Words(a + [c] + b) == Words(a) + Words(b)
    ensures a != "" && (forall i :: 0 <= i < |a| ==> a[i] != ',' && !IsSpace(a[i])) ==> Words(a) == [a]
    decreases |a|
  {
    hide Words, IsSpace, IsWord;
    if a == "" {
      assert a + [c] + b == [c] + b;
      NoWords();
      WordsSkip(c, b);
    } else if IsSep(a[0]) {
      assert a + [c] + b == [a[0]] + (a[1..] + [c] + b) && a == [a[0]] + a[1..];
      WordsSkip(a[0], a[1..] + [c] + b);
      WordsSkip(a[0], a[1..]);
      WordsSplit(a[1..], c, b);
    } else {
      var n := Lead(a, NotSep);
      var w, rest := a[..n], a[n..];
      LeadIsWord(a);
      assert a == w + rest;
      if rest != "" {
        WordsSplit(rest[1..], c, b);
      }
      WordThen(w, rest, c, b);
      EndedByWord(a, n);
    }
  }

  lemma EndedByWord(a: string, n: nat)
    requires n <= |a| && (n < |a| ==> IsSep(a[n])) && IsWord(a[..n])
    ensures (forall i :: 0 <= i < |a| ==> a[i] != ',' && !IsSpace(a[i])) ==> Words(a) == [a]
  {
    hide IsSpace;
    if n == |a| {
      assert a[..n] == a && a + "" == a;
      WordsOfWord(a, "");
    }
  }

  lemma WordThen(w: string, rest: string, c: char, b: string)
    requires IsWord(w) && IsSep(c) && (rest == "" || IsSep(rest[0]))
    requires rest != "" ==> Words(rest[1..] + [c] + b) == Words(rest[1..]) + Words(b)
    ensures Words(w + rest + [c] + b) == Words(w + rest) + Words(b)
  {
    hide Words, IsSep, IsWord;
    var more := rest + [c] + b;
    assert w + rest + [c] + b == w + more;
    assert more[0] == if rest == "" then c else rest[0];
    assert more[1..] == if rest == "" then b else rest[1..] + [c] + b;
    WordsOfWord(w, rest);
    WordsOfWord(w, more);
  }

  lemma NoWords()
    ensures Words("") == []
  {
  }

  lemma WordsSkip(c: char, s: string)
    requires IsSep(c)
    ensures Words([c] + s) == Words(s)
  {
    assert ([c] + s)[1..] == s;
  }

  lemma LeadIsWord(a: string)
    requires a != "" && !IsSep(a[0])
    ensures var n := Lead(a, NotSep); n > 0 && IsWord(a[..n]) && (n < |a| ==> IsSep(a[n]))
  {
  }

  /** Reading a printed list gives the items back. */
  lemma {:induction false} WordsOfJoin(items: seq<string>)
    requires forall i :: 0 <= i < |items| ==> IsWord(items[i])
    ensures Words(Join(items)) == items
  {
    if |items| == 1 {
      WordsOfWord(items[0], "");
      assert items[0] + "" == items[0];
    } else if |items| > 1 {
      var tail := "," + Join(items[1..]);
      assert items[0] + "," + Join(items[1..]) == items[0] + tail;
      assert tail[1..] == Join(items[1..]);
      WordsOfWord(items[0], tail);
      WordsOfJoin(items[1..]);
    }
  }

  // --------------------------------------------------------- completing a list

  const LOOPBACK: seq<string> := ["127.0.0.1", "localhost"]

  const DEFAULT_NO_PROXY: string := "127.0.0.1,localhost"

  function Given(noProxy: string, default: string): (r: string) {
    if Strip(noProxy) != "" then Strip(noProxy) else default
  }

  predicate Has(items: seq<string>, word: string) {
    exists i :: 0 <= i < |items| && Lower(items[i]) == word
  }

  /** The items with the loopback names they miss. */
  function Completed(items: seq<string>): (r: seq<string>) {
    items + (if Has(items, LOOPBACK[0]) then [] else [LOOPBACK[0]])
          + (if Has(items, LOOPBACK[1]) then [] else [LOOPBACK[1]])
  }

  function NoProxyText(noProxy: string, default: string): (r: string) {
    Join(Completed(Words(Given(noProxy, default))))
  }

  lemma LoopbackWords()
    ensures forall w :: w in LOOPBACK ==> IsWord(w) && Lower(w) == w
  {
  }

  lemma CompletedWords(s: string)
    ensures var items := Completed(Words(s));
            && (forall i :: 0 <= i < |items| ==> IsWord(items[i]))
            && Has(items, LOOPBACK[0]) && Has(items, LOOPBACK[1])
            && Completed(items) == items
  {
    hide IsWord, Words, Lower;
    WordsAreWords(s);
    LoopbackWords();
    var ws := Words(s);
    var items := Completed(ws);
    var n := |ws|;
    assert forall i :: 0 <= i < n ==> items[i] == ws[i];
    if !Has(ws, LOOPBACK[0]) {
      assert items[n] == LOOPBACK[0];
    }
    if !Has(ws, LOOPBACK[1]) {
      assert items[|items| - 1] == LOOPBACK[1];
    }
  }

  lemma {:induction false} JoinIsNotBlank(items: seq<string>)
    requires items != [] && forall i :: 0 <= i < |items| ==> IsWord(items[i])
    ensures var s := Join(items); s != "" && !IsSpace(s[0]) && !IsSpace(s[|s| - 1])
  {
    if |items| > 1 {
      JoinIsNotBlank(items[1..]);
    }
  }

  /** A completed list reads back as its items, and completing it again changes nothing. */
  lemma NoProxyTextTwice(noProxy: string, default: string, other: string)
    ensures Words(NoProxyText(noProxy, default)) == Completed(Words(Given(noProxy, default)))
    ensures NoProxyText(NoProxyText(noProxy, default), other) == NoProxyText(noProxy, default)
  {
    hide Words, Join, IsWord, Completed, Has;
    var items := Completed(Words(Given(noProxy, default)));
    CompletedWords(Given(noProxy, default));
    WordsOfJoin(items);
    NotEmpty(items);
    JoinIsNotBlank(items);
    TrimFixpoint(Join(items), IsSpace);
  }

  lemma NotEmpty(items: seq<string>)
    requires Has(items, LOOPBACK[0])
    ensures items != []
  {
  }

  // -------------------------------------------------------------- exempt hosts

  /** What the ipaddress library knows: loopback addresses, and the addresses in a block. */
  datatype Addresses = Addresses(isLoopback: string -> bool, inBlock: (string, string) -> bool)

  predicate IsDot(c: char) {
    c == '.'
  }

  function WithoutDots(s: string): (r: string) {
    TrimRight(s, IsDot)
  }

  /** The host as it is compared: lower case, no final dots, no brackets. */
  function Target(host: string): (r: string) {
    var t := WithoutDots(Lower(Strip(host)));
    if |t| >= 2 && t[0] == '[' && t[|t| - 1] == ']' then t[1..|t| - 1] else t
  }

  predicate EndsWith(s: string, end: string) {
    |end| <= |s| && s[|s| - |end|..] == end
  }

  lemma EndsWithIs(s: string, end: string)
    ensures EndsWith(s, end) <==> exists front: string :: s == front + end
  {
    if EndsWith(s, end) {
      assert s == s[..|s| - |end|] + end;
    }
  }

  function Without(s: string, prefix: string): (r: string) {
    if prefix <= s then s[|prefix|..] else s
  }

  /** The name in an item: no scheme, no brackets, no port. */
  function NameOf(item: string): (r: string) {
    WithoutPort(Without(Without(Lower(item), "http://"), "https://"))
  }

  function WithoutPort(e: string): (r: string) {
    if e != "" && e[0] == '[' && ']' in e then e[1..IndexOf(e, ']')]
    else
      var n := IndexOf(e, ':');
      if n < |e| && ':' !in e[n + 1..] then e[..n] else e
  }

  /** A name exempts itself and its subdomains; one that starts with a dot or a star its subdomains only. */
  predicate DomainExempts(target: string, e: string) {
    var d := WithoutDots(e);
    var name := if "*." <= d then d[1..] else d;
    if name != "" && name[0] == '.' then EndsWith(target, name)
    else target == name || EndsWith(target, "." + name)
  }

  /** Whether one item of a list exempts a host. */
  predicate ItemExempts(target: string, item: string, ips: Addresses) {
    item == "*"
    || if '/' in NameOf(item) then ips.inBlock(target, NameOf(item)) else DomainExempts(target, NameOf(item))
  }

  predicate AlwaysDirect(target: string, ips: Addresses) {
    target in ["localhost", "127.0.0.1", "::1"] || ips.isLoopback(target)
  }

  predicate SomeExempts(target: string, items: seq<string>, ips: Addresses) {
    exists i :: 0 <= i < |items| && ItemExempts(target, items[i], ips)
  }

  /** A host is exempt when it is loopback or an item says so. */
  predicate Exempts(host: string, noProxy: string, ips: Addresses) {
    var t := Target(host);
    t != "" && (AlwaysDirect(t, ips) || SomeExempts(t, Words(noProxy), ips))
  }

  method NoProxyExempts(host: string, noProxy: string, ips: Addresses) returns (r: bool)
    ensures r == Exempts(host, noProxy, ips)
    ensures var t := Target(host);
            r <==> t != "" && (t == "localhost" || t == "127.0.0.1" || t == "::1" || ips.isLoopback(t)
                               || exists item :: item in Words(noProxy) && ItemExempts(t, item, ips))
  {
    hide ItemExempts, Words;
    var target := Target(host);
    if target == "" {
      return false;
    }
    if AlwaysDirect(target, ips) {
      return true;
    }
    var items := Words(noProxy);
    for i := 0 to |items|
      invariant forall j :: 0 <= j < i ==> !ItemExempts(target, items[j], ips)
    {
      if ItemExempts(target, items[i], ips) {
        return true;
      }
    }
    return false;
  }

  /** Completing a list exempts the loopback names and their subdomains, and nothing else that it did not exempt. */
  lemma CompletingExemptsLoopback(host: string, noProxy: string, default: string, ips: Addresses)
    ensures Exempts(host, NoProxyText(noProxy, default), ips)
            <==> Exempts(host, if Strip(noProxy) != "" then Strip(noProxy) else default, ips)
                 || (Target(host) != "" && (EndsWith(Target(host), ".localhost")
                                            || EndsWith(Target(host), ".127.0.0.1")))
  {
    hide Words, ItemExempts, Target, Strip, NoProxyText, Completed;
    var t := Target(host);
    var items := Words(Given(noProxy, default));
    NoProxyTextTwice(noProxy, default, default);
    CompletedExempts(t, items, ips);
  }

  lemma CompletedExempts(t: string, items: seq<string>, ips: Addresses)
    ensures SomeExempts(t, Completed(items), ips)
            <==> SomeExempts(t, items, ips) || t == "127.0.0.1" || EndsWith(t, ".127.0.0.1")
                 || t == "localhost" || EndsWith(t, ".localhost")
  {
    hide ItemExempts, EndsWith;
    LoopbackItem(t, ips);
    var all := Completed(items);
    var n := |items|;
    assert forall i :: 0 <= i < n ==> all[i] == items[i];
    assert forall i :: n <= i < |all| ==> all[i] in LOOPBACK;
    forall w | w in LOOPBACK ensures Has(items, w) || exists i :: n <= i < |all| && all[i] == w {
      if !Has(items, w) {
        assert (if w == LOOPBACK[0] then all[n] else all[|all| - 1]) == w;
      }
    }
    forall i, w | 0 <= i < n && w in LOOPBACK && Lower(items[i]) == w
      ensures ItemExempts(t, items[i], ips) <==> ItemExempts(t, w, ips)
    {
      SameLower(t, items[i], w, ips);
    }
  }

  lemma SameLower(t: string, item: string, w: string, ips: Addresses)
    requires Lower(item) == w && w in LOOPBACK
    ensures ItemExempts(t, item, ips) <==> ItemExempts(t, w, ips)
  {
    hide DomainExempts, Without, WithoutPort, Lower;
    LoopbackWords();
    assert |item| == |w|;
  }

  lemma LoopbackItem(t: string, ips: Addresses)
    ensures ItemExempts(t, "localhost", ips) <==> t == "localhost" || EndsWith(t, ".localhost")
    ensures ItemExempts(t, "127.0.0.1", ips) <==> t == "127.0.0.1" || EndsWith(t, ".127.0.0.1")
  {
    hide ItemExempts, EndsWith;
    PlainItem(t, "localhost", ips);
    PlainItem(t, "127.0.0.1", ips);
    assert "." + "localhost" == ".localhost";
    assert "." + "127.0.0.1" == ".127.0.0.1";
  }

  // ------------------------------------------------------ how an item is read

  /** A star exempts every host, and a block the addresses in it. */
  lemma StarAndBlock(t: string, block: string, ips: Addresses)
    requires '/' in block && Lower(block) == block && ':' !in block && '[' !in block
    ensures ItemExempts(t, "*", ips)
    ensures ItemExempts(t, block, ips) == ips.inBlock(t, block)
  {
    hide Lower, EndsWith;
    NoScheme(block, "http://", 4);
    NoScheme(block, "https://", 5);
  }

  /** A scheme in front of a name is ignored, and so is a port behind it, and the case of its letters. */
  lemma NameReads(name: string, port: string)
    requires name != "" && forall i :: 0 <= i < |name| ==> name[i] !in [':', '['] && LowerChar(name[i]) == name[i]
    requires forall i :: 0 <= i < |port| ==> port[i] != ':' && LowerChar(port[i]) == port[i]
    ensures NameOf(name) == name
    ensures NameOf("http://" + name) == name && NameOf("https://" + name) == name
    ensures !("//" <= port) ==> NameOf(name + ":" + port) == name
  {
    hide WithoutPort, Without, LowerChar, Lower;
    PlainPort(name, port);
    NoScheme(name, "http://", 4);
    NoScheme(name, "https://", 5);
    LowerStays(name, "");
    assert name + "" == name;
    SchemeOff(name, "http://");
    SchemeOff(name, "https://");
    OtherScheme(name);
    if !("//" <= port) {
      PortStays(name, port);
      assert name + (":" + port) == name + ":" + port;
      SchemeBefore(name, port, "http");
      SchemeBefore(name, port, "https");
      assert "http" + "://" == "http://" && "https" + "://" == "https://";
    }
  }

  lemma CaseIsIgnored(item: string)
    ensures NameOf(Lower(item)) == NameOf(item)
  {
    assert Lower(Lower(item)) == Lower(item);
  }

  lemma LowerStays(a: string, b: string)
    requires forall i :: 0 <= i < |a| ==> LowerChar(a[i]) == a[i]
    requires forall i :: 0 <= i < |b| ==> LowerChar(b[i]) == b[i]
    ensures Lower(a + b) == a + b
  {
  }

  lemma PortStays(name: string, port: string)
    requires forall i :: 0 <= i < |name| ==> LowerChar(name[i]) == name[i]
    requires forall i :: 0 <= i < |port| ==> LowerChar(port[i]) == port[i]
    ensures Lower(name + (":" + port)) == name + (":" + port)
  {
    LowerStays(name, ":" + port);
  }

  lemma OtherScheme(name: string)
    ensures Without("https://" + name, "http://") == "https://" + name
  {
    assert ("https://" + name)[4] == 's';
  }

  lemma SchemeOff(name: string, scheme: string)
    requires Lower(name) == name && scheme in ["http://", "https://"]
    ensures Without(scheme + name, scheme) == name && Lower(scheme + name) == scheme + name
  {
    assert forall i :: 0 <= i < |name| ==> LowerChar(name[i]) == Lower(name)[i];
    LowerStays(scheme, name);
    assert (scheme + name)[|scheme|..] == name;
  }

  /** A name before a colon is no scheme unless slashes follow. */
  lemma SchemeBefore(name: string, port: string, scheme: string)
    requires ':' !in name && ':' !in scheme && !("//" <= port)
    ensures Without(name + ":" + port, scheme + "://") == name + ":" + port
  {
    if scheme + "://" <= name + ":" + port {
      SlashesFollow(name, port, scheme);
    }
  }

  lemma SlashesFollow(name: string, port: string, scheme: string)
    requires ':' !in name && ':' !in scheme && scheme + "://" <= name + ":" + port
    ensures "//" <= port
  {
    var s, n := name + ":" + port, |name|;
    assert s[n] == ':' && s[|scheme|] == (scheme + "://")[|scheme|] == ':';
    assert forall i :: 0 <= i < n ==> s[i] == name[i];
    assert forall i :: 0 <= i < |scheme| ==> s[i] == (scheme + "://")[i] == scheme[i];
    assert |scheme| == n;
    assert s[n + 1] == (scheme + "://")[n + 1] && s[n + 2] == (scheme + "://")[n + 2];
    assert port == s[n + 1..];
  }

  lemma PlainPort(name: string, port: string)
    requires name != "" && ':' !in name && '[' !in name && ':' !in port
    ensures WithoutPort(name) == name && WithoutPort(name + ":" + port) == name
  {
    var s := name + ":" + port;
    assert s[|name|] == ':' && s[|name| + 1..] == port && s[..|name|] == name;
    assert forall i :: 0 <= i < |name| ==> s[i] == name[i];
    assert s[0] == name[0] && name[0] in name;
    assert IndexOf(s, ':') == |name|;
  }

  /** An address in brackets is that address, with its port or without. */
  lemma BracketsRead(address: string, more: string)
    requires forall i :: 0 <= i < |address| ==> address[i] != ']'
    ensures WithoutPort("[" + address + "]" + more) == address
  {
    var s := "[" + address + "]" + more;
    assert s[|address| + 1] == ']' && s[0] == '[' && s[1..|address| + 1] == address;
    assert forall i :: 0 <= i <= |address| ==> s[i] != ']';
    assert IndexOf(s, ']') == |address| + 1;
  }

  /** A host is compared in lower case, without the white space around it, its final dots or its brackets. */
  lemma TargetReads(left: string, name: string, dots: string, right: string)
    requires All(left, IsSpace) && All(right, IsSpace) && All(dots, IsDot)
    requires name != "" && !IsSpace(name[0]) && !IsSpace(name[|name| - 1]) && name[|name| - 1] != '.'
    ensures name[0] != '[' ==> Target(left + name + dots + right) == Lower(name)
    ensures Target("[" + name + "]") == Lower(name) && Target("[]") == ""
  {
    hide Trim, Trail, LowerChar, IsSpace;
    var s := name + dots;
    assert left + s + right == left + name + dots + right;
    EndsAreNoSpace(name, dots);
    TrimIs(left, s, right, IsSpace);
    TargetOfStripped(name, dots);
    var b := "[" + name + "]";
    EndsAreNoSpace(b, "");
    assert b + "" == b;
    TrimFixpoint(b, IsSpace);
    TargetOfStripped(b, "");
    assert Lower(b)[1..|b| - 1] == Lower(name);
    BracketsOnly();
  }

  lemma BracketsOnly()
    ensures Target("[]") == ""
  {
    TrimFixpoint("[]", IsSpace);
    TrimFixpoint("[]", IsDot);
    assert Lower("[]") == "[]";
    TrailIs("[]", "", IsDot);
    assert "[]" + "" == "[]";
  }

  lemma EndsAreNoSpace(name: string, dots: string)
    requires All(dots, IsDot) && name != "" && !IsSpace(name[0]) && !IsSpace(name[|name| - 1])
    ensures var s := name + dots; !IsSpace(s[0]) && !IsSpace(s[|s| - 1])
    ensures !IsSpace('[') && !IsSpace(']')
  {
  }

  lemma TargetOfStripped(name: string, dots: string)
    requires All(dots, IsDot) && name != "" && name[|name| - 1] != '.'
    ensures WithoutDots(Lower(name + dots)) == Lower(name)
    ensures Lower(name)[0] == '[' <==> name[0] == '['
    ensures Lower(name)[|name| - 1] == ']' <==> name[|name| - 1] == ']'
  {
    assert Lower(name + dots) == Lower(name) + dots;
    TrailIs(Lower(name), dots, IsDot);
  }

  /** A name without anything that an item gives a meaning of its own. */
  predicate Plain(s: string) {
    && s != "" && s[0] != '.' && s[|s| - 1] != '.'
    && forall i :: 0 <= i < |s| ==> s[i] !in [':', '/', '[', '*'] && LowerChar(s[i]) == s[i]
  }

  /** A plain name exempts itself and its subdomains; with a dot or a star in front, its subdomains only. */
  lemma PlainItem(t: string, name: string, ips: Addresses)
    requires Plain(name)
    ensures ItemExempts(t, name, ips) <==> t == name || EndsWith(t, "." + name)
    ensures ItemExempts(t, "." + name, ips) <==> EndsWith(t, "." + name)
    ensures ItemExempts(t, "*." + name, ips) <==> EndsWith(t, "." + name)
  {
    hide NameOf, WithoutDots, EndsWith;
    PlainName(name);
    PlainName("." + name);
    PlainName("*." + name);
    assert ("*." + name)[1..] == "." + name;
    assert name != "*" && "." + name != "*" && "*." + name != "*";
    assert ("." + name)[0] == '.' && ("." + name)[1] == name[0];
  }

  lemma PlainName(s: string)
    requires s != "" && s[0] != '[' && s[|s| - 1] != '.'
    requires forall i :: 0 <= i < |s| ==> s[i] !in [':', '/'] && LowerChar(s[i]) == s[i]
    ensures NameOf(s) == s && WithoutDots(s) == s && '/' !in NameOf(s)
  {
    hide Without, LowerChar;
    assert Lower(s) == s;
    NoScheme(s, "http://", 4);
    NoScheme(s, "https://", 5);
  }

  lemma NoScheme(s: string, prefix: string, k: nat)
    requires k < |prefix| && prefix[k] == ':' && forall i :: 0 <= i < |s| ==> s[i] != ':'
    ensures Without(s, prefix) == s
  {
    if |prefix| <= |s| {
      assert s[k] != prefix[k];
    }
  }
}
