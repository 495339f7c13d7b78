/**
 The Proxy connector (proxy_plan.py): a profile section of any shape is normalized into named
 proxies, each gets its own environment variables, and every consumer is told which way to
 go. */
module ProxyPlan {
  import opened PyText
  import opened NoProxy

  // ---------------------------------------------------------------- the section

  /** A value of the profile; numbers and the rest are known by how they print. */
  datatype Raw =
    | Null
    | Flag(b: bool)
    | Text(s: string)
    | Other(shown: string)
    | Items(items: seq<Raw>, shown: string)
    | Fields(fields: seq<(string, Raw)>, shown: string)

  function Shown(v: Raw): (r: string) {
    match v
    case Null => ""
    case Flag(b) => if b then "True" else "False"
    case Text(s) => s
    case Other(shown) => shown
    case Items(_, shown) => shown
    case Fields(_, shown) => shown
  }

  function TextOf(v: Raw): (r: string) {
    Strip(Shown(v))
  }

  function Get(fields: seq<(string, Raw)>, key: string): (r: Raw) {
    if fields == [] then Null else if fields[0].0 == key then fields[0].1 else Get(fields[1..], key)
  }

  predicate IsTrue(v: Raw) {
    if v.Flag? then v.b else Lower(TextOf(v)) in ["1", "true", "yes", "on"]
  }

  predicate Redacted(s: string) {
    Lower(s) in ["***redacted***", "[redacted]", "redacted"]
  }

  function Secret(v: Raw): (r: string) {
    if Redacted(TextOf(v)) then "" else TextOf(v)
  }

  function NoProxyOf(fields: seq<(string, Raw)>): (r: string) {
    if TextOf(Get(fields, "no_proxy")) != "" then TextOf(Get(fields, "no_proxy")) else TextOf(Get(fields, "noProxy"))
  }

  /** What a value reads as: nothing, or its text without the white space around it. */
  lemma TextReads(left: string, core: string, right: string)
    requires All(left, IsSpace) && All(right, IsSpace)
    requires core == "" || (!IsSpace(core[0]) && !IsSpace(core[|core| - 1]))
    ensures TextOf(Text(left + core + right)) == core && TextOf(Other(left + core + right)) == core
    ensures TextOf(Null) == "" && TextOf(Flag(true)) == "True" && TextOf(Flag(false)) == "False"
  {
    hide Trim, IsSpace;
    TrimIs(left, core, right, IsSpace);
    NothingToStrip();
    FlagsRead();
  }

  lemma FlagsRead()
    ensures Strip("True") == "True" && Strip("False") == "False"
  {
    TrimFixpoint("True", IsSpace);
    TrimFixpoint("False", IsSpace);
    hide Trim;
  }

  /** The words that switch something on, and the placeholders that stand for no secret. */
  lemma WordsRead(v: Raw)
    ensures v.Flag? ==> IsTrue(v) == v.b
    ensures !v.Flag? ==> (IsTrue(v) <==> Lower(TextOf(v)) == "1" || Lower(TextOf(v)) == "true"
                                         || Lower(TextOf(v)) == "yes" || Lower(TextOf(v)) == "on")
    ensures Secret(v) == if Lower(TextOf(v)) == "redacted" || Lower(TextOf(v)) == "[redacted]"
                            || Lower(TextOf(v)) == "***redacted***" then "" else TextOf(v)
  {
    hide TextOf, Lower;
  }

  /** An entry's list of exempt hosts is under either spelling; the first one wins unless it is blank. */
  lemma ExemptListReads(fields: seq<(string, Raw)>, i: nat, j: nat)
    requires i < |fields| && fields[i].0 == "no_proxy" && forall k :: 0 <= k < i ==> fields[k].0 != "no_proxy"
    requires j < |fields| && fields[j].0 == "noProxy" && forall k :: 0 <= k < j ==> fields[k].0 != "noProxy"
    ensures NoProxyOf(fields) == if TextOf(fields[i].1) != "" then TextOf(fields[i].1) else TextOf(fields[j].1)
  {
    hide TextOf;
    GetSkips(fields, "no_proxy", i);
    GetSkips(fields, "noProxy", j);
  }

  datatype Entry = Entry(name: string, url: string, username: string, password: string, noProxy: string)

  function EntryOf(name: string, fields: seq<(string, Raw)>): (e: Entry) {
    Entry(name, TextOf(Get(fields, "url")), Secret(Get(fields, "username")), Secret(Get(fields, "password")),
          NoProxyOf(fields))
  }

  predicate Named(entries: seq<Entry>, name: string) {
    exists i :: 0 <= i < |entries| && entries[i].name == name
  }

  function Decimal(n: nat): (s: string)
    ensures |s| > 0 && forall i :: 0 <= i < |s| ==> '0' <= s[i] <= '9'
  {
    if n < 10 then ['0' + n as char] else Decimal(n / 10) + ['0' + (n % 10) as char]
  }

  /** One more item of the list: it needs an address, and a name no earlier entry has. */
  function WithItem(entries: seq<Entry>, item: Raw, index: nat): (r: seq<Entry>) {
    if !item.Fields? || TextOf(Get(item.fields, "url")) == "" then entries
    else
      var given := TextOf(Get(item.fields, "name"));
      var name := if given != "" then given else "proxy-" + Decimal(index);
      if Named(entries, name) then entries else entries + [EntryOf(name, item.fields)]
  }

  function EntriesOf(items: seq<Raw>): (r: seq<Entry>) {
    if items == [] then [] else WithItem(EntriesOf(items[..|items| - 1]), items[|items| - 1], |items|)
  }

  type Pairs = seq<(string, string)>

  /** Assignment to a key of an ordered dictionary. */
  function Put(kvs: Pairs, key: string, value: string): (r: Pairs) {
    if kvs == [] then [(key, value)]
    else if kvs[0].0 == key then [(key, value)] + kvs[1..]
    else [kvs[0]] + Put(kvs[1..], key, value)
  }

  function WithAssignment(kvs: Pairs, field: (string, Raw)): (r: Pairs) {
    if Strip(field.0) == "" then kvs else Put(kvs, Strip(field.0), TextOf(field.1))
  }

  function AssignmentsOf(fields: seq<(string, Raw)>): (r: Pairs) {
    if fields == [] then [] else WithAssignment(AssignmentsOf(fields[..|fields| - 1]), fields[|fields| - 1])
  }

  datatype Section = Section(enabled: bool, default: string, proxies: seq<Entry>, assignments: Pairs)

  function FieldsOf(raw: Raw): (r: seq<(string, Raw)>) {
    if raw.Fields? then raw.fields else []
  }

  function ListedProxies(fields: seq<(string, Raw)>): (r: seq<Entry>) {
    if Get(fields, "proxies").Items? then EntriesOf(Get(fields, "proxies").items) else []
  }

  /** The listed proxies, or the flat address of old profiles as one proxy named `default`. */
  function Proxies(fields: seq<(string, Raw)>): (r: seq<Entry>) {
    var listed := ListedProxies(fields);
    if listed == [] && TextOf(Get(fields, "url")) != "" then [EntryOf("default", fields)] else listed
  }

  function DefaultName(proxies: seq<Entry>, wanted: string): (r: string) {
    if Named(proxies, wanted) then wanted else if proxies == [] then "" else proxies[0].name
  }

  function Normalize(raw: Raw): (s: Section) {
    var fields := FieldsOf(raw);
    var proxies := Proxies(fields);
    Section(IsTrue(Get(fields, "enabled")), DefaultName(proxies, TextOf(Get(fields, "default"))), proxies,
            if Get(fields, "assignments").Fields? then AssignmentsOf(Get(fields, "assignments").fields) else [])
  }

  method CollectEntries(items: seq<Raw>) returns (entries: seq<Entry>)
    ensures entries == EntriesOf(items)
  {
    hide Get, TextOf, Decimal, EntriesOf, Named, EntryOf;
    entries := [];
    var seen: set<string> := {};
    NothingListed();
    for i := 0 to |items|
      invariant entries == EntriesOf(items[..i])
      invariant forall name :: name in seen <==> Named(entries, name)
    {
      EntriesSnoc(items, i);
      if items[i].Fields? && TextOf(Get(items[i].fields, "url")) != "" {
        var given := TextOf(Get(items[i].fields, "name"));
        var name := if given != "" then given else "proxy-" + Decimal(i + 1);
        if name !in seen {
          NamedSnoc(entries, EntryOf(name, items[i].fields));
          EntryName(name, items[i].fields);
          seen := seen + {name};
          entries := entries + [EntryOf(name, items[i].fields)];
        }
      }
    }
    assert items[..|items|] == items;
  }

  lemma NothingListed()
    ensures EntriesOf([]) == [] && forall name :: !Named([], name)
  {
  }

  lemma EntriesSnoc(items: seq<Raw>, i: nat)
    requires i < |items|
    ensures EntriesOf(items[..i + 1]) == WithItem(EntriesOf(items[..i]), items[i], i + 1)
  {
    assert items[..i + 1][..i] == items[..i];
  }

  lemma NamedSnoc(entries: seq<Entry>, e: Entry)
    ensures forall name :: Named(entries + [e], name) <==> Named(entries, name) || name == e.name
  {
    var all := entries + [e];
    assert all[|entries|] == e;
    assert forall i :: 0 <= i < |entries| ==> all[i] == entries[i];
  }

  method CollectAssignments(fields: seq<(string, Raw)>) returns (assignments: Pairs)
    ensures assignments == AssignmentsOf(fields)
  {
    hide Put, Strip, TextOf;
    assignments := [];
    for i := 0 to |fields|
      invariant assignments == AssignmentsOf(fields[..i])
    {
      assert fields[..i + 1][..i] == fields[..i];
      var connector := Strip(fields[i].0);
      if connector != "" {
        assignments := Put(assignments, connector, TextOf(fields[i].1));
      }
    }
    assert fields[..|fields|] == fields;
  }

  /** The default is a name of the list: the wanted one if an entry bears it, otherwise the first one. */
  ghost predicate DefaultFits(names: seq<string>, wanted: string, default: string) {
    if names == [] then default == ""
    else if wanted in names then default == wanted
    else default == names[0]
  }

  ghost function Names(entries: seq<Entry>): (r: seq<string>)
    ensures |r| == |entries|
  {
    seq(|entries|, i requires 0 <= i < |entries| => entries[i].name)
  }

  lemma DefaultNameFits(entries: seq<Entry>, wanted: string)
    ensures DefaultFits(Names(entries), wanted, DefaultName(entries, wanted))
  {
    assert forall i :: 0 <= i < |entries| ==> Names(entries)[i] == entries[i].name;
  }

  method NormalizeProxySection(raw: Raw) returns (s: Section)
    ensures s == Normalize(raw)
    ensures DefaultFits(Names(s.proxies), TextOf(Get(FieldsOf(raw), "default")), s.default)
  {
    hide EntriesOf, AssignmentsOf, Get, TextOf, IsTrue, EntryOf, DefaultName, DefaultFits, Names;
    var fields := FieldsOf(raw);
    var entries: seq<Entry> := [];
    if Get(fields, "proxies").Items? {
      entries := CollectEntries(Get(fields, "proxies").items);
    }
    if entries == [] && TextOf(Get(fields, "url")) != "" {
      entries := [EntryOf("default", fields)];
    }
    var assignments: Pairs := [];
    if Get(fields, "assignments").Fields? {
      assignments := CollectAssignments(Get(fields, "assignments").fields);
    }
    DefaultNameFits(entries, TextOf(Get(fields, "default")));
    s := Section(IsTrue(Get(fields, "enabled")), DefaultName(entries, TextOf(Get(fields, "default"))), entries,
                 assignments);
  }

  /** A section as a profile writes it down. */
  function ToRaw(s: Section): (raw: Raw) {
    Fields([("enabled", Flag(s.enabled)), ("default", Text(s.default)), ("proxies", Items(RawEntries(s.proxies), "")),
            ("assignments", Fields(RawPairs(s.assignments), ""))], "")
  }

  function RawEntry(e: Entry): (raw: Raw) {
    Fields([("name", Text(e.name)), ("url", Text(e.url)), ("username", Text(e.username)),
            ("password", Text(e.password)),
            ("no_proxy", Text(e.noProxy))], "")
  }

  function RawEntries(es: seq<Entry>): (r: seq<Raw>)
    ensures |r| == |es|
  {
    seq(|es|, i requires 0 <= i < |es| => RawEntry(es[i]))
  }

  function RawPairs(kvs: Pairs): (r: seq<(string, Raw)>)
    ensures |r| == |kvs|
  {
    seq(|kvs|, i requires 0 <= i < |kvs| => (kvs[i].0, Text(kvs[i].1)))
  }

  predicate Stripped(s: string) {
    Strip(s) == s
  }

  ghost predicate NoPlaceholder(s: string) {
    Lower(s) != "redacted" && Lower(s) != "[redacted]" && Lower(s) != "***redacted***"
  }

  ghost predicate GoodEntry(e: Entry) {
    && Stripped(e.name) && e.name != "" && Stripped(e.url) && e.url != "" && Stripped(e.noProxy)
    && Stripped(e.username) && NoPlaceholder(e.username) && Stripped(e.password) && NoPlaceholder(e.password)
  }

  ghost predicate GoodEntries(es: seq<Entry>) {
    && (forall i :: 0 <= i < |es| ==> GoodEntry(es[i]))
    && (forall i, j :: 0 <= i < j < |es| ==> es[i].name != es[j].name)
  }

  ghost predicate GoodPairs(kvs: Pairs) {
    && (forall i :: 0 <= i < |kvs| ==> Stripped(kvs[i].0) && kvs[i].0 != "" && Stripped(kvs[i].1))
    && (forall i, j :: 0 <= i < j < |kvs| ==> kvs[i].0 != kvs[j].0)
  }

  /** The named-proxies shape: clean distinct names with addresses, no redacted secret, a default that is one of
      them. */
  ghost predicate IsNormal(s: Section) {
    && GoodEntries(s.proxies) && GoodPairs(s.assignments)
    && (if s.proxies == [] then s.default == "" else Named(s.proxies, s.default))
  }

  lemma TextStripped(v: Raw)
    ensures Stripped(TextOf(v))
    ensures v.Text? && Stripped(v.s) ==> TextOf(v) == v.s
  {
    StripTwice(Shown(v));
  }

  lemma SecretGood(v: Raw)
    ensures Stripped(Secret(v)) && NoPlaceholder(Secret(v))
    ensures v.Text? && Stripped(v.s) && NoPlaceholder(v.s) ==> Secret(v) == v.s
  {
    hide Strip;
    TextStripped(v);
    NothingToStrip();
    assert |Lower("")| == 0;
  }

  lemma NothingToStrip()
    ensures Strip("") == ""
  {
  }

  lemma NumberedName(index: nat)
    ensures Stripped("proxy-" + Decimal(index))
  {
    TrimFixpoint("proxy-" + Decimal(index), IsSpace);
  }

  lemma EntryGood(name: string, fields: seq<(string, Raw)>)
    requires Stripped(name) && name != "" && TextOf(Get(fields, "url")) != ""
    ensures GoodEntry(EntryOf(name, fields))
  {
    hide Stripped, NoPlaceholder, Get, TextOf, Secret;
    TextStripped(Get(fields, "url"));
    TextStripped(Get(fields, "no_proxy"));
    TextStripped(Get(fields, "noProxy"));
    SecretGood(Get(fields, "username"));
    SecretGood(Get(fields, "password"));
  }

  lemma WithItemGood(entries: seq<Entry>, item: Raw, index: nat)
    requires GoodEntries(entries)
    ensures GoodEntries(WithItem(entries, item, index))
  {
    hide Stripped, Get, TextOf, GoodEntry, EntryOf;
    if WithItem(entries, item, index) != entries {
      var given := TextOf(Get(item.fields, "name"));
      var name := if given != "" then given else "proxy-" + Decimal(index);
      TextStripped(Get(item.fields, "name"));
      NumberedName(index);
      EntryGood(name, item.fields);
      EntryName(name, item.fields);
    }
  }

  lemma EntryName(name: string, fields: seq<(string, Raw)>)
    ensures EntryOf(name, fields).name == name
  {
  }

  lemma {:induction false} EntriesGood(items: seq<Raw>)
    ensures GoodEntries(EntriesOf(items))
  {
    hide WithItem, GoodEntries;
    if items == [] {
      NoEntriesGood();
    } else {
      EntriesGood(items[..|items| - 1]);
      WithItemGood(EntriesOf(items[..|items| - 1]), items[|items| - 1], |items|);
    }
  }

  lemma NoEntriesGood()
    ensures GoodEntries([])
  {
  }

  /** Putting a key keeps the keys that are there and in their places. */
  lemma {:induction false} PutKeeps(kvs: Pairs, key: string, value: string)
    ensures var r := Put(kvs, key, value);
            && |kvs| <= |r| <= |kvs| + 1
            && (forall i :: 0 <= i < |kvs| ==>
                  r[i] == if kvs[i].0 == key && (forall j :: 0 <= j < i ==> kvs[j].0 != key) then (key, value)
                          else kvs[i])
            && (|r| > |kvs| <==> forall i :: 0 <= i < |kvs| ==> kvs[i].0 != key)
            && (|r| > |kvs| ==> r == kvs + [(key, value)])
  {
    if kvs != [] && kvs[0].0 != key {
      PutKeeps(kvs[1..], key, value);
      var rest := Put(kvs[1..], key, value);
      assert forall i :: 0 < i < |kvs| ==> kvs[1..][i - 1] == kvs[i] && Put(kvs, key, value)[i] == rest[i - 1];
      assert |rest| > |kvs| - 1 ==> Put(kvs, key, value) == kvs + [(key, value)];
    }
  }

  lemma PutGood(kvs: Pairs, key: string, value: string)
    requires GoodPairs(kvs) && Stripped(key) && key != "" && Stripped(value)
    ensures GoodPairs(Put(kvs, key, value))
  {
    hide Put, Stripped;
    PutKeeps(kvs, key, value);
  }

  lemma {:induction false} AssignmentsGood(fields: seq<(string, Raw)>)
    ensures GoodPairs(AssignmentsOf(fields))
  {
    hide GoodPairs, Put, Strip, TextOf;
    if fields == [] {
      NoPairsGood();
    } else {
      var last := fields[|fields| - 1];
      AssignmentsGood(fields[..|fields| - 1]);
      if Strip(last.0) != "" {
        StripTwice(last.0);
        TextStripped(last.1);
        PutGood(AssignmentsOf(fields[..|fields| - 1]), Strip(last.0), TextOf(last.1));
      }
    }
  }

  lemma NoPairsGood()
    ensures GoodPairs([])
  {
  }

  /** Whatever comes in, a normal section comes out. */
  lemma NormalizeIsNormal(raw: Raw)
    ensures IsNormal(Normalize(raw))
  {
    hide EntriesOf, AssignmentsOf, Get, TextOf, IsTrue, EntryOf, GoodEntry, GoodPairs, Stripped;
    var fields := FieldsOf(raw);
    NoEntriesGood();
    NoPairsGood();
    if Get(fields, "proxies").Items? {
      EntriesGood(Get(fields, "proxies").items);
    }
    if Get(fields, "assignments").Fields? {
      AssignmentsGood(Get(fields, "assignments").fields);
    }
    if TextOf(Get(fields, "url")) != "" {
      DefaultStripped();
      EntryGood("default", fields);
    }
  }

  lemma DefaultStripped()
    ensures Stripped("default")
  {
    TrimFixpoint("default", IsSpace);
  }

  lemma RawEntryBack(e: Entry)
    requires GoodEntry(e)
    ensures var f := RawEntry(e).fields;
            EntryOf(e.name, f) == e && TextOf(Get(f, "url")) == e.url && TextOf(Get(f, "name")) == e.name
  {
    hide Strip, NoPlaceholder, Secret;
    var f := RawEntry(e).fields;
    GetOf(e);
    TextStripped(Text(e.name));
    TextStripped(Text(e.url));
    TextStripped(Text(e.noProxy));
    SecretGood(Text(e.username));
    SecretGood(Text(e.password));
    NothingToStrip();
  }

  lemma GetOf(e: Entry)
    ensures var f := RawEntry(e).fields;
            && Get(f, "name") == Text(e.name) && Get(f, "url") == Text(e.url) && Get(f, "username") == Text(e.username)
            && Get(f, "password") == Text(e.password) && Get(f, "no_proxy") == Text(e.noProxy)
               && Get(f, "noProxy") == Null
  {
    var f := RawEntry(e).fields;
    GetSkips(f, "name", 0);
    GetSkips(f, "url", 1);
    GetSkips(f, "username", 2);
    GetSkips(f, "password", 3);
    GetSkips(f, "no_proxy", 4);
    GetMisses(f, "noProxy");
  }

  lemma {:induction false} GetSkips(fields: seq<(string, Raw)>, key: string, n: nat)
    requires n < |fields| && fields[n].0 == key && forall i :: 0 <= i < n ==> fields[i].0 != key
    ensures Get(fields, key) == fields[n].1
  {
    if n > 0 {
      GetSkips(fields[1..], key, n - 1);
    }
  }

  lemma {:induction false} GetMisses(fields: seq<(string, Raw)>, key: string)
    requires forall i :: 0 <= i < |fields| ==> fields[i].0 != key
    ensures Get(fields, key) == Null
  {
    if fields != [] {
      GetMisses(fields[1..], key);
    }
  }

  lemma {:induction false} RawEntriesBack(es: seq<Entry>)
    requires GoodEntries(es)
    ensures EntriesOf(RawEntries(es)) == es
  {
    hide GoodEntry, RawEntry, EntryOf, Get, TextOf;
    if es != [] {
      var n := |es| - 1;
      RawEntriesBack(es[..n]);
      RawEntryBack(es[n]);
      assert RawEntries(es)[..n] == RawEntries(es[..n]);
      GoodEntryHasUrl(es[n]);
      RawEntryIsFields(es[n]);
      assert !Named(es[..n], es[n].name);
      assert es[..n] + [es[n]] == es;
    }
  }

  lemma GoodEntryHasUrl(e: Entry)
    requires GoodEntry(e)
    ensures e.url != "" && e.name != ""
  {
  }

  lemma RawEntryIsFields(e: Entry)
    ensures RawEntry(e).Fields?
  {
  }

  lemma {:induction false} RawPairsBack(kvs: Pairs)
    requires GoodPairs(kvs)
    ensures AssignmentsOf(RawPairs(kvs)) == kvs
  {
    hide Put, Strip, TextOf;
    if kvs != [] {
      var n := |kvs| - 1;
      RawPairsBack(kvs[..n]);
      assert RawPairs(kvs)[..n] == RawPairs(kvs[..n]);
      TextStripped(Text(kvs[n].1));
      PutKeeps(kvs[..n], kvs[n].0, kvs[n].1);
      assert kvs[..n] + [kvs[n]] == kvs;
    }
  }

  /** Normalizing leaves exactly the normal sections alone. */
  lemma NormalizeFixpoint(s: Section)
    ensures Normalize(ToRaw(s)) == s <==> IsNormal(s)
  {
    hide EntriesOf, AssignmentsOf, RawEntries, RawPairs, GoodEntries, GoodPairs, Get, TextOf;
    NormalizeIsNormal(ToRaw(s));
    if IsNormal(s) {
      SectionFields(s);
      RawEntriesBack(s.proxies);
      RawPairsBack(s.assignments);
      if s.proxies != [] {
        NamedIsStripped(s.proxies, s.default);
      }
      TextStripped(Text(s.default));
      TextOfNull();
    }
  }

  lemma TextOfNull()
    ensures TextOf(Null) == "" && TextOf(Text("")) == ""
  {
  }

  lemma NamedIsStripped(es: seq<Entry>, name: string)
    requires GoodEntries(es) && Named(es, name)
    ensures Stripped(name)
  {
    hide Stripped;
  }

  lemma SectionFields(s: Section)
    ensures var f := FieldsOf(ToRaw(s));
            && Get(f, "enabled") == Flag(s.enabled) && Get(f, "default") == Text(s.default) && Get(f, "url") == Null
            && Get(f, "proxies") == Items(RawEntries(s.proxies), "")
               && Get(f, "assignments") == Fields(RawPairs(s.assignments), "")
  {
    var f := FieldsOf(ToRaw(s));
    GetSkips(f, "enabled", 0);
    GetSkips(f, "default", 1);
    GetSkips(f, "proxies", 2);
    GetSkips(f, "assignments", 3);
    GetMisses(f, "url");
  }

  /** Normalizing twice is normalizing once. */
  lemma NormalizeTwice(raw: Raw)
    ensures Normalize(ToRaw(Normalize(raw))) == Normalize(raw)
  {
    NormalizeIsNormal(raw);
    NormalizeFixpoint(Normalize(raw));
  }

  // ------------------------------------------------- environment variable names

  predicate IsAlnumNot(c: char) {
    !IsAsciiAlnum(c)
  }

  predicate IsUnderscore(c: char) {
    c == '_'
  }

  /** The name as a segment of an environment variable. */
  function EnvToken(name: string): (r: string)
    ensures r != ""
  {
    var t := Upper(Trim(ReplaceRuns(name, IsAlnumNot, '_'), IsUnderscore));
    if t == "" then "DEFAULT" else t
  }

  lemma EnvTokenReads(a: string, run: string, b: string)
    requires a != "" && b != "" && run != ""
    requires (forall i :: 0 <= i < |a| ==> IsAsciiAlnum(a[i])) && (forall i :: 0 <= i < |b| ==> IsAsciiAlnum(b[i]))
    requires forall i :: 0 <= i < |run| ==> !IsAsciiAlnum(run[i])
    ensures EnvToken(a + run + b) == Upper(a) + "_" + Upper(b) && EnvToken(a) == Upper(a) && EnvToken(run) == "DEFAULT"
  {
    hide ReplaceRuns, Trim;
    ReplaceRunsJoins(a, run, b, IsAlnumNot, '_');
    ReplaceRunsNoop(a, IsAlnumNot, '_');
    TrimFixpoint(a + ['_'] + b, IsUnderscore);
    TrimFixpoint(a, IsUnderscore);
    ReplaceRunsJoins("", run, "", IsAlnumNot, '_');
    assert "" + run + "" == run && "" + ['_'] + "" == "_";
    TrimIs("_", "", "", IsUnderscore);
    assert "_" + "" + "" == "_";
    assert Upper(a + ['_'] + b) == Upper(a) + "_" + Upper(b);
    assert |Upper("")| == 0;
  }

  /** The number a row of digits stands for. */
  ghost function Value(s: string): (n: int) {
    if s == "" then 0 else 10 * Value(s[..|s| - 1]) + (s[|s| - 1] as int - '0' as int)
  }

  lemma {:induction false} DecimalReads(n: nat)
    ensures Value(Decimal(n)) == n && (n > 0 ==> Decimal(n)[0] != '0')
  {
    if n >= 10 {
      DecimalReads(n / 10);
      assert Decimal(n)[..|Decimal(n)| - 1] == Decimal(n / 10);
    } else {
      assert Decimal(n)[..0] == "";
    }
  }

  lemma {:induction false} DecimalInjective(m: nat, n: nat)
    requires Decimal(m) == Decimal(n)
    ensures m == n
  {
    var a, b := Decimal(m), Decimal(n);
    if m >= 10 && n >= 10 {
      assert a[..|a| - 1] == Decimal(m / 10) && b[..|b| - 1] == Decimal(n / 10);
      DecimalInjective(m / 10, n / 10);
      assert a[|a| - 1] == '0' + (m % 10) as char && b[|b| - 1] == '0' + (n % 10) as char;
    } else {
      assert m >= 10 ==> |a| > 1;
      assert n >= 10 ==> |b| > 1;
      assert m < 10 && n < 10 ==> a[0] == '0' + m as char && b[0] == '0' + n as char;
    }
  }

  /** The tokens tried in turn: the bare one, then with the suffixes from 2 on. */
  function Nth(token: string, k: nat): (r: string) {
    if k <= 1 then token else token + "_" + Decimal(k)
  }

  lemma NthInjective(token: string, j: nat, k: nat)
    requires 1 <= j < k
    ensures Nth(token, j) != Nth(token, k)
  {
    if j > 1 && Nth(token, j) == Nth(token, k) {
      var n := |token| + 1;
      assert Nth(token, j)[n..] == Decimal(j) && Nth(token, k)[n..] == Decimal(k);
      DecimalInjective(j, k);
    }
  }

  /** The first token of the sequence from the k-th on that is not taken. */
  function FirstFree(token: string, taken: set<string>, k: nat): (r: string)
    decreases |taken|
  {
    if Nth(token, k) in taken then FirstFree(token, taken - {Nth(token, k)}, k + 1) else Nth(token, k)
  }

  /** It is free, and every one before it is taken. */
  lemma {:induction false} FirstFreeFits(token: string, taken: set<string>, k: nat)
    requires 1 <= k
    ensures FirstFree(token, taken, k) !in taken
    ensures exists n: nat :: k <= n && FirstFree(token, taken, k) == Nth(token, n)
                             && forall j: nat :: k <= j < n ==> Nth(token, j) in taken
    decreases |taken|
  {
    hide Nth;
    var t := Nth(token, k);
    if t in taken {
      FirstFreeFits(token, taken - {t}, k + 1);
      var n: nat :| k + 1 <= n && FirstFree(token, taken - {t}, k + 1) == Nth(token, n)
                    && forall j: nat :: k + 1 <= j < n ==> Nth(token, j) in taken - {t};
      NthInjective(token, k, n);
    }
  }

  /** The suffix search: it ends, because the tokens tried are all different and only finitely many are taken. */
  method UniqueToken(token: string, tokens: set<string>) returns (unique: string)
    ensures unique == FirstFree(token, tokens, 1)
  {
    hide Decimal;
    unique := token;
    var suffix := 2;
    ghost var left := tokens;
    while unique in tokens
      invariant 2 <= suffix && unique == Nth(token, suffix - 1) && left <= tokens
      invariant forall j: nat :: suffix - 1 <= j && Nth(token, j) in tokens ==> Nth(token, j) in left
      invariant FirstFree(token, tokens, 1) == FirstFree(token, left, suffix - 1)
      decreases left
    {
      forall j: nat | suffix <= j ensures Nth(token, j) != unique {
        NthInjective(token, suffix - 1, j);
      }
      left := left - {unique};
      unique := token + "_" + Decimal(suffix);
      suffix := suffix + 1;
    }
  }
}
