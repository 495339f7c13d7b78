/**
 Which way each consumer goes (proxy_plan.py): the plan built from a section, the environment it
 sets, and the choice for a connector, which must lead to the same route as the plain
 rule. */
module ProxyRouting {
  import opened Seqs
  import opened PyText
  import opened NoProxy
  import opened ProxyPlan

  datatype Proxy = Proxy(entry: Entry, token: string)

  datatype Plan = Plan(enabled: bool, entries: seq<Proxy>, default: Option<Proxy>, assignments: map<string, string>)

  function Tokens(proxies: seq<Proxy>): (r: set<string>)
    ensures forall t :: t in r <==> exists i :: 0 <= i < |proxies| && proxies[i].token == t
  {
    set i | 0 <= i < |proxies| :: proxies[i].token
  }

  /** Every entry with the first token of its own that no earlier entry took. */
  function WithTokens(entries: seq<Entry>): (r: seq<Proxy>)
    ensures |r| == |entries|
  {
    if entries == [] then []
    else
      var front := WithTokens(entries[..|entries| - 1]);
      var last := entries[|entries| - 1];
      front + [Proxy(last, FirstFree(EnvToken(last.name), Tokens(front), 1))]
  }

  function EntryNamed(proxies: seq<Proxy>, name: string): (r: Option<Proxy>)
    ensures r.Some? ==> r.value in proxies && r.value.entry.name == name
    ensures r.None? ==> forall i :: 0 <= i < |proxies| ==> proxies[i].entry.name != name
  {
    if proxies == [] then None
    else if proxies[0].entry.name == name then Some(proxies[0])
    else EntryNamed(proxies[1..], name)
  }

  function DefaultOf(proxies: seq<Proxy>, name: string): (r: Option<Proxy>) {
    if EntryNamed(proxies, name).Some? then EntryNamed(proxies, name)
    else if proxies != [] then Some(proxies[0])
    else None
  }

  /** A dictionary of the pairs: a later pair overrides. */
  function ToMap(kvs: Pairs): (r: map<string, string>) {
    if kvs == [] then map[] else ToMap(kvs[..|kvs| - 1])[kvs[|kvs| - 1].0 := kvs[|kvs| - 1].1]
  }

  /** There is a default as soon as there is an entry: the one with the wanted name, otherwise the first. */
  ghost predicate DefaultsTo(entries: seq<Proxy>, wanted: string, default: Option<Proxy>) {
    && (default.None? <==> entries == [])
    && (forall p :: p in entries && p.entry.name == wanted ==> default == Some(p))
    && (entries != [] && (forall p :: p in entries ==> p.entry.name != wanted) ==> default == Some(entries[0]))
  }

  /** The text of the section's field for the default proxy. */
  function Wanted(raw: Raw): (r: string) {
    if raw.Fields? then TextOf(Get(raw.fields, "default")) else ""
  }

  lemma BuiltDefault(raw: Raw)
    ensures DefaultsTo(Build(raw).entries, Wanted(raw), Build(raw).default)
  {
    hide WithTokens, ToMap, DefaultOf, DefaultName, TextOf, IsTrue, AssignmentsOf, Proxies, DefaultsTo, DistinctNames;
    TokensDistinct(Proxies(FieldsOf(raw)));
    BuiltIsSound(raw);
    WantedIs(raw);
    DefaultIs(Proxies(FieldsOf(raw)), Build(raw).entries, Wanted(raw));
  }

  lemma WantedIs(raw: Raw)
    ensures Wanted(raw) == TextOf(Get(FieldsOf(raw), "default"))
  {
    NothingToStrip();
    hide Strip;
  }

  lemma DefaultIs(listed: seq<Entry>, proxies: seq<Proxy>, wanted: string)
    requires DistinctNames(proxies) && |proxies| == |listed|
    requires forall i :: 0 <= i < |listed| ==> proxies[i].entry == listed[i]
    ensures DefaultsTo(proxies, wanted, DefaultOf(proxies, DefaultName(listed, wanted)))
  {
    hide EntryNamed;
    if Named(listed, wanted) {
      var i :| 0 <= i < |listed| && listed[i].name == wanted;
      assert proxies[i] in proxies;
      SameNames(proxies, wanted);
    } else if listed != [] {
      assert forall i :: 0 <= i < |listed| ==> proxies[i].entry.name != wanted;
      assert proxies[0] in proxies;
      SameNames(proxies, listed[0].name);
    }
  }

  lemma SameNames(proxies: seq<Proxy>, name: string)
    requires DistinctNames(proxies)
    ensures forall p :: p in proxies && p.entry.name == name ==> EntryNamed(proxies, name) == Some(p)
  {
    hide DistinctNames, EntryNamed;
    forall p | p in proxies && p.entry.name == name ensures EntryNamed(proxies, name) == Some(p) {
      var q := EntryNamed(proxies, name);
      SameName(proxies, p, q.value);
    }
  }

  /** The assignments are looked up as they were listed. */
  lemma {:induction false} ToMapHolds(kvs: Pairs)
    requires forall i, j :: 0 <= i < j < |kvs| ==> kvs[i].0 != kvs[j].0
    ensures forall i :: 0 <= i < |kvs| ==> kvs[i].0 in ToMap(kvs) && ToMap(kvs)[kvs[i].0] == kvs[i].1
    ensures forall k :: k in ToMap(kvs) ==> exists i :: 0 <= i < |kvs| && kvs[i].0 == k
  {
    if kvs != [] {
      ToMapHolds(kvs[..|kvs| - 1]);
    }
  }

  function Build(raw: Raw): (p: Plan) {
    var s := Normalize(raw);
    var proxies := WithTokens(s.proxies);
    Plan(s.enabled, proxies, DefaultOf(proxies, s.default), ToMap(s.assignments))
  }

  method BuildProxyPlan(raw: Raw) returns (p: Plan)
    ensures p == Build(raw)
    ensures DefaultsTo(p.entries, Wanted(raw), p.default)
  {
    hide Normalize, FirstFree, EnvToken, Tokens, ToMap, WithTokens, EntryNamed, DefaultOf, Wanted, DefaultsTo,
         DefaultFits, Names;
    BuiltDefault(raw);
    var s := NormalizeProxySection(raw);
    var proxies: seq<Proxy> := [];
    var tokens: set<string> := {};
    NoTokens();
    for i := 0 to |s.proxies|
      invariant proxies == WithTokens(s.proxies[..i]) && tokens == Tokens(proxies)
    {
      var unique := UniqueToken(EnvToken(s.proxies[i].name), tokens);
      WithTokensSnoc(s.proxies, i);
      TokensSnoc(proxies, Proxy(s.proxies[i], unique));
      tokens := tokens + {unique};
      proxies := proxies + [Proxy(s.proxies[i], unique)];
    }
    assert s.proxies[..|s.proxies|] == s.proxies;
    var default := FindDefault(proxies, s.default);
    p := Plan(s.enabled, proxies, default, ToMap(s.assignments));
  }

  method FindDefault(proxies: seq<Proxy>, name: string) returns (r: Option<Proxy>)
    ensures r == DefaultOf(proxies, name)
  {
    assert proxies[0..] == proxies;
    for i := 0 to |proxies|
      invariant EntryNamed(proxies[i..], name) == EntryNamed(proxies, name)
    {
      if proxies[i].entry.name == name {
        return Some(proxies[i]);
      }
      assert proxies[i..][1..] == proxies[i + 1..];
    }
    return if proxies != [] then Some(proxies[0]) else None;
  }

  lemma NoTokens()
    ensures WithTokens([]) == [] && Tokens([]) == {}
  {
  }

  lemma WithTokensSnoc(entries: seq<Entry>, i: nat)
    requires i < |entries|
    ensures WithTokens(entries[..i + 1])
            == WithTokens(entries[..i])
                + [Proxy(entries[i], FirstFree(EnvToken(entries[i].name), Tokens(WithTokens(entries[..i])), 1))]
  {
    hide FirstFree, EnvToken, Tokens;
    assert entries[..i + 1][..i] == entries[..i];
  }

  lemma TokensSnoc(proxies: seq<Proxy>, p: Proxy)
    ensures Tokens(proxies + [p]) == Tokens(proxies) + {p.token}
  {
    var all := proxies + [p];
    assert all[|proxies|] == p;
    assert forall i :: 0 <= i < |proxies| ==> all[i] == proxies[i];
  }

  ghost predicate DistinctTokens(proxies: seq<Proxy>) {
    forall i, j :: 0 <= i < j < |proxies| ==> proxies[i].token != proxies[j].token
  }

  /** For any names the tokens are pairwise distinct. */
  lemma {:induction false} TokensDistinct(entries: seq<Entry>)
    ensures DistinctTokens(WithTokens(entries))
    ensures forall i :: 0 <= i < |entries| ==> WithTokens(entries)[i].entry == entries[i]
  {
    hide FirstFree, EnvToken;
    if entries != [] {
      var n := |entries| - 1;
      TokensDistinct(entries[..n]);
      var front := WithTokens(entries[..n]);
      FirstFreeFits(EnvToken(entries[n].name), Tokens(front), 1);
    }
  }

  // ------------------------------------------------------ credential variables

  function UserKey(token: string): (r: string) {
    "EFP_PROXY_" + token + "_USERNAME"
  }

  function PasswordKey(token: string): (r: string) {
    "EFP_PROXY_" + token + "_PASSWORD"
  }

  lemma KeysDiffer(a: string, b: string)
    ensures UserKey(a) != PasswordKey(b)
    ensures a != b ==> UserKey(a) != UserKey(b) && PasswordKey(a) != PasswordKey(b)
  {
    var u, v, p, q := UserKey(a), UserKey(b), PasswordKey(a), PasswordKey(b);
    assert u[10..|u| - 9] == a && v[10..|v| - 9] == b && p[10..|p| - 9] == a && q[10..|q| - 9] == b;
    assert u[|u| - 1] == 'E' && q[|q| - 1] == 'D';
  }

  function SetIf(env: map<string, string>, key: string, value: string): (r: map<string, string>) {
    if value != "" then env[key := value] else env
  }

  /** The user name and password variables of every proxy that has them. */
  function Credentials(proxies: seq<Proxy>): (env: map<string, string>) {
    if proxies == [] then map[]
    else
      var p := proxies[|proxies| - 1];
      SetIf(SetIf(Credentials(proxies[..|proxies| - 1]), UserKey(p.token), p.entry.username), PasswordKey(p.token),
            p.entry.password)
  }

  method CredentialEnvironment(plan: Plan) returns (env: map<string, string>)
    ensures env == if plan.enabled then Credentials(plan.entries) else map[]
  {
    env := map[];
    if !plan.enabled {
      return;
    }
    for i := 0 to |plan.entries|
      invariant env == Credentials(plan.entries[..i])
    {
      assert plan.entries[..i + 1][..i] == plan.entries[..i];
      var item := plan.entries[i];
      if item.entry.username != "" {
        env := env[UserKey(item.token) := item.entry.username];
      }
      if item.entry.password != "" {
        env := env[PasswordKey(item.token) := item.entry.password];
      }
    }
    assert plan.entries[..|plan.entries|] == plan.entries;
  }

  /** The variable holds the value, or nothing when the value is empty. */
  predicate Holds(env: map<string, string>, key: string, value: string) {
    if value == "" then key !in env else key in env && env[key] == value
  }

  /** Setting the variables of one proxy leaves those of others alone. */
  lemma SetIfHolds(env: map<string, string>, p: Proxy)
    requires UserKey(p.token) !in env && PasswordKey(p.token) !in env
    ensures var after := SetIf(SetIf(env, UserKey(p.token), p.entry.username), PasswordKey(p.token), p.entry.password);
            && Holds(after, UserKey(p.token), p.entry.username) && Holds(after, PasswordKey(p.token), p.entry.password)
            && (forall t, v :: t != p.token ==>
                  && (Holds(after, UserKey(t), v) <==> Holds(env, UserKey(t), v))
                  && (Holds(after, PasswordKey(t), v) <==> Holds(env, PasswordKey(t), v)))
            && (forall t :: t != p.token ==>
                  && (UserKey(t) in after <==> UserKey(t) in env)
                  && (PasswordKey(t) in after <==> PasswordKey(t) in env))
  {
    hide UserKey, PasswordKey;
    forall t ensures UserKey(t) != PasswordKey(p.token) && PasswordKey(t) != UserKey(p.token)
                     && (t != p.token ==> UserKey(t) != UserKey(p.token) && PasswordKey(t) != PasswordKey(p.token)) {
      KeysDiffer(t, p.token);
      KeysDiffer(p.token, t);
    }
  }

  lemma {:induction false} CredentialsHold(proxies: seq<Proxy>)
    requires DistinctTokens(proxies)
    ensures forall i :: 0 <= i < |proxies| ==>
              Holds(Credentials(proxies), UserKey(proxies[i].token), proxies[i].entry.username)
              && Holds(Credentials(proxies), PasswordKey(proxies[i].token), proxies[i].entry.password)
    ensures forall t :: (forall i :: 0 <= i < |proxies| ==> proxies[i].token != t) ==>
              UserKey(t) !in Credentials(proxies) && PasswordKey(t) !in Credentials(proxies)
  {
    hide UserKey, PasswordKey, Holds, SetIf;
    if proxies != [] {
      var n := |proxies| - 1;
      CredentialsHold(proxies[..n]);
      assert forall i :: 0 <= i < n ==> proxies[..n][i] == proxies[i];
      SetIfHolds(Credentials(proxies[..n]), proxies[n]);
    }
  }

  /** Every proxy's own variable names look up exactly its own credentials, whatever the proxies are called. */
  lemma OwnCredentials(raw: Raw, i: nat)
    requires i < |Build(raw).entries|
    ensures var env, p := Credentials(Build(raw).entries), Build(raw).entries[i];
            && p.entry == Normalize(raw).proxies[i]
            && Holds(env, "EFP_PROXY_" + p.token + "_USERNAME", p.entry.username)
            && Holds(env, "EFP_PROXY_" + p.token + "_PASSWORD", p.entry.password)
  {
    hide Normalize, WithTokens, Credentials, Holds;
    TokensDistinct(Normalize(raw).proxies);
    CredentialsHold(Build(raw).entries);
  }

  // -------------------------------------------------------------------- routing

  datatype Kind = Environment | NoneAtAll | Through

  datatype Source = FromDisabled | FromEnvironment | FromAssignment | FromInstance | FromDefault | FromNoProxy
                  | FromUnknown

  datatype Choice = Choice(kind: Kind, source: Source, proxy: Option<Proxy>, url: string)

  /** Outside the plan: how an address and its credentials make one URL, what reads as a URL, and what is known of
      addresses. */
  datatype World = World(render: (string, string, string) -> string, looksLikeUrl: string -> bool, ips: Addresses)

  function UrlOf(e: Entry, w: World): (r: string) {
    w.render(e.url, e.username, e.password)
  }

  predicate NoneWord(s: string) {
    Lower(s) in ["none", "direct", "off"]
  }

  predicate EnvironmentWord(s: string) {
    Lower(s) in ["", "env", "environment"]
  }

  predicate Off(e: Entry, host: string, w: World) {
    Exempts(host, NoProxyText(e.noProxy, DEFAULT_NO_PROXY), w.ips)
  }

  function EntryChoice(plan: Plan, p: Proxy, host: string, source: Source, w: World): (c: Choice) {
    if host != "" && Off(p.entry, host, w) then Choice(NoneAtAll, FromNoProxy, Some(p), "")
    else if source == FromAssignment && plan.default.Some? && p.entry.name == plan.default.value.entry.name then
      Choice(Environment, FromDefault, Some(p), "")
    else Choice(Through, source, Some(p), "")
  }

  function Assigned(plan: Plan, connector: string): (r: string) {
    if connector in plan.assignments then Strip(plan.assignments[connector]) else ""
  }

  function AssignedChoice(plan: Plan, connector: string, host: string, w: World): (c: Choice) {
    if !plan.enabled then Choice(Environment, FromDisabled, None, "")
    else
      var word := Assigned(plan, connector);
      if EnvironmentWord(word) then Choice(Environment, FromEnvironment, None, "")
      else if NoneWord(word) then Choice(NoneAtAll, FromAssignment, None, "")
      else
        var p := EntryNamed(plan.entries, Strip(word));
        if p.None? then Choice(Environment, FromUnknown, None, "")
        else EntryChoice(plan, p.value, host, FromAssignment, w)
  }

  /** The proxy for a connector; `host` may be empty, and so may the row's own setting. */
  function ChoiceFor(plan: Plan, connector: string, host: string, instance: string, w: World): (c: Choice) {
    var own := Strip(instance);
    if own == "" then AssignedChoice(plan, connector, host, w)
    else if NoneWord(own) then Choice(NoneAtAll, FromInstance, None, "")
    else
      var p := if plan.enabled then EntryNamed(plan.entries, Strip(own)) else None;
      if p.Some? then EntryChoice(plan, p.value, host, FromInstance, w)
      else if w.looksLikeUrl(own) then Choice(Through, FromInstance, None, own)
      else AssignedChoice(plan, connector, host, w)
  }

  function UrlKeys(): (r: set<string>) {
    {"HTTP_PROXY", "HTTPS_PROXY", "ALL_PROXY", "http_proxy", "https_proxy", "all_proxy"}
  }

  function NoProxyKeys(): (r: set<string>) {
    {"NO_PROXY", "no_proxy"}
  }

  /** The variables the child gets: the default proxy, or nothing. */
  function EnvironmentOf(plan: Plan, w: World): (env: map<string, string>) {
    if !plan.enabled || plan.default.None? then map[]
    else
      var e := plan.default.value.entry;
      map k | k in UrlKeys() + NoProxyKeys() :: if k in UrlKeys() then UrlOf(e, w)
                                                else NoProxyText(e.noProxy, DEFAULT_NO_PROXY)
  }

  datatype Route = Direct | Via(url: string)

  /** A tool that reads its proxy and its exemptions from two variables of the environment. */
  function ByEnvironment(env: map<string, string>, urlKey: string, noProxyKey: string, host: string,
                         w: World): (r: Route) {
    if urlKey !in env then Direct
    else if noProxyKey in env && Exempts(host, env[noProxyKey], w.ips) then Direct
    else Via(env[urlKey])
  }

  /** Doing what a choice says. */
  function Follow(c: Choice, env: map<string, string>, urlKey: string, noProxyKey: string, host: string,
                  w: World): (r: Route) {
    match c.kind
    case NoneAtAll => Direct
    case Through => Via(if c.proxy.Some? then UrlOf(c.proxy.value.entry, w) else c.url)
    case Environment => ByEnvironment(env, urlKey, noProxyKey, host, w)
  }

  /** The plain rule for one proxy: its URL, unless its own list exempts the host. */
  function EntryRoute(p: Proxy, host: string, w: World): (r: Route) {
    if Exempts(host, NoProxyText(p.entry.noProxy, "127.0.0.1,localhost"), w.ips) then Direct
    else Via(w.render(p.entry.url, p.entry.username, p.entry.password))
  }

  lemma RoutesAre(w: World)
    ensures forall p, host :: EntryRoute(p, host, w) == if Off(p.entry, host, w) then Direct else Via(UrlOf(p.entry, w))
  {
    hide Exempts, NoProxyText;
  }

  /** The plain rule for a connector: the proxy it is assigned, or the default when the assignment is empty or names
      none. */
  function Rule(plan: Plan, connector: string, host: string, w: World): (r: Route) {
    var word := if connector in plan.assignments then Strip(plan.assignments[connector]) else "";
    if !plan.enabled || Lower(word) in ["none", "direct", "off"] then Direct
    else
      var named := if Lower(word) in ["", "env", "environment"] then None else EntryNamed(plan.entries, word);
      var p := if named.Some? then named else plan.default;
      if p.None? then Direct else EntryRoute(p.value, host, w)
  }

  ghost predicate DistinctNames(proxies: seq<Proxy>) {
    forall i, j :: 0 <= i < j < |proxies| ==> proxies[i].entry.name != proxies[j].entry.name
  }

  ghost predicate Sound(plan: Plan) {
    DistinctNames(plan.entries) && (plan.default.Some? ==> plan.default.value in plan.entries)
  }

  lemma BuiltIsSound(raw: Raw)
    ensures Sound(Build(raw))
  {
    hide Normalize, WithTokens, ToMap, GoodEntry, GoodPairs, EntryNamed;
    NormalizeIsNormal(raw);
    TokensDistinct(Normalize(raw).proxies);
  }

  lemma SameName(proxies: seq<Proxy>, p: Proxy, q: Proxy)
    requires DistinctNames(proxies) && p in proxies && q in proxies && p.entry.name == q.entry.name
    ensures p == q
  {
    var i :| 0 <= i < |proxies| && proxies[i] == p;
    var j :| 0 <= j < |proxies| && proxies[j] == q;
    assert i == j;
  }

  /** The environment carries the default proxy under its own rule. */
  lemma EnvironmentRoute(plan: Plan, urlKey: string, noProxyKey: string, host: string, w: World)
    requires urlKey in UrlKeys() && noProxyKey in NoProxyKeys()
    ensures ByEnvironment(EnvironmentOf(plan, w), urlKey, noProxyKey, host, w)
            == if plan.enabled && plan.default.Some? then EntryRoute(plan.default.value, host, w) else Direct
  {
    hide Exempts, NoProxyText;
    assert noProxyKey !in UrlKeys();
  }

  /** A tool, by the two variables it reads. */
  datatype Tool = Tool(urlKey: string, noProxyKey: string)

  predicate ReadsProxy(t: Tool) {
    && t.urlKey in ["HTTP_PROXY", "HTTPS_PROXY", "ALL_PROXY", "http_proxy", "https_proxy", "all_proxy"]
    && t.noProxyKey in ["NO_PROXY", "no_proxy"]
  }

  lemma ReadsSome(t: Tool)
    requires ReadsProxy(t)
    ensures t.urlKey in UrlKeys() && t.noProxyKey in NoProxyKeys()
  {
  }

  /** The route to `host` of a tool that follows the choice made for a connector, asked with a host or without one. */
  function Taken(plan: Plan, connector: string, asked: string, own: string, t: Tool, host: string,
                 w: World): (r: Route) {
    Follow(ChoiceFor(plan, connector, asked, own, w), EnvironmentOf(plan, w), t.urlKey, t.noProxyKey, host, w)
  }

  /** Following the choice for a host goes the same way as the plain rule, for every section, connector, host and tool:
      answering "the environment" for the default proxy preserves meaning. */
  lemma ChoiceFollowsRule(raw: Raw, connector: string, host: string, t: Tool, w: World)
    requires ReadsProxy(t)
    ensures Taken(Build(raw), connector, host, "", t, host, w) == Rule(Build(raw), connector, host, w)
  {
    hide Build, Off, NoneWord, EnvironmentWord, EntryNamed, Sound, Rule, Assigned, EntryRoute, Taken;
    BuiltIsSound(raw);
    EmptyHostIsOn(w);
    TakenRoute(Build(raw), connector, host, t, host, w);
    RuleRoute(Build(raw), connector, host, w);
  }

  /** A connector without an assignment goes the way of the proxy the section's default names, under that proxy's own
      rule; of the first proxy, when no proxy bears that name; and directly, when there is none. */
  lemma UnassignedRoute(raw: Raw, connector: string, host: string, t: Tool, w: World)
    requires ReadsProxy(t) && Build(raw).enabled
    requires connector !in Build(raw).assignments
             || Lower(Strip(Build(raw).assignments[connector])) in ["", "env", "environment"]
    ensures var plan := Build(raw);
            var taken := Taken(plan, connector, host, "", t, host, w);
            && (plan.entries == [] ==> taken == Direct)
            && (forall p :: p in plan.entries && p.entry.name == Wanted(raw) ==> taken == EntryRoute(p, host, w))
            && (plan.entries != [] && (forall p :: p in plan.entries ==> p.entry.name != Wanted(raw)) ==>
                  taken == EntryRoute(plan.entries[0], host, w))
  {
    ChoiceFollowsRule(raw, connector, host, t, w);
    BuiltDefault(raw);
    UnassignedRule(Build(raw), connector, host, w);
    hide Build, Wanted, EntryRoute, Rule, Taken, Lower, Strip;
  }

  lemma UnassignedRule(plan: Plan, connector: string, host: string, w: World)
    requires plan.enabled
    requires connector !in plan.assignments
             || Lower(Strip(plan.assignments[connector])) in ["", "env", "environment"]
    ensures Rule(plan, connector, host, w)
            == if plan.default.None? then Direct else EntryRoute(plan.default.value, host, w)
  {
    hide EntryRoute, EntryNamed, Strip;
    assert |Lower("")| == 0;
  }

  /** The assignment names a proxy other than the default. */
  predicate NamesOther(plan: Plan, word: string) {
    && plan.enabled && !NoneWord(word) && !EnvironmentWord(word)
    && EntryNamed(plan.entries, word).Some?
    && !(plan.default.Some? && EntryNamed(plan.entries, word).value.entry.name == plan.default.value.entry.name)
  }

  /** What following the choice amounts to: another proxy than the default is used whatever host the tool turns to,
      unless the choice was asked with a host it exempts. */
  function RouteFor(plan: Plan, word: string, asked: string, host: string, w: World): (r: Route) {
    if NamesOther(plan, word) then
      var e := EntryNamed(plan.entries, word).value.entry;
      if asked != "" && Off(e, asked, w) then Direct else Via(UrlOf(e, w))
    else if !plan.enabled || (NoneWord(word) && !EnvironmentWord(word)) then Direct
    else if plan.default.None? then Direct
    else if asked != "" && NamesDefault(plan, word) && Off(plan.default.value.entry, asked, w) then Direct
    else EntryRoute(plan.default.value, host, w)
  }

  /** The assignment names the default proxy. */
  predicate NamesDefault(plan: Plan, word: string) {
    && !NoneWord(word) && !EnvironmentWord(word) && EntryNamed(plan.entries, word).Some?
    && plan.default.Some? && EntryNamed(plan.entries, word).value.entry.name == plan.default.value.entry.name
  }

  lemma TakenRoute(plan: Plan, connector: string, asked: string, t: Tool, host: string, w: World)
    requires ReadsProxy(t) && Sound(plan)
    ensures Taken(plan, connector, asked, "", t, host, w) == RouteFor(plan, Assigned(plan, connector), asked, host, w)
  {
    hide ChoiceFor, EnvironmentOf, ByEnvironment, Off, NoneWord, EnvironmentWord, EntryNamed, Assigned, UrlKeys,
         NoProxyKeys,
         EntryRoute, Sound, UrlOf, AssignedChoice, ReadsProxy;
    ReadsSome(t);
    WithoutOwnSetting(plan, connector, asked, w);
    EnvironmentRoute(plan, t.urlKey, t.noProxyKey, host, w);
    ChoiceOfOther(plan, connector, asked, w);
    ChoiceOfDefault(plan, connector, asked, w);
  }

  lemma ChoiceOfOther(plan: Plan, connector: string, asked: string, w: World)
    ensures var word := Assigned(plan, connector);
            NamesOther(plan, word) ==>
              var p := EntryNamed(plan.entries, word).value;
              AssignedChoice(plan, connector, asked, w)
              == if asked != "" && Off(p.entry, asked, w) then Choice(NoneAtAll, FromNoProxy, Some(p), "")
                 else Choice(Through, FromAssignment, Some(p), "")
  {
    hide Off, NoneWord, EnvironmentWord, EntryNamed, Assigned, Strip;
    AssignedStripped(plan, connector);
  }

  lemma ChoiceOfDefault(plan: Plan, connector: string, asked: string, w: World)
    requires Sound(plan)
    ensures var word := Assigned(plan, connector);
            !NamesOther(plan, word) ==>
              AssignedChoice(plan, connector, asked, w).kind
              == if plan.enabled && ((NoneWord(word) && !EnvironmentWord(word))
                                     || (NamesDefault(plan, word) && asked != ""
                                         && Off(plan.default.value.entry, asked, w)))
                 then NoneAtAll else Environment
  {
    hide Off, NoneWord, EnvironmentWord, EntryNamed, Assigned, Strip, Sound;
    AssignedStripped(plan, connector);
    NamedIsDefault(plan, Assigned(plan, connector));
  }

  lemma WithoutOwnSetting(plan: Plan, connector: string, asked: string, w: World)
    ensures ChoiceFor(plan, connector, asked, "", w) == AssignedChoice(plan, connector, asked, w)
  {
    NothingToStrip();
  }

  lemma NamedIsDefault(plan: Plan, word: string)
    requires Sound(plan)
    ensures NamesDefault(plan, word) ==> EntryNamed(plan.entries, word) == plan.default
  {
    hide NoneWord, EnvironmentWord, EntryNamed, DistinctNames;
    if NamesDefault(plan, word) {
      SameName(plan.entries, EntryNamed(plan.entries, word).value, plan.default.value);
    }
  }

  /** The rule is the route taken when the choice was asked with the host. */
  lemma RuleRoute(plan: Plan, connector: string, host: string, w: World)
    requires Sound(plan) && forall e :: !Off(e, "", w)
    ensures Rule(plan, connector, host, w) == RouteFor(plan, Assigned(plan, connector), host, host, w)
  {
    var word := Assigned(plan, connector);
    NamedIsDefault(plan, word);
    WordsDiffer(word);
    hide Off, NoneWord, EnvironmentWord, EntryNamed, Sound, Assigned, UrlOf;
  }

  /** A choice asked without a host goes the rule's way exactly when the assignment names no other proxy than the
      default that exempts the host. */
  lemma ChoiceWithoutHost(raw: Raw, connector: string, host: string, t: Tool, w: World)
    requires ReadsProxy(t)
    ensures Taken(Build(raw), connector, "", "", t, host, w) == Rule(Build(raw), connector, host, w)
            <==> !ExemptsUnasked(Build(raw), Assigned(Build(raw), connector), host, w)
  {
    hide Build, Off, NoneWord, EnvironmentWord, EntryNamed, Sound, Rule, Assigned, EntryRoute, Taken;
    BuiltIsSound(raw);
    EmptyHostIsOn(w);
    TakenRoute(Build(raw), connector, "", t, host, w);
    RuleRoute(Build(raw), connector, host, w);
    RoutesDiffer(Build(raw), Assigned(Build(raw), connector), host, w);
  }

  predicate ExemptsUnasked(plan: Plan, word: string, host: string, w: World) {
    NamesOther(plan, word) && Off(EntryNamed(plan.entries, word).value.entry, host, w)
  }

  lemma RoutesDiffer(plan: Plan, word: string, host: string, w: World)
    requires forall e :: !Off(e, "", w)
    ensures RouteFor(plan, word, "", host, w) == RouteFor(plan, word, host, host, w)
            <==> !ExemptsUnasked(plan, word, host, w)
  {
    RoutesAre(w);
    hide Off, NoneWord, EnvironmentWord, EntryNamed, UrlOf, EntryRoute;
  }

  lemma AssignedStripped(plan: Plan, connector: string)
    ensures Strip(Assigned(plan, connector)) == Assigned(plan, connector)
  {
    NothingToStrip();
    if connector in plan.assignments {
      StripTwice(plan.assignments[connector]);
    }
  }

  lemma WordsDiffer(s: string)
    ensures !(NoneWord(s) && EnvironmentWord(s))
  {
    hide Lower;
  }

  lemma EmptyHostIsOn(w: World)
    ensures forall e :: !Off(e, "", w)
  {
    assert Lower(Strip("")) == "";
    assert Target("") == "";
  }

  /** A row's own setting stands on its own: a none word is direct, a name is that proxy under its own rule while the
      connector is on, a URL is used as it is, and anything else leaves the decision to the assignment. */
  lemma InstanceSetting(raw: Raw, connector: string, host: string, own: string, t: Tool, w: World)
    requires ReadsProxy(t) && Strip(own) != ""
    ensures Taken(Build(raw), connector, host, own, t, host, w)
            == InstanceRule(Build(raw), connector, host, Strip(own), w)
  {
    hide Build, EnvironmentOf, ByEnvironment, Off, Lower, EnvironmentWord, EntryNamed, AssignedChoice, Rule,
         EntryRoute, UrlOf, ReadsProxy;
    RoutesAre(w);
    ChoiceFollowsRule(raw, connector, host, t, w);
    NothingToStrip();
    StripTwice(own);
    EmptyHostIsOn(w);
  }

  function InstanceRule(plan: Plan, connector: string, host: string, word: string, w: World): (r: Route) {
    var named := if plan.enabled then EntryNamed(plan.entries, word) else None;
    if Lower(word) in ["none", "direct", "off"] then Direct
    else if named.Some? then EntryRoute(named.value, host, w)
    else if w.looksLikeUrl(word) then Via(word)
    else Rule(plan, connector, host, w)
  }

  /** An assignment reaches the proxy it names exactly when the name is no reserved word: a proxy called `none`, say,
      can be listed and even be the default, but not be assigned. */
  lemma ReservedNames(raw: Raw, connector: string, host: string, w: World)
    requires Build(raw).enabled && EntryNamed(Build(raw).entries, Assigned(Build(raw), connector)).Some?
    ensures var plan := Build(raw);
            ChoiceFor(plan, connector, host, "", w).proxy == EntryNamed(plan.entries, Assigned(plan, connector))
            <==> Lower(Assigned(plan, connector)) !in ["none", "direct", "off", "", "env", "environment"]
  {
    hide Build, Off, EntryNamed, Lower;
    NothingToStrip();
    AssignedStripped(Build(raw), connector);
  }

  // ------------------------------------------------------------------ examples

  /** Two proxies, the first one the default, and a connector assigned the second one, which exempts the host `x`. */
  function TwoProxies(second: string): (s: Section) {
    Section(true, "a", [Entry("a", "u", "", "", ""), Entry(second, "v", "", "", "x")], [("llm", second)])
  }

  lemma OneLetter(c: char)
    requires !IsSpace(c)
    ensures Stripped([c])
  {
    TrimFixpoint([c], IsSpace);
  }

  lemma TwoProxiesNormal(second: string)
    requires Stripped(second) && second != "" && second != "a"
    ensures IsNormal(TwoProxies(second))
  {
    hide Strip, Lower, Stripped, NoPlaceholder;
    LettersAreStripped();
    var s := TwoProxies(second);
    assert s.proxies[0].name == s.default;
    assert Named(s.proxies, s.default);
  }

  lemma LettersAreStripped()
    ensures Stripped("a") && Stripped("u") && Stripped("v") && Stripped("x") && Stripped("llm") && Stripped("")
            && NoPlaceholder("")
  {
    hide Strip, Stripped, NoPlaceholder;
    OneLetter('a');
    OneLetter('u');
    OneLetter('v');
    OneLetter('x');
    assert ['a'] == "a" && ['u'] == "u" && ['v'] == "v" && ['x'] == "x";
    WordIsStripped();
    NothingIsStripped();
    NothingHeld();
  }

  lemma WordIsStripped()
    ensures Stripped("llm")
  {
    TrimFixpoint("llm", IsSpace);
    hide Trim;
  }

  lemma NothingIsStripped()
    ensures Stripped("")
  {
    NothingToStrip();
    hide Strip;
  }

  lemma NothingHeld()
    ensures NoPlaceholder("")
  {
    hide Strip;
    assert |Lower("")| == 0;
  }

  lemma TwoProxiesBuilt(second: string)
    requires Stripped(second) && second != "" && second != "a"
    ensures var plan := Build(ToRaw(TwoProxies(second)));
            && plan.enabled && Assigned(plan, "llm") == second
            && EntryNamed(plan.entries, second).Some?
               && EntryNamed(plan.entries, second).value.entry == TwoProxies(second).proxies[1]
            && plan.default.Some? && plan.default.value.entry.name == "a"
  {
    var s := TwoProxies(second);
    TwoProxiesNormal(second);
    NormalizeFixpoint(s);
    TokensDistinct(s.proxies);
    OneAssignment("llm", second);
    hide Normalize, ToRaw, WithTokens, IsNormal, Strip, ToMap;
  }

  lemma OneAssignment(key: string, value: string)
    ensures ToMap([(key, value)]) == map[key := value]
  {
    var kvs: Pairs := [(key, value)];
    assert kvs[..0] == [];
  }

  lemma WordsOfX()
    ensures Words("x") == ["x"]
  {
    WordsOfWord("x", "");
    assert "x" + "" == "x";
    hide Words;
  }

  lemma ListOfX()
    ensures Words(NoProxyText("x", DEFAULT_NO_PROXY)) == Completed(["x"])
  {
    hide NoProxyText, Words, Completed, Strip;
    OneLetter('x');
    assert ['x'] == "x";
    WordsOfX();
    NoProxyTextTwice("x", DEFAULT_NO_PROXY, DEFAULT_NO_PROXY);
  }

  lemma ExemptsItsOwn(name: string, url: string, w: World)
    ensures Off(Entry(name, url, "", "", "x"), "x", w)
  {
    hide NoProxyText, ItemExempts, Words, Strip, Target, Has, Lower;
    ListOfX();
    PlainItem("x", "x", w.ips);
    TargetOfX();
    assert Completed(["x"])[0] == "x";
  }

  lemma TargetOfX()
    ensures Target("x") == "x"
  {
    OneLetter('x');
    assert Lower("x") == "x";
    hide Strip;
  }

  /** A choice asked without a host can differ from the rule: the assigned proxy is used although it exempts the
      host. */
  lemma WithoutHostExample(t: Tool, w: World)
    requires ReadsProxy(t)
    ensures var plan := Build(ToRaw(TwoProxies("b")));
            Taken(plan, "llm", "", "", t, "x", w) == Via(w.render("v", "", "")) && Rule(plan, "llm", "x", w) == Direct
  {
    var plan := Build(ToRaw(TwoProxies("b")));
    OneLetter('b');
    TwoProxiesBuilt("b");
    BuiltIsSound(ToRaw(TwoProxies("b")));
    ExemptsItsOwn("b", "v", w);
    NotReserved();
    TakenRoute(plan, "llm", "", t, "x", w);
    hide Build, Off, NoneWord, EnvironmentWord, EntryNamed, Sound, Assigned, Taken;
  }

  lemma NotReserved()
    ensures !NoneWord("b") && !EnvironmentWord("b")
  {
    assert Lower("b") == "b";
  }

  /** A listed proxy called `none` cannot be assigned: its connector connects directly. */
  lemma ReservedNameExample(host: string, w: World)
    ensures var plan := Build(ToRaw(TwoProxies("none")));
            && plan.enabled && EntryNamed(plan.entries, "none").Some? && Assigned(plan, "llm") == "none"
            && ChoiceFor(plan, "llm", host, "", w) == Choice(NoneAtAll, FromAssignment, None, "")
  {
    TrimFixpoint("none", IsSpace);
    TwoProxiesBuilt("none");
    NoneIsReserved();
    NothingToStrip();
    WordsDiffer("none");
    hide Build, Off, NoneWord, EnvironmentWord, EntryNamed, Sound, Assigned, Strip;
  }

  lemma NoneIsReserved()
    ensures NoneWord("none")
  {
    assert Lower("none") == "none";
  }
}
