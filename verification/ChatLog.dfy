/**
 The chat log store (chatlog_store.py): an LRU cache of session logs in front of one
 file per session, in which event appends reach the file at most once per interval.

 The store is related to a write-through map: `View()` is what that map would hold, and
 every public method says how it changes `View()` and which answer it
 gives. */
module ChatLog {
  import opened Seqs
  import opened PyText

  datatype Entry = Entry(requestId: string, status: string, message: string, response: string,
                         events: seq<string>, runtimeEvents: seq<string>,
                         contextState: string, llmDebug: string,
                         createdAt: string, finishedAt: string)

  /** The value of a session log, as it is written to a file. */
  datatype Log = Log(sessionId: string, entries: seq<Entry>, updatedAt: string)

  datatype File = Json(log: Log) | Corrupt

  /** safe_preview, which the store does not define. */
  datatype Preview = Preview(text: (string, nat) -> string, items: (seq<string>, nat) -> seq<string>)

  /** The wall-clock texts one call reads: for a fresh log, a fresh entry, a finish and the update. */
  datatype Stamps = Stamps(initial: string, created: string, finished: string, updated: string)

  /** What finish_entry is given; an absent list or text keeps the stored one. */
  datatype Finish = Finish(status: string, response: string, runtimeEvents: Option<seq<string>>,
                           events: Option<seq<string>>, contextState: Option<string>, llmDebug: Option<string>)

  // ------------------------------------------------------------------ names

  predicate NameChar(c: char) {
    IsAsciiAlnum(c) || c == '.' || c == '_' || c == '-'
  }

  predicate BadNameChar(c: char) {
    !NameChar(c)
  }

  predicate EdgeChar(c: char) {
    c == '.' || c == '-'
  }

  /** The stem of a log file. */
  datatype Name = Name(text: string)

  function Sanitize(sessionId: string): (name: Name)
    ensures name.text != "" && forall c :: c in name.text ==> NameChar(c)
    ensures !EdgeChar(name.text[0]) && !EdgeChar(name.text[|name.text| - 1])
  {
    var text := Trim(ReplaceRuns(sessionId, BadNameChar, '-'), EdgeChar);
    Name(if text == "" then "default" else text)
  }

  /** flush_all passes names that are sanitized already; they reach the same entries. */
  lemma SanitizeIdempotent(sessionId: string)
    ensures Sanitize(Sanitize(sessionId).text) == Sanitize(sessionId)
  {
    var text := Sanitize(sessionId).text;
    ReplaceRunsNoop(text, BadNameChar, '-');
    TrimFixpoint(text, EdgeChar);
  }

  /** The characters a file name may have: ASCII letters and digits, dot, underscore and dash. */
  lemma NameCharsAre(c: char)
    ensures NameChar(c) <==>
            c as int in {45, 46, 95} || 48 <= c as int <= 57 || 65 <= c as int <= 90 || 97 <= c as int <= 122
  {
  }

  lemma EdgesAre(c: char)
    ensures EdgeChar(c) <==> c in ".-"
    ensures BadNameChar(c) <==> !NameChar(c)
    ensures EdgeChar(c) ==> NameChar(c)
  {
  }

  predicate CleanName(s: string) {
    && s != "" && (forall i :: 0 <= i < |s| ==> NameChar(s[i]))
    && s[0] !in ".-" && s[|s| - 1] !in ".-"
  }

  lemma SanitizeOfNameChars(s: string)
    requires s != "" && forall i :: 0 <= i < |s| ==> NameChar(s[i])
    ensures s[0] !in ".-" && s[|s| - 1] !in ".-" ==> Sanitize(s).text == s
  {
    hide ReplaceRuns, NameChar, Trim;
    ReplaceRunsNoop(s, BadNameChar, '-');
    TrimFixpoint(s, EdgeChar);
  }

  /** A session id is its own file name exactly when it has name characters only and no dot or dash at its ends. */
  lemma SanitizeKeeps(sessionId: string)
    ensures Sanitize(sessionId).text == sessionId <==> CleanName(sessionId)
  {
    if CleanName(sessionId) {
      SanitizeOfNameChars(sessionId);
    }
    SanitizeIsClean(sessionId);
    hide Sanitize, NameChar;
  }

  lemma SanitizeIsClean(sessionId: string)
    ensures CleanName(Sanitize(sessionId).text)
  {
    hide NameChar, Sanitize, EdgeChar, BadNameChar;
    var s := Sanitize(sessionId).text;
    EdgesAre(s[0]);
    EdgesAre(s[|s| - 1]);
    assert forall i :: 0 <= i < |s| ==> s[i] in s;
  }

  /** Any run of other characters becomes one dash. */
  lemma SanitizeJoins(a: string, run: string, b: string)
    requires CleanName(a) && CleanName(b)
    requires run != "" && forall i :: 0 <= i < |run| ==> !NameChar(run[i])
    ensures Sanitize(a + run + b).text == a + "-" + b
  {
    hide ReplaceRuns, NameChar, Trim;
    ReplaceRunsJoins(a, run, b, BadNameChar, '-');
    var s := a + ['-'] + b;
    assert s == a + "-" + b && s[0] == a[0] && s[|s| - 1] == b[|b| - 1];
    TrimFixpoint(s, EdgeChar);
  }

  /** An id without anything to keep gets the name `default`. */
  lemma SanitizeNothing(sessionId: string)
    requires forall i :: 0 <= i < |sessionId| ==> !NameChar(sessionId[i]) || sessionId[i] in ".-"
    ensures Sanitize(sessionId).text == "default"
  {
    OnlyEdges(sessionId);
    var t := ReplaceRuns(sessionId, BadNameChar, '-');
    TrimIs(t, "", "", EdgeChar);
    assert t + "" + "" == t;
  }

  lemma {:induction false} OnlyEdges(s: string)
    requires forall i :: 0 <= i < |s| ==> !NameChar(s[i]) || s[i] in ".-"
    ensures All(ReplaceRuns(s, BadNameChar, '-'), EdgeChar)
    decreases |s|
  {
    if s != "" {
      if BadNameChar(s[0]) {
        OnlyEdges(TrimLeft(s[1..], BadNameChar));
      } else {
        OnlyEdges(s[1..]);
      }
    }
  }

  // ---------------------------------------------------------------- eviction

  /** The order with `name` moved to its end. */
  function Touch(order: seq<Name>, name: Name): (r: seq<Name>) {
    Remove(order, name) + [name]
  }

  ghost predicate Precedes(order: seq<Name>, a: Name, b: Name) {
    exists i, j :: 0 <= i < j < |order| && order[i] == a && order[j] == b
  }

  /** Touching makes a name the most recently used; the others keep their order. */
  lemma TouchMakesRecent(order: seq<Name>, name: Name, a: Name, b: Name)
    ensures var r := Touch(order, name);
            && |r| > 0 && r[|r| - 1] == name
            && (a != name && b != name ==> (Precedes(r, a, b) <==> Precedes(order, a, b)))
  {
    RemoveKeepsOrder(order, name, a, b);
    var rest, r := Remove(order, name), Touch(order, name);
    assert forall i :: 0 <= i < |rest| ==> r[i] == rest[i];
    if a != name && b != name && Precedes(r, a, b) {
      var i, j :| 0 <= i < j < |r| && r[i] == a && r[j] == b;
      assert rest[i] == a && rest[j] == b;
    }
    if Precedes(rest, a, b) {
      var i, j :| 0 <= i < j < |rest| && rest[i] == a && rest[j] == b;
      assert r[i] == a && r[j] == b;
    }
  }

  lemma {:induction false} RemoveKeepsOrder(order: seq<Name>, name: Name, a: Name, b: Name)
    ensures a != name && b != name ==> (Precedes(Remove(order, name), a, b) <==> Precedes(order, a, b))
    ensures forall n :: n in Remove(order, name) <==> n in order && n != name
  {
    if order != [] {
      RemoveKeepsOrder(order[1..], name, a, b);
      PrecedesCons(order, a, b);
      if order[0] != name {
        var r := [order[0]] + Remove(order[1..], name);
        assert r[1..] == Remove(order[1..], name);
        PrecedesCons(r, a, b);
      }
    }
  }

  lemma PrecedesCons(order: seq<Name>, a: Name, b: Name)
    requires order != []
    ensures Precedes(order, a, b) <==> (order[0] == a && b in order[1..]) || Precedes(order[1..], a, b)
  {
    var rest := order[1..];
    if Precedes(order, a, b) {
      var i, j :| 0 <= i < j < |order| && order[i] == a && order[j] == b;
      assert rest[j - 1] == b;
      assert i > 0 ==> rest[i - 1] == a;
    }
    if order[0] == a && b in rest {
      var j :| 0 <= j < |rest| && rest[j] == b;
      assert order[j + 1] == b;
    }
    if Precedes(rest, a, b) {
      var i, j :| 0 <= i < j < |rest| && rest[i] == a && rest[j] == b;
      assert order[i + 1] == a && order[j + 1] == b;
    }
  }

  /** `_remember` drops the first `excess` entries that are neither `name` nor pending. */
  function Victims(order: seq<Name>, name: Name, pending: set<Name>, excess: nat): (r: seq<Name>) {
    if order == [] || excess == 0 then []
    else if order[0] != name && order[0] !in pending then [order[0]] + Victims(order[1..], name, pending, excess - 1)
    else Victims(order[1..], name, pending, excess)
  }

  /** The entries `_remember` leaves, in order. */
  function Kept(order: seq<Name>, name: Name, pending: set<Name>, excess: nat): (r: seq<Name>) {
    if order == [] || excess == 0 then order
    else if order[0] != name && order[0] !in pending then Kept(order[1..], name, pending, excess - 1)
    else [order[0]] + Kept(order[1..], name, pending, excess)
  }

  /** How many entries the cache holds above its cap. */
  function Excess(order: seq<Name>, cap: nat): (n: nat) {
    if |order| > cap then |order| - cap else 0
  }

  lemma TouchKeepsNames(order: seq<Name>, name: Name)
    requires NoDup(order)
    ensures NoDup(Touch(order, name)) && ToSet(Touch(order, name)) == ToSet(order) + {name}
    ensures |Touch(order, name)| == |ToSet(order) + {name}|
  {
    RemoveKeepsRest(order, name);
    assert ToSet(Touch(order, name)) == ToSet(order) + {name};
    NoDupCardinality(Touch(order, name));
  }

  /** Eviction takes older entries before newer ones: a kept entry it could have taken is younger than every victim. */
  lemma {:induction false} EvictionIsLeastRecentlyUsed(order: seq<Name>, name: Name, pending: set<Name>,
                                                       excess: nat, i: nat, j: nat)
    requires NoDup(order) && i < |order| && j < |order|
    requires order[i] in Victims(order, name, pending, excess)
    requires order[j] !in Victims(order, name, pending, excess) && order[j] != name && order[j] !in pending
    ensures i < j
  {
    if i > 0 {
      if order[0] != name && order[0] !in pending {
        assert order[i] in Victims(order[1..], name, pending, excess - 1);
        assert j > 0;
        EvictionIsLeastRecentlyUsed(order[1..], name, pending, excess - 1, i - 1, j - 1);
      } else {
        EvictionIsLeastRecentlyUsed(order[1..], name, pending, excess, i - 1, j - 1);
      }
    }
  }

  /** What is left is what was not evicted, in the same order; `excess` entries go, or all that may. */
  lemma {:induction false} EvictionSplits(order: seq<Name>, name: Name, pending: set<Name>, excess: nat)
    requires NoDup(order)
    ensures var gone := Victims(order, name, pending, excess);
            var kept := Kept(order, name, pending, excess);
            && NoDup(kept)
            && ToSet(kept) == ToSet(order) - ToSet(gone) && ToSet(gone) <= ToSet(order)
            && (forall n :: n in gone ==> n != name && n !in pending)
            && |kept| + |gone| == |order| && |gone| <= excess
            && (|gone| < excess ==> forall n :: n in kept ==> n == name || n in pending)
  {
    if order != [] && excess > 0 {
      var rest := order[1..];
      if order[0] != name && order[0] !in pending {
        EvictionSplits(rest, name, pending, excess - 1);
        var kept, gone := Kept(rest, name, pending, excess - 1), Victims(rest, name, pending, excess - 1);
        assert ToSet([order[0]] + gone) == {order[0]} + ToSet(gone);
        assert ToSet(order) == {order[0]} + ToSet(rest);
        assert order[0] !in rest;
      } else {
        EvictionSplits(rest, name, pending, excess);
        var kept := Kept(rest, name, pending, excess);
        assert ToSet([order[0]] + kept) == {order[0]} + ToSet(kept);
        assert ToSet(order) == {order[0]} + ToSet(rest);
        assert order[0] !in rest;
      }
    }
  }

  /** After eviction the cache is at its cap, unless it was below it or all it holds is pinned. */
  lemma EvictionSize(order: seq<Name>, name: Name, pending: set<Name>, cap: nat)
    requires NoDup(order) && name in order && pending <= ToSet(order)
    ensures |Kept(order, name, pending, Excess(order, cap))| == Max(Min(|order|, cap), |pending + {name}|)
  {
    hide Kept, Victims, NoDup;
    var excess := Excess(order, cap);
    var kept := Kept(order, name, pending, excess);
    EvictionSplits(order, name, pending, excess);
    NoDupCardinality(kept);
    assert pending + {name} <= ToSet(kept);
    SubsetCardinality(pending + {name}, ToSet(kept));
    if |Victims(order, name, pending, excess)| < excess {
      assert ToSet(kept) <= pending + {name};
      SubsetCardinality(ToSet(kept), pending + {name});
    }
  }

  datatype Plan = Plan(victims: seq<Name>, kept: seq<Name>)

  /** What `_remember(name)` evicts and in which order the rest stays. */
  function EvictionPlan(order: seq<Name>, name: Name, pending: set<Name>, cap: nat): (plan: Plan) {
    var touched := Touch(order, name);
    var excess := Excess(touched, cap);
    Plan(Victims(touched, name, pending, excess), Kept(touched, name, pending, excess))
  }

  lemma EvictionPlanFits(order: seq<Name>, name: Name, pending: set<Name>, cap: nat)
    requires NoDup(order) && pending <= ToSet(order)
    ensures var plan := EvictionPlan(order, name, pending, cap);
            && NoDup(plan.kept)
            && ToSet(plan.kept) == ToSet(order) + {name} - ToSet(plan.victims)
            && ToSet(plan.victims) !! pending + {name}
  {
    TouchKeepsNames(order, name);
    EvictionSplits(Touch(order, name), name, pending, Excess(Touch(order, name), cap));
  }

  /** The cache ends at its cap, below it, or with nothing but the touched name and the pending ones. */
  lemma EvictionPlanSize(order: seq<Name>, name: Name, pending: set<Name>, cap: nat)
    requires NoDup(order) && pending <= ToSet(order)
    ensures |EvictionPlan(order, name, pending, cap).kept|
            == Max(Min(|ToSet(order) + {name}|, cap), |pending + {name}|)
  {
    TouchKeepsNames(order, name);
    EvictionSize(Touch(order, name), name, pending, cap);
  }

  /** The bound for whatever the pending set becomes when only `name` joins or leaves it. */
  lemma EvictionPlanBound(order: seq<Name>, name: Name, pending: set<Name>, cap: nat, pending': set<Name>)
    requires NoDup(order) && pending <= ToSet(order) && pending' + {name} == pending + {name}
    ensures |EvictionPlan(order, name, pending, cap).kept| <= Max(cap, |pending'| + 1)
  {
    EvictionPlanSize(order, name, pending, cap);
  }

  function Max(a: int, b: int): (r: int) {
    if a < b then b else a
  }

  function Min(a: int, b: int): (r: int) {
    if a < b then a else b
  }

  // ------------------------------------------------- the write-through map

  function FreshLog(sessionId: string, at: Stamps): (log: Log) {
    Log(sessionId, [], at.initial)
  }

  function NewEntry(requestId: string, at: Stamps): (e: Entry) {
    Entry(requestId, "running", "", "", [], [], "{}", "{}", at.created, "")
  }

  /** The index of the newest entry of a request, or the number of entries when it has none. */
  function EntryIndex(entries: seq<Entry>, requestId: string): (i: nat)
    ensures i <= |entries|
    ensures i < |entries| ==> entries[i].requestId == requestId
    ensures forall j :: i < j < |entries| ==> entries[j].requestId != requestId
    ensures i == |entries| ==> forall j :: 0 <= j < |entries| ==> entries[j].requestId != requestId
  {
    if entries == [] then 0
    else if entries[|entries| - 1].requestId == requestId then |entries| - 1
    else
      var i := EntryIndex(entries[..|entries| - 1], requestId);
      if i == |entries| - 1 then |entries| else i
  }

  function Finished(e: Entry, f: Finish, p: Preview, at: Stamps): (r: Entry) {
    e.(status := f.status,
       response := p.text(f.response, 2000),
       runtimeEvents := p.items(if f.runtimeEvents.Some? then f.runtimeEvents.value else e.runtimeEvents, 4000),
       events := p.items(if f.events.Some? then f.events.value else e.events, 4000),
       contextState := p.text(if f.contextState.Some? then f.contextState.value else e.contextState, 4000),
       llmDebug := p.text(if f.llmDebug.Some? then f.llmDebug.value else e.llmDebug, 4000),
       finishedAt := at.finished)
  }

  function WithEvent(e: Entry, event: string, runtime: bool, p: Preview): (r: Entry) {
    if runtime then e.(runtimeEvents := e.runtimeEvents + [p.text(event, 1000)])
    else e.(events := e.events + [p.text(event, 1000)])
  }

  datatype Op =
    | Get(sessionId: string)
    | Start(sessionId: string, entry: Entry, at: Stamps)
    | FinishRun(sessionId: string, requestId: string, finish: Finish, at: Stamps)
    | Append(sessionId: string, requestId: string, event: string, runtime: bool, at: Stamps)
    | Flush(sessionId: string)
    | FlushAll
    | Delete(sessionId: string)

  datatype Answer = Found(file: File) | Absent | Saved(log: Log) | Deleted(existed: bool) | Done

  /** The log an entry operation starts from: the stored one, or a fresh one when there is none to read. */
  function BaseLog(m: map<Name, File>, sessionId: string, at: Stamps): (log: Log) {
    var name := Sanitize(sessionId);
    if name in m && m[name].Json? then m[name].log else FreshLog(sessionId, at)
  }

  function StartedLog(log: Log, entry: Entry, p: Preview, at: Stamps): (r: Log) {
    log.(entries := log.entries + [entry.(status := "running", message := p.text(entry.message, 2000), response := "",
                                          events := [], runtimeEvents := p.items(entry.runtimeEvents, 4000),
                                          contextState := p.text(entry.contextState, 4000),
                                          llmDebug := p.text(entry.llmDebug, 4000),
                                          createdAt := at.created, finishedAt := "")],
         updatedAt := at.updated)
  }

  /** The log with an entry for the request, which is appended when there is none. */
  function WithEntry(log: Log, requestId: string, at: Stamps): (r: Log)
    ensures EntryIndex(r.entries, requestId) < |r.entries|
  {
    if EntryIndex(log.entries, requestId) < |log.entries| then log
    else log.(entries := log.entries + [NewEntry(requestId, at)])
  }

  function FinishedLog(log: Log, requestId: string, f: Finish, p: Preview, at: Stamps): (r: Log) {
    var l := WithEntry(log, requestId, at);
    var i := EntryIndex(l.entries, requestId);
    l.(entries := l.entries[i := Finished(l.entries[i], f, p, at)], updatedAt := at.updated)
  }

  function AppendedLog(log: Log, requestId: string, event: string, runtime: bool, p: Preview, at: Stamps): (r: Log) {
    var l := WithEntry(log, requestId, at);
    var i := EntryIndex(l.entries, requestId);
    l.(entries := l.entries[i := WithEvent(l.entries[i], event, runtime, p)], updatedAt := at.updated)
  }

  /** One operation on a map that writes every change through at once. */
  function WriteThrough(m: map<Name, File>, op: Op, p: Preview): (r: (map<Name, File>, Answer)) {
    var name := match op case FlushAll => Name("") case _ => Sanitize(op.sessionId);
    match op
    case Get(_) => (m, if name in m then Found(m[name]) else Absent)
    case Start(sid, entry, at) =>
      var log := StartedLog(BaseLog(m, sid, at), entry, p, at);
      (m[name := Json(log)], Saved(log))
    case FinishRun(sid, rid, f, at) =>
      var log := FinishedLog(BaseLog(m, sid, at), rid, f, p, at);
      (m[name := Json(log)], Saved(log))
    case Append(sid, rid, event, runtime, at) =>
      var log := AppendedLog(BaseLog(m, sid, at), rid, event, runtime, p, at);
      (m[name := Json(log)], Saved(log))
    case Flush(_) => (m, Done)
    case FlushAll => (m, Done)
    case Delete(_) => (m - {name}, Deleted(name in m))
  }

  /** The answers of a whole run on the write-through map, and the map it ends in. */
  function WriteThroughRun(m: map<Name, File>, ops: seq<Op>, p: Preview): (r: (map<Name, File>, seq<Answer>))
    decreases |ops|
  {
    if ops == [] then (m, [])
    else
      var first := WriteThrough(m, ops[0], p);
      var rest := WriteThroughRun(first.0, ops[1..], p);
      (rest.0, [first.1] + rest.1)
  }

  // ------------------------------------------------ what becomes of an entry

  /** The entries of a session's log before a call; without a readable log there are none. */
  ghost function EntriesBefore(m: map<Name, File>, sessionId: string): (entries: seq<Entry>) {
    if Sanitize(sessionId) !in m || m[Sanitize(sessionId)] == Corrupt then [] else m[Sanitize(sessionId)].log.entries
  }

  /** The session a log is kept for: the one it was first written for. */
  ghost function OwnerBefore(m: map<Name, File>, sessionId: string): (owner: string) {
    if Sanitize(sessionId) !in m || m[Sanitize(sessionId)] == Corrupt then sessionId
    else m[Sanitize(sessionId)].log.sessionId
  }

  ghost predicate NewestOf(entries: seq<Entry>, requestId: string, i: nat) {
    && i < |entries| && entries[i].requestId == requestId
    && forall j :: i < j < |entries| ==> entries[j].requestId != requestId
  }

  /** An entry that was just made for a request. */
  ghost predicate IsBlank(e: Entry, requestId: string, at: Stamps) {
    && e.requestId == requestId && e.status == "running" && e.message == "" && e.response == ""
    && e.events == [] && e.runtimeEvents == [] && e.contextState == "{}" && e.llmDebug == "{}"
    && e.createdAt == at.created && e.finishedAt == ""
  }

  /** One entry changes: the newest of the request, or a blank one appended for it when there is none. `changes` says
      how, from the entry before to the entry after. */
  ghost predicate ChangesEntry(before: seq<Entry>, after: seq<Entry>, requestId: string, at: Stamps,
                               changes: (Entry, Entry) -> bool) {
    && (forall i: nat :: NewestOf(before, requestId, i) ==>
          |after| == |before| && after == before[i := after[i]] && changes(before[i], after[i]))
    && ((forall e :: e in before ==> e.requestId != requestId) ==>
          && |after| == |before| + 1 && after[..|before|] == before
          && exists blank :: IsBlank(blank, requestId, at) && changes(blank, after[|before|]))
  }

  ghost function Given<T>(value: Option<T>, stored: T): (r: T) {
    match value
    case None => stored
    case Some(v) => v
  }

  /** A finished entry: its status and time of finish are those given, every text and list is the preview of the one
      given or else of the stored one, and what the entry was started with is kept. */
  ghost predicate Finishes(f: Finish, p: Preview, at: Stamps, before: Entry, after: Entry) {
    && after.status == f.status && after.finishedAt == at.finished
    && after.response == p.text(f.response, 2000)
    && after.events == p.items(Given(f.events, before.events), 4000)
    && after.runtimeEvents == p.items(Given(f.runtimeEvents, before.runtimeEvents), 4000)
    && after.contextState == p.text(Given(f.contextState, before.contextState), 4000)
    && after.llmDebug == p.text(Given(f.llmDebug, before.llmDebug), 4000)
    && after.requestId == before.requestId && after.message == before.message && after.createdAt == before.createdAt
  }

  /** An entry with one more event: the preview of it joins the runtime events or the others, and nothing else
      changes. */
  ghost predicate Gains(event: string, runtime: bool, p: Preview, before: Entry, after: Entry) {
    && after.runtimeEvents == before.runtimeEvents + (if runtime then [p.text(event, 1000)] else [])
    && after.events == before.events + (if runtime then [] else [p.text(event, 1000)])
    && before == after.(runtimeEvents := before.runtimeEvents, events := before.events)
  }

  /** A started entry joins the log as its last: running, without a response or events of its own, and with the
      previews of what it is started with. */
  ghost predicate Starts(entry: Entry, p: Preview, at: Stamps, before: seq<Entry>, after: seq<Entry>) {
    && |after| == |before| + 1 && after[..|before|] == before
    && var e := after[|before|];
       && e.requestId == entry.requestId && e.status == "running" && e.response == "" && e.events == []
       && e.message == p.text(entry.message, 2000) && e.runtimeEvents == p.items(entry.runtimeEvents, 4000)
       && e.contextState == p.text(entry.contextState, 4000) && e.llmDebug == p.text(entry.llmDebug, 4000)
       && e.createdAt == at.created && e.finishedAt == ""
  }

  lemma BaseIsBefore(m: map<Name, File>, sessionId: string, at: Stamps)
    ensures BaseLog(m, sessionId, at).entries == EntriesBefore(m, sessionId)
    ensures BaseLog(m, sessionId, at).sessionId == OwnerBefore(m, sessionId)
  {
    hide Sanitize;
  }

  lemma NewestIs(entries: seq<Entry>, requestId: string, i: nat)
    requires NewestOf(entries, requestId, i)
    ensures EntryIndex(entries, requestId) == i
  {
  }

  lemma NoneIsLast(entries: seq<Entry>, requestId: string)
    requires forall e :: e in entries ==> e.requestId != requestId
    ensures EntryIndex(entries, requestId) == |entries|
  {
    assert forall i :: 0 <= i < |entries| ==> entries[i] in entries;
  }

  lemma StartedStarts(log: Log, entry: Entry, p: Preview, at: Stamps)
    ensures Starts(entry, p, at, log.entries, StartedLog(log, entry, p, at).entries)
    ensures StartedLog(log, entry, p, at).sessionId == log.sessionId
            && StartedLog(log, entry, p, at).updatedAt == at.updated
  {
  }

  lemma FinishedFinishes(f: Finish, p: Preview, at: Stamps, e: Entry)
    ensures Finishes(f, p, at, e, Finished(e, f, p, at))
  {
  }

  lemma WithEventGains(event: string, runtime: bool, p: Preview, e: Entry)
    ensures Gains(event, runtime, p, e, WithEvent(e, event, runtime, p))
  {
  }

  lemma NewEntryIsBlank(requestId: string, at: Stamps)
    ensures IsBlank(NewEntry(requestId, at), requestId, at)
  {
  }

  /** Changing the entry that `WithEntry` provides changes the newest one, or a blank one. */
  lemma WithEntryChanges(log: Log, requestId: string, at: Stamps, changed: Entry, changes: (Entry, Entry) -> bool)
    requires var l := WithEntry(log, requestId, at); changes(l.entries[EntryIndex(l.entries, requestId)], changed)
    ensures var l := WithEntry(log, requestId, at);
            ChangesEntry(log.entries, l.entries[EntryIndex(l.entries, requestId) := changed], requestId, at, changes)
    ensures WithEntry(log, requestId, at).sessionId == log.sessionId
  {
    hide IsBlank, EntryIndex, NewEntry;
    var l := WithEntry(log, requestId, at);
    var n := EntryIndex(l.entries, requestId);
    var after := l.entries[n := changed];
    forall i: nat | NewestOf(log.entries, requestId, i)
      ensures |after| == |log.entries| && after == log.entries[i := after[i]] && changes(log.entries[i], after[i])
    {
      NewestIs(log.entries, requestId, i);
    }
    if forall e :: e in log.entries ==> e.requestId != requestId {
      NoneIsLast(log.entries, requestId);
      NewEntryIsBlank(requestId, at);
      LastIsNewest(log.entries, NewEntry(requestId, at), requestId, at);
    }
  }

  lemma LastIsNewest(entries: seq<Entry>, blank: Entry, requestId: string, at: Stamps)
    requires IsBlank(blank, requestId, at)
    ensures EntryIndex(entries + [blank], requestId) == |entries|
  {
    var all := entries + [blank];
    assert all[|entries|] == blank;
  }

  /** The log is saved under the session's name, stamped, for the session it is kept for; nothing else changes. */
  ghost predicate SavedAs(m: map<Name, File>, m': map<Name, File>, sessionId: string, at: Stamps, saved: Log) {
    && m' == m[Sanitize(sessionId) := Json(saved)]
    && saved.updatedAt == at.updated && saved.sessionId == OwnerBefore(m, sessionId)
  }

  lemma StartMeans(m: map<Name, File>, sessionId: string, entry: Entry, at: Stamps, p: Preview)
    ensures var w := WriteThrough(m, Start(sessionId, entry, at), p);
            && w.1.Saved? && SavedAs(m, w.0, sessionId, at, w.1.log)
            && Starts(entry, p, at, EntriesBefore(m, sessionId), w.1.log.entries)
  {
    hide Sanitize, BaseLog, StartedLog, Starts, EntriesBefore, OwnerBefore;
    BaseIsBefore(m, sessionId, at);
    StartedStarts(BaseLog(m, sessionId, at), entry, p, at);
  }

  lemma FinishMeans(m: map<Name, File>, sessionId: string, requestId: string, f: Finish, at: Stamps, p: Preview)
    ensures var w := WriteThrough(m, FinishRun(sessionId, requestId, f, at), p);
            && w.1.Saved? && SavedAs(m, w.0, sessionId, at, w.1.log)
            && ChangesEntry(EntriesBefore(m, sessionId), w.1.log.entries, requestId, at,
                            (e, g) => Finishes(f, p, at, e, g))
  {
    hide Sanitize, BaseLog, EntriesBefore, OwnerBefore, ChangesEntry, WithEntry, EntryIndex, Finished, Finishes;
    BaseIsBefore(m, sessionId, at);
    var l := WithEntry(BaseLog(m, sessionId, at), requestId, at);
    var e := l.entries[EntryIndex(l.entries, requestId)];
    FinishedFinishes(f, p, at, e);
    WithEntryChanges(BaseLog(m, sessionId, at), requestId, at, Finished(e, f, p, at),
                     (e, g) => Finishes(f, p, at, e, g));
  }

  lemma AppendMeans(m: map<Name, File>, sessionId: string, requestId: string, event: string, runtime: bool, at: Stamps,
                    p: Preview)
    ensures var w := WriteThrough(m, Append(sessionId, requestId, event, runtime, at), p);
            && w.1.Saved? && SavedAs(m, w.0, sessionId, at, w.1.log)
            && ChangesEntry(EntriesBefore(m, sessionId), w.1.log.entries, requestId, at,
                            (e, g) => Gains(event, runtime, p, e, g))
  {
    hide Sanitize, BaseLog, EntriesBefore, OwnerBefore, ChangesEntry, WithEntry, EntryIndex, WithEvent, Gains;
    BaseIsBefore(m, sessionId, at);
    var l := WithEntry(BaseLog(m, sessionId, at), requestId, at);
    var e := l.entries[EntryIndex(l.entries, requestId)];
    WithEventGains(event, runtime, p, e);
    WithEntryChanges(BaseLog(m, sessionId, at), requestId, at, WithEvent(e, event, runtime, p),
                     (e, g) => Gains(event, runtime, p, e, g));
  }

  // ---------------------------------------------------------- the store's state

  /** The store's fields: `order` lists the cached names, least recently used first. */
  datatype State = State(cap: nat, interval: real, order: seq<Name>, cache: map<Name, Log>, pending: set<Name>,
                         lastWriteAt: map<Name, real>, disk: map<Name, File>, quarantined: seq<Name>)

  /** The clock readings of one call, and the order in which flush_all happens to visit the pending names. */
  datatype Clocks = Clocks(check: real, write: real, flushes: seq<(Name, real)>)

  /** What a write-through map would hold: the memory where there is one, else the file. */
  function Overlay(disk: map<Name, File>, cache: map<Name, Log>): (m: map<Name, File>) {
    map n | n in disk :: if n in cache then Json(cache[n]) else disk[n]
  }

  function View(s: State): (m: map<Name, File>) {
    Overlay(s.disk, s.cache)
  }

  ghost predicate Ordered(order: seq<Name>, cache: map<Name, Log>) {
    NoDup(order) && ToSet(order) == cache.Keys
  }

  /** Pending names are cached and have been written before; what was written has a file. */
  ghost predicate Pinned(pending: set<Name>, times: map<Name, real>, cache: map<Name, Log>, disk: map<Name, File>) {
    && pending <= times.Keys <= cache.Keys
    && forall n :: n in times ==> n in disk && disk[n].Json?
  }

  /** A cached log has a file, which equals it unless the name is pending; `except` is not looked at. */
  ghost predicate Backed(disk: map<Name, File>, cache: map<Name, Log>, pending: set<Name>, except: set<Name>) {
    forall n :: n in cache && n !in except ==>
      n in disk && disk[n].Json? && (n !in pending ==> disk[n].log == cache[n])
  }

  /** Pending names are sanitized, so that flushing them by name reaches them. */
  ghost predicate Named(pending: set<Name>) {
    forall n {:trigger Sanitize(n.text)} :: n in pending ==> Sanitize(n.text) == n
  }

  ghost predicate Bounded(order: seq<Name>, pending: set<Name>, cap: nat) {
    |order| <= Max(cap, |pending| + 1)
  }

  ghost predicate Inv(s: State) {
    && s.cap >= 1
    && Ordered(s.order, s.cache)
    && Pinned(s.pending, s.lastWriteAt, s.cache, s.disk)
    && Backed(s.disk, s.cache, s.pending, {})
    && Named(s.pending)
    && Bounded(s.order, s.pending, s.cap)
  }

  function Remembered(s: State, name: Name, log: Log): (r: State) {
    var plan := EvictionPlan(s.order, name, s.pending, s.cap);
    var gone := ToSet(plan.victims);
    s.(order := plan.kept, cache := s.cache[name := log] - gone, lastWriteAt := s.lastWriteAt - gone)
  }

  /** The file write itself: it settles the name and restarts its interval. */
  function Stored(s: State, name: Name, log: Log, clock: real): (r: State) {
    s.(disk := s.disk[name := Json(log)], pending := s.pending - {name}, lastWriteAt := s.lastWriteAt[name := clock])
  }

  function Written(s: State, name: Name, log: Log, clock: real): (r: State) {
    Stored(Remembered(s, name, log), name, log, clock)
  }

  function Coalesced(s: State, name: Name, log: Log, c: Clocks): (r: State) {
    var t := Remembered(s, name, log);
    if name in t.lastWriteAt && c.check - t.lastWriteAt[name] < s.interval then t.(pending := t.pending + {name})
    else Written(t, name, log, c.write)
  }

  function Flushed(s: State, name: Name, clock: real): (r: State) {
    if name !in s.pending || name !in s.cache then s.(pending := s.pending - {name})
    else Written(s, name, s.cache[name], clock)
  }

  function FlushedAll(s: State, visits: seq<(Name, real)>): (r: State)
    decreases |visits|
  {
    if visits == [] then s
    else FlushedAll(Flushed(s, Sanitize(visits[0].0.text), visits[0].1), visits[1..])
  }

  function Forgotten(s: State, name: Name): (r: State) {
    s.(order := Remove(s.order, name), cache := s.cache - {name}, pending := s.pending - {name},
       lastWriteAt := s.lastWriteAt - {name})
  }

  /** `get`: the state it leaves and the file it answers with. */
  function Fetched(s: State, name: Name): (r: (State, Option<File>)) {
    if name in s.cache then (s.(order := Touch(s.order, name)), Some(Json(s.cache[name])))
    else if name !in s.disk then (s, None)
    else if s.disk[name].Corrupt? then (s, Some(Corrupt))
    else (Remembered(s, name, s.disk[name].log), Some(s.disk[name]))
  }

  /** `_ensure`: an unreadable file is moved aside and a fresh log is used. */
  function Ensured(s: State, sessionId: string, at: Stamps): (r: (State, Log)) {
    var name := Sanitize(sessionId);
    var got := Fetched(s, name);
    match got.1
    case None => (got.0, FreshLog(sessionId, at))
    case Some(Json(log)) => (got.0, log)
    case Some(Corrupt) =>
      var t := Forgotten(got.0, name);
      (t.(disk := t.disk - {name}, quarantined := t.quarantined + [name]), FreshLog(sessionId, at))
  }

  /** One call of a public method. */
  function Step(s: State, op: Op, p: Preview, c: Clocks): (r: (State, Answer)) {
    match op
    case Get(sid) =>
      var got := Fetched(s, Sanitize(sid));
      (got.0, if got.1.Some? then Found(got.1.value) else Absent)
    case Start(sid, entry, at) =>
      var base := Ensured(s, sid, at);
      var log := StartedLog(base.1, entry, p, at);
      (Written(base.0, Sanitize(sid), log, c.write), Saved(log))
    case FinishRun(sid, rid, f, at) =>
      var base := Ensured(s, sid, at);
      var log := FinishedLog(base.1, rid, f, p, at);
      (Written(base.0, Sanitize(sid), log, c.write), Saved(log))
    case Append(sid, rid, event, runtime, at) =>
      var base := Ensured(s, sid, at);
      var log := AppendedLog(base.1, rid, event, runtime, p, at);
      (Coalesced(base.0, Sanitize(sid), log, c), Saved(log))
    case Flush(sid) => (Flushed(s, Sanitize(sid), c.write), Done)
    case FlushAll => (FlushedAll(s, c.flushes), Done)
    case Delete(sid) =>
      var t := Forgotten(s, Sanitize(sid));
      (t.(disk := t.disk - {Sanitize(sid)}), Deleted(Sanitize(sid) in s.disk))
  }

  // ------------------------------------------------- what each part preserves

  lemma RememberedOrder(s: State, name: Name, log: Log)
    requires Ordered(s.order, s.cache) && s.pending <= s.cache.Keys
    ensures var t := Remembered(s, name, log); Ordered(t.order, t.cache)
    ensures ToSet(EvictionPlan(s.order, name, s.pending, s.cap).victims) !! s.pending + {name}
  {
    hide EvictionPlan, NoDup;
    EvictionPlanFits(s.order, name, s.pending, s.cap);
  }

  /** Caching a log leaves everything but its own name as it was: whatever is evicted equals its file. */
  lemma RememberedView(s: State, name: Name, log: Log)
    requires Ordered(s.order, s.cache) && Pinned(s.pending, s.lastWriteAt, s.cache, s.disk)
    requires Backed(s.disk, s.cache, s.pending, {name})
    ensures var t := Remembered(s, name, log);
            && Ordered(t.order, t.cache)
            && Pinned(t.pending, t.lastWriteAt, t.cache, t.disk)
            && Backed(t.disk, t.cache, t.pending, {name})
            && name in t.cache && t.cache[name] == log
            && View(t)[name := Json(log)] == View(s)[name := Json(log)]
            && (name in s.lastWriteAt ==> name in t.lastWriteAt && t.lastWriteAt[name] == s.lastWriteAt[name])
  {
    hide EvictionPlan, Ordered;
    assert s.pending <= s.cache.Keys;
    RememberedOrder(s, name, log);
  }

  /** The size bound for whatever the pending set becomes when only `name` joins or leaves it. */
  lemma RememberedBound(s: State, name: Name, log: Log, pending': set<Name>)
    requires Ordered(s.order, s.cache) && s.pending <= s.cache.Keys
    requires pending' + {name} == s.pending + {name}
    ensures Bounded(Remembered(s, name, log).order, pending', s.cap)
  {
    EvictionPlanBound(s.order, name, s.pending, s.cap, pending');
  }

  lemma StoredView(s: State, name: Name, log: Log, clock: real)
    requires Pinned(s.pending, s.lastWriteAt, s.cache, s.disk) && Backed(s.disk, s.cache, s.pending, {name})
    requires name in s.cache && s.cache[name] == log
    ensures var t := Stored(s, name, log, clock);
            && Pinned(t.pending, t.lastWriteAt, t.cache, t.disk) && Backed(t.disk, t.cache, t.pending, {})
            && View(t) == View(s)[name := Json(log)]
  {
    hide Pinned, Backed, Overlay;
    StoredPinned(s.pending, s.lastWriteAt, s.cache, s.disk, name, log, clock);
    StoredBacked(s.disk, s.cache, s.pending, name, log);
    StoredOverlay(s.disk, s.cache, name, log);
  }

  lemma StoredPinned(pending: set<Name>, times: map<Name, real>, cache: map<Name, Log>, disk: map<Name, File>,
                     name: Name, log: Log, clock: real)
    requires Pinned(pending, times, cache, disk) && name in cache
    ensures Pinned(pending - {name}, times[name := clock], cache, disk[name := Json(log)])
  {
  }

  lemma StoredBacked(disk: map<Name, File>, cache: map<Name, Log>, pending: set<Name>, name: Name, log: Log)
    requires Backed(disk, cache, pending, {name}) && name in cache && cache[name] == log
    ensures Backed(disk[name := Json(log)], cache, pending - {name}, {})
  {
  }

  lemma StoredOverlay(disk: map<Name, File>, cache: map<Name, Log>, name: Name, log: Log)
    requires name in cache && cache[name] == log
    ensures Overlay(disk[name := Json(log)], cache) == Overlay(disk, cache)[name := Json(log)]
  {
  }

  /** A write makes the view hold the log and restores the invariant. */
  lemma WrittenInv(s: State, name: Name, log: Log, clock: real)
    requires s.cap >= 1 && Ordered(s.order, s.cache) && Pinned(s.pending, s.lastWriteAt, s.cache, s.disk)
    requires Backed(s.disk, s.cache, s.pending, {name}) && Named(s.pending)
    ensures Inv(Written(s, name, log, clock))
    ensures View(Written(s, name, log, clock)) == View(s)[name := Json(log)]
  {
    hide EvictionPlan, Ordered, Bounded, Backed, View;
    assert s.pending <= s.cache.Keys;
    RememberedBound(s, name, log, s.pending - {name});
    RememberedView(s, name, log);
    StoredView(Remembered(s, name, log), name, log, clock);
  }

  /** An append makes the view hold the log whether or not the write is put off. */
  lemma CoalescedInv(s: State, name: Name, log: Log, c: Clocks)
    requires s.cap >= 1 && Ordered(s.order, s.cache) && Pinned(s.pending, s.lastWriteAt, s.cache, s.disk)
    requires Backed(s.disk, s.cache, s.pending, {name}) && Named(s.pending) && Sanitize(name.text) == name
    ensures Inv(Coalesced(s, name, log, c))
    ensures View(Coalesced(s, name, log, c)) == View(s)[name := Json(log)]
  {
    hide EvictionPlan, Ordered, Bounded, Written, Inv, Sanitize;
    assert s.pending <= s.cache.Keys;
    var t := Remembered(s, name, log);
    RememberedView(s, name, log);
    WrittenInv(t, name, log, c.write);
    if name in t.lastWriteAt && c.check - t.lastWriteAt[name] < s.interval {
      CoalescedInvDeferred(s, name, log, c);
    }
  }

  lemma CoalescedInvDeferred(s: State, name: Name, log: Log, c: Clocks)
    requires s.cap >= 1 && Ordered(s.order, s.cache) && Pinned(s.pending, s.lastWriteAt, s.cache, s.disk)
    requires Backed(s.disk, s.cache, s.pending, {name}) && Named(s.pending) && Sanitize(name.text) == name
    requires var t := Remembered(s, name, log); name in t.lastWriteAt && c.check - t.lastWriteAt[name] < s.interval
    ensures Inv(Coalesced(s, name, log, c))
    ensures View(Coalesced(s, name, log, c)) == View(s)[name := Json(log)]
  {
    hide EvictionPlan, Ordered, Bounded, Sanitize, Pinned, Backed, View;
    PendingIsCached(s);
    RememberedBound(s, name, log, s.pending + {name});
    RememberedView(s, name, log);
    DeferredView(Remembered(s, name, log), name, log);
  }

  lemma PendingIsCached(s: State)
    requires Pinned(s.pending, s.lastWriteAt, s.cache, s.disk)
    ensures s.pending <= s.cache.Keys
  {
  }

  /** A name that was written before can be pinned: its file is there, and readers see the memory. */
  lemma DeferredView(s: State, name: Name, log: Log)
    requires Pinned(s.pending, s.lastWriteAt, s.cache, s.disk) && Backed(s.disk, s.cache, s.pending, {name})
    requires name in s.cache && s.cache[name] == log && name in s.lastWriteAt
    ensures var t := s.(pending := s.pending + {name});
            && Pinned(t.pending, t.lastWriteAt, t.cache, t.disk) && Backed(t.disk, t.cache, t.pending, {})
            && View(t) == View(s)[name := Json(log)]
  {
    assert View(s)[name] == Json(log);
  }

  lemma FlushedInv(s: State, name: Name, clock: real)
    requires Inv(s)
    ensures Inv(Flushed(s, name, clock)) && View(Flushed(s, name, clock)) == View(s)
    ensures Flushed(s, name, clock).pending == s.pending - {name}
    ensures name in s.pending ==> Flushed(s, name, clock).disk == s.disk[name := View(s)[name]]
  {
    hide EvictionPlan, Ordered, Bounded, Named;
    if name in s.pending && name in s.cache {
      WrittenInv(s, name, s.cache[name], clock);
      assert View(s)[name := Json(s.cache[name])] == View(s);
    } else {
      assert s.pending - {name} == s.pending;
    }
  }

  /** flush_all changes nothing a reader sees, and no visited name stays pending. */
  lemma {:induction false} FlushedAllInv(s: State, visits: seq<(Name, real)>)
    requires Inv(s)
    ensures Inv(FlushedAll(s, visits)) && View(FlushedAll(s, visits)) == View(s)
    ensures FlushedAll(s, visits).pending <= s.pending
    ensures forall v :: v in visits ==> Sanitize(v.0.text) !in FlushedAll(s, visits).pending
    decreases |visits|
  {
    hide Inv, View, Flushed, Sanitize;
    if visits != [] {
      var name := Sanitize(visits[0].0.text);
      FlushedInv(s, name, visits[0].1);
      FlushedAllInv(Flushed(s, name, visits[0].1), visits[1..]);
      assert visits == [visits[0]] + visits[1..];
    }
  }

  /** Visiting every pending name by the name it is pending under leaves the files equal to the memory. */
  lemma FlushAllReachesDisk(s: State, visits: seq<(Name, real)>)
    requires Inv(s) && forall n :: n in s.pending ==> exists v :: v in visits && v.0 == n
    ensures var t := FlushedAll(s, visits); t.pending == {} && t.disk == View(s)
  {
    hide Inv, View, FlushedAll, Sanitize;
    FlushedAllInv(s, visits);
    forall n | n in s.pending
      ensures n !in FlushedAll(s, visits).pending
    {
      var v :| v in visits && v.0 == n;
      PendingIsReachable(s, n);
    }
    assert FlushedAll(s, visits).pending == {};
    NothingPendingIsOnDisk(FlushedAll(s, visits));
  }

  lemma NothingPendingIsOnDisk(s: State)
    requires Inv(s) && s.pending == {}
    ensures s.disk == View(s)
  {
    hide Ordered, Bounded, Named, Pinned;
  }

  lemma ForgottenOrder(s: State, name: Name)
    requires Ordered(s.order, s.cache)
    ensures var t := Forgotten(s, name);
            Ordered(t.order, t.cache) && |t.order| <= |s.order| && (name in s.cache ==> |t.order| < |s.order|)
  {
    hide NoDup;
    RemoveKeepsRest(s.order, name);
    RemoveLength(s.order, name);
    assert name in s.cache ==> name in ToSet(s.order);
  }

  lemma ForgottenView(s: State, name: Name)
    requires Pinned(s.pending, s.lastWriteAt, s.cache, s.disk) && Backed(s.disk, s.cache, s.pending, {})
    ensures var t := Forgotten(s, name);
            && Pinned(t.pending, t.lastWriteAt, t.cache, t.disk) && Backed(t.disk, t.cache, t.pending, {})
            && View(t) - {name} == View(s) - {name}
  {
  }

  lemma ForgottenBound(s: State, name: Name)
    requires Bounded(s.order, s.pending, s.cap) && s.cap >= 1 && (name in s.pending ==> name in s.cache)
    requires var t := Forgotten(s, name); |t.order| <= |s.order| && (name in s.cache ==> |t.order| < |s.order|)
    ensures var t := Forgotten(s, name); Bounded(t.order, t.pending, t.cap)
  {
    if name !in s.pending {
      assert s.pending - {name} == s.pending;
    }
  }

  lemma ForgottenInv(s: State, name: Name)
    requires Inv(s)
    ensures Inv(Forgotten(s, name)) && View(Forgotten(s, name)) - {name} == View(s) - {name}
    ensures name !in Forgotten(s, name).cache
  {
    hide Ordered, Bounded, Backed, View;
    assert name in s.pending ==> name in s.cache;
    ForgottenOrder(s, name);
    ForgottenBound(s, name);
    ForgottenView(s, name);
  }

  lemma TouchedOrder(order: seq<Name>, cache: map<Name, Log>, name: Name)
    requires Ordered(order, cache) && name in cache
    ensures Ordered(Touch(order, name), cache) && |Touch(order, name)| == |order|
  {
    TouchKeepsNames(order, name);
    NoDupCardinality(order);
    assert name in ToSet(order);
    assert ToSet(order) + {name} == ToSet(order);
  }

  lemma FetchedInv(s: State, name: Name)
    requires Inv(s)
    ensures var got := Fetched(s, name);
            && Inv(got.0) && View(got.0) == View(s)
            && got.1 == (if name in View(s) then Some(View(s)[name]) else None)
            && got.0.pending == s.pending && got.0.disk == s.disk
            && (got.1 == Some(Corrupt) ==> got.0 == s && name !in s.cache)
  {
    hide Ordered, Pinned, Named, Sanitize, EvictionPlan;
    if name in s.cache {
      TouchedOrder(s.order, s.cache, name);
    } else if name in s.disk && s.disk[name].Json? {
      LoadedInv(s, name);
    }
  }

  lemma SameViewAt(a: map<Name, File>, b: map<Name, File>, name: Name, file: File)
    requires a[name := file] == b[name := file] && name in a && name in b && a[name] == file && b[name] == file
    ensures a == b
  {
    assert a == a[name := file] && b == b[name := file];
  }

  lemma LoadedInv(s: State, name: Name)
    requires Inv(s) && name !in s.cache && name in s.disk && s.disk[name].Json?
    ensures var t := Remembered(s, name, s.disk[name].log); Inv(t) && View(t) == View(s)
  {
    hide EvictionPlan, Ordered, Bounded, Named;
    RememberedBound(s, name, s.disk[name].log, s.pending);
    RememberedView(s, name, s.disk[name].log);
    hide View, Remembered;
    SameViewAt(View(s), View(Remembered(s, name, s.disk[name].log)), name, s.disk[name]);
  }

  lemma EnsuredInv(s: State, sessionId: string, at: Stamps)
    requires Inv(s)
    ensures var base := Ensured(s, sessionId, at); var name := Sanitize(sessionId);
            && Inv(base.0) && base.1 == BaseLog(View(s), sessionId, at)
            && View(base.0) - {name} == View(s) - {name}
  {
    hide Ordered, Bounded, Pinned, Backed, Named, Sanitize, View, Fetched, Forgotten;
    var name := Sanitize(sessionId);
    FetchedInv(s, name);
    if Fetched(s, name).1 == Some(Corrupt) {
      ForgottenInv(s, name);
      QuarantinedInv(Forgotten(s, name), name);
    }
  }

  /** Removing the file of a forgotten name. */
  lemma QuarantinedInv(s: State, name: Name)
    requires Inv(s) && name !in s.cache
    ensures var t := s.(disk := s.disk - {name}); Inv(t) && View(t) == View(s) - {name}
    ensures var t := s.(disk := s.disk - {name}, quarantined := s.quarantined + [name]);
            Inv(t) && View(t) == View(s) - {name}
  {
    hide Ordered, Bounded, Named;
  }

  // ------------------------------------------------------------ transparency

  /** One call answers as the write-through map does, and the store still shows what that map would hold. */
  lemma StepIsWriteThrough(s: State, op: Op, p: Preview, c: Clocks)
    requires Inv(s)
    ensures var t := Step(s, op, p, c); var w := WriteThrough(View(s), op, p);
            Inv(t.0) && View(t.0) == w.0 && t.1 == w.1
  {
    hide View, Ordered, Bounded, Named, Pinned, Backed, Sanitize, Fetched, Ensured, Written, Coalesced, Flushed,
         FlushedAll;
    match op
    case Get(sid) => FetchedInv(s, Sanitize(sid));
    case Start(sid, entry, at) =>
      EnsuredInv(s, sid, at);
      SaveInv(s, sid, at, StartedLog(Ensured(s, sid, at).1, entry, p, at), c);
    case FinishRun(sid, rid, f, at) =>
      EnsuredInv(s, sid, at);
      SaveInv(s, sid, at, FinishedLog(Ensured(s, sid, at).1, rid, f, p, at), c);
    case Append(sid, rid, event, runtime, at) =>
      EnsuredInv(s, sid, at);
      SaveInv(s, sid, at, AppendedLog(Ensured(s, sid, at).1, rid, event, runtime, p, at), c);
    case Flush(sid) => FlushedInv(s, Sanitize(sid), c.write);
    case FlushAll => FlushedAllInv(s, c.flushes);
    case Delete(sid) => DeletedInv(s, Sanitize(sid));
  }

  /** Both ways of saving what a call made of the log it started from. */
  lemma SaveInv(s: State, sessionId: string, at: Stamps, log: Log, c: Clocks)
    requires Inv(s)
    ensures var base := Ensured(s, sessionId, at).0; var name := Sanitize(sessionId);
            && Inv(Written(base, name, log, c.write))
               && View(Written(base, name, log, c.write)) == View(s)[name := Json(log)]
            && Inv(Coalesced(base, name, log, c)) && View(Coalesced(base, name, log, c)) == View(s)[name := Json(log)]
  {
    hide View, Ordered, Bounded, Named, Pinned, Ensured, Written, Coalesced, Sanitize;
    var base, name := Ensured(s, sessionId, at).0, Sanitize(sessionId);
    EnsuredInv(s, sessionId, at);
    SanitizeIdempotent(sessionId);
    WrittenInv(base, name, log, c.write);
    CoalescedInv(base, name, log, c);
    assert (View(base) - {name})[name := Json(log)] == View(base)[name := Json(log)];
    assert (View(s) - {name})[name := Json(log)] == View(s)[name := Json(log)];
  }

  lemma DeletedInv(s: State, name: Name)
    requires Inv(s)
    ensures var f := Forgotten(s, name); var t := f.(disk := f.disk - {name});
            Inv(t) && View(t) == View(s) - {name} && (name in s.disk <==> name in View(s))
  {
    hide Ordered, Bounded, Named, Pinned, Backed;
    ForgottenInv(s, name);
    QuarantinedInv(Forgotten(s, name), name);
  }

  /** The store's answers over a whole run, with the state it ends in. */
  function StoreRun(s: State, ops: seq<Op>, p: Preview, clocks: seq<Clocks>): (r: (State, seq<Answer>))
    requires |clocks| == |ops|
    decreases |ops|
  {
    if ops == [] then (s, [])
    else
      var first := Step(s, ops[0], p, clocks[0]);
      var rest := StoreRun(first.0, ops[1..], p, clocks[1..]);
      (rest.0, [first.1] + rest.1)
  }

  /** Whatever is called, at whatever clock readings and with whatever cap: the store answers as a map that
      writes every change through at once, it ends showing what that map holds, and its invariant holds. */
  lemma {:induction false} StoreIsWriteThrough(s: State, ops: seq<Op>, p: Preview, clocks: seq<Clocks>)
    requires Inv(s) && |clocks| == |ops|
    ensures var run := StoreRun(s, ops, p, clocks); var spec := WriteThroughRun(View(s), ops, p);
            run.1 == spec.1 && View(run.0) == spec.0 && Inv(run.0)
    decreases |ops|
  {
    hide Inv, View, Step, WriteThrough;
    if ops != [] {
      StepIsWriteThrough(s, ops[0], p, clocks[0]);
      StoreIsWriteThrough(Step(s, ops[0], p, clocks[0]).0, ops[1..], p, clocks[1..]);
    }
  }

  // ---------------------------------------------------------------- the store

  /** The store as the source writes it, updating its fields in place. */
  class ChatLogStore {
    const flushInterval: real
    const maxCached: nat
    const preview: Preview
    var order: seq<Name>              // the key order of the cache, least recently used first
    var cache: map<Name, Log>
    var pending: set<Name>
    var lastWriteAt: map<Name, real>
    var disk: map<Name, File>
    var quarantined: seq<Name>

    ghost function Now(): (s: State)
      reads this
    {
      State(maxCached, flushInterval, order, cache, pending, lastWriteAt, disk, quarantined)
    }

    ghost predicate Valid()
      reads this
    {
      Inv(Now())
    }

    constructor (interval: real, cap: int, preview: Preview, files: map<Name, File>)
      ensures Valid() && View(Now()) == files && this.preview == preview && maxCached == Max(1, cap)
      ensures cache == map[] && pending == {} && disk == files
    {
      flushInterval, maxCached, this.preview := interval, Max(1, cap), preview;
      order, cache, pending, lastWriteAt, disk, quarantined := [], map[], {}, map[], files, [];
    }

    method Remember(name: Name, log: Log)
      modifies this`order, this`cache, this`lastWriteAt
      ensures Now() == Remembered(old(Now()), name, log)
    {
      cache := cache[name := log];
      var touched := Touch(order, name);
      var excess := Excess(touched, maxCached);
      var candidates := Victims(touched, name, pending, excess);
      for i := 0 to |candidates|
        invariant cache == old(cache)[name := log] - ToSet(candidates[..i])
        invariant lastWriteAt == old(lastWriteAt) - ToSet(candidates[..i])
        invariant order == old(order)
      {
        cache := cache - {candidates[i]};
        lastWriteAt := lastWriteAt - {candidates[i]};
        assert ToSet(candidates[..i + 1]) == ToSet(candidates[..i]) + {candidates[i]};
      }
      assert candidates[..|candidates|] == candidates;
      order := Kept(touched, name, pending, excess);
      assert EvictionPlan(old(order), name, pending, maxCached) == Plan(candidates, order);
      assert ToSet(candidates) == ToSet(EvictionPlan(old(order), name, pending, maxCached).victims);
    }

    method Write(sessionId: string, log: Log, clock: real)
      modifies this
      ensures Now() == Written(old(Now()), Sanitize(sessionId), log, clock)
    {
      hide Remembered, Sanitize;
      var name := Sanitize(sessionId);
      Remember(name, log);
      disk := disk[name := Json(log)];
      pending := pending - {name};
      lastWriteAt := lastWriteAt[name := clock];
    }

    method WriteCoalesced(sessionId: string, log: Log, c: Clocks)
      modifies this
      ensures Now() == Coalesced(old(Now()), Sanitize(sessionId), log, c)
    {
      var name := Sanitize(sessionId);
      Remember(name, log);
      if name in lastWriteAt && c.check - lastWriteAt[name] < flushInterval {
        pending := pending + {name};
      } else {
        Write(sessionId, log, c.write);
      }
    }

    /** Write out what is pending for a session; the answer says whether anything moved. */
    method Flush(sessionId: string, clock: real) returns (moved: bool)
      modifies this
      ensures Now() == Flushed(old(Now()), Sanitize(sessionId), clock)
      ensures moved <==> Sanitize(sessionId) in old(pending) && Sanitize(sessionId) in old(cache)
    {
      var name := Sanitize(sessionId);
      if name !in pending || name !in cache {
        pending := pending - {name};
        return false;
      }
      Write(sessionId, cache[name], clock);
      return true;
    }

    /** Flush every pending name, in whatever order the set yields them; the answer counts them. */
    method FlushAll(visits: seq<(Name, real)>) returns (count: nat)
      requires Valid()
      requires forall n :: n in pending <==> exists v :: v in visits && v.0 == n
      requires forall i, j :: 0 <= i < j < |visits| ==> visits[i].0 != visits[j].0
      modifies this
      ensures Now() == FlushedAll(old(Now()), visits)
      ensures Valid() && pending == {} && disk == old(View(Now())) && View(Now()) == old(View(Now()))
      ensures count == |visits|
    {
      hide Inv, View, Flushed, Sanitize;
      FlushAllReachesDisk(Now(), visits);
      FlushedAllInv(Now(), visits);
      count := 0;
      for i := 0 to |visits|
        invariant Valid() && count == i
        invariant FlushedAll(Now(), visits[i..]) == FlushedAll(old(Now()), visits)
        invariant forall j :: i <= j < |visits| ==> visits[j].0 in pending
      {
        PendingIsReachable(Now(), visits[i].0);
        FlushedInv(Now(), visits[i].0, visits[i].1);
        assert visits[i..][1..] == visits[i + 1..];
        var moved := Flush(visits[i].0.text, visits[i].1);
        count := count + if moved then 1 else 0;
      }
    }

    method Forget(sessionId: string)
      modifies this`order, this`cache, this`pending, this`lastWriteAt
      ensures Now() == Forgotten(old(Now()), Sanitize(sessionId))
    {
      hide Sanitize;
      var name := Sanitize(sessionId);
      cache := cache - {name};
      order := Remove(order, name);
      pending := pending - {name};
      lastWriteAt := lastWriteAt - {name};
    }

    /** The stored log; an unreadable file is reported as such. */
    method Get(sessionId: string) returns (got: Option<File>)
      modifies this
      ensures Now() == Fetched(old(Now()), Sanitize(sessionId)).0 && got == Fetched(old(Now()), Sanitize(sessionId)).1
      ensures old(Valid()) ==> Valid() && View(Now()) == old(View(Now()))
      ensures old(Valid()) ==> got == if Sanitize(sessionId) in View(Now()) then Some(View(Now())[Sanitize(sessionId)])
                                      else None
    {
      hide Inv, View;
      var name := Sanitize(sessionId);
      if Valid() {
        FetchedInv(Now(), name);
      }
      if name in cache {
        order := Touch(order, name);
        return Some(Json(cache[name]));
      }
      if name !in disk {
        return None;
      }
      var payload := disk[name];
      if payload.Json? {
        Remember(name, payload.log);
      }
      return Some(payload);
    }

    method Ensure(sessionId: string, at: Stamps) returns (log: Log)
      modifies this
      ensures Now() == Ensured(old(Now()), sessionId, at).0 && log == Ensured(old(Now()), sessionId, at).1
    {
      hide Inv, View;
      var name := Sanitize(sessionId);
      var got := Get(sessionId);
      match got
      case None => log := FreshLog(sessionId, at);
      case Some(Json(stored)) => log := stored;
      case Some(Corrupt) =>
        Forget(sessionId);
        disk := disk - {name};
        quarantined := quarantined + [name];
        log := FreshLog(sessionId, at);
    }

    /** The newest entry of a request, searched from the end. */
    method FindEntry(log: Log, requestId: string) returns (found: Option<nat>)
      ensures found == if EntryIndex(log.entries, requestId) < |log.entries|
                       then Some(EntryIndex(log.entries, requestId)) else None
    {
      var i := |log.entries|;
      while i > 0
        invariant 0 <= i <= |log.entries|
        invariant forall j :: i <= j < |log.entries| ==> log.entries[j].requestId != requestId
      {
        i := i - 1;
        if log.entries[i].requestId == requestId {
          return Some(i);
        }
      }
      return None;
    }

    /** A log with an entry for the request and the index of that entry. */
    method EntryFor(log: Log, requestId: string, at: Stamps) returns (withEntry: Log, i: nat)
      ensures withEntry == WithEntry(log, requestId, at) && i == EntryIndex(withEntry.entries, requestId)
    {
      var found := FindEntry(log, requestId);
      if found.Some? {
        return log, found.value;
      }
      withEntry := log.(entries := log.entries + [NewEntry(requestId, at)]);
      i := |log.entries|;
    }

    method StartEntry(sessionId: string, entry: Entry, at: Stamps, c: Clocks) returns (saved: Log)
      requires Valid()
      modifies this
      ensures Now() == Step(old(Now()), Start(sessionId, entry, at), preview, c).0
      ensures Valid() && View(Now()) == WriteThrough(old(View(Now())), Start(sessionId, entry, at), preview).0
      ensures Saved(saved) == WriteThrough(old(View(Now())), Start(sessionId, entry, at), preview).1
      ensures SavedAs(old(View(Now())), View(Now()), sessionId, at, saved)
      ensures Starts(entry, preview, at, EntriesBefore(old(View(Now())), sessionId), saved.entries)
    {
      StartMeans(View(Now()), sessionId, entry, at, preview);
      hide SavedAs, Starts, EntriesBefore, Inv, View, WriteThrough, Ensured, Written, Sanitize;
      StepIsWriteThrough(Now(), Start(sessionId, entry, at), preview, c);
      var log := Ensure(sessionId, at);
      saved := StartedLog(log, entry, preview, at);
      Write(sessionId, saved, c.write);
    }

    method FinishEntry(sessionId: string, requestId: string, finish: Finish, at: Stamps, c: Clocks) returns (saved: Log)
      requires Valid()
      modifies this
      ensures Now() == Step(old(Now()), FinishRun(sessionId, requestId, finish, at), preview, c).0
      ensures Valid() && View(Now()) == WriteThrough(old(View(Now())), FinishRun(sessionId, requestId, finish, at),
                                                     preview).0
      ensures Saved(saved) == WriteThrough(old(View(Now())), FinishRun(sessionId, requestId, finish, at), preview).1
      ensures SavedAs(old(View(Now())), View(Now()), sessionId, at, saved)
      ensures ChangesEntry(EntriesBefore(old(View(Now())), sessionId), saved.entries, requestId, at,
                           (e, f) => Finishes(finish, preview, at, e, f))
    {
      FinishMeans(View(Now()), sessionId, requestId, finish, at, preview);
      hide SavedAs, ChangesEntry, Finishes, EntriesBefore, Inv, View, WriteThrough, Ensured, Written, Sanitize,
           WithEntry, EntryIndex, Finished;
      StepIsWriteThrough(Now(), FinishRun(sessionId, requestId, finish, at), preview, c);
      var log := Ensure(sessionId, at);
      var d, i := EntryFor(log, requestId, at);
      saved := d.(entries := d.entries[i := Finished(d.entries[i], finish, preview, at)], updatedAt := at.updated);
      Write(sessionId, saved, c.write);
    }

    method AppendEvent(sessionId: string, requestId: string, event: string, runtime: bool, at: Stamps, c: Clocks)
      returns (saved: Log)
      requires Valid()
      modifies this
      ensures Now() == Step(old(Now()), Append(sessionId, requestId, event, runtime, at), preview, c).0
      ensures Valid() && View(Now()) == WriteThrough(old(View(Now())),
                                                     Append(sessionId, requestId, event, runtime, at), preview).0
      ensures Saved(saved) == WriteThrough(old(View(Now())), Append(sessionId, requestId, event, runtime, at),
                                           preview).1
      ensures SavedAs(old(View(Now())), View(Now()), sessionId, at, saved)
      ensures ChangesEntry(EntriesBefore(old(View(Now())), sessionId), saved.entries, requestId, at,
                           (e, f) => Gains(event, runtime, preview, e, f))
    {
      AppendMeans(View(Now()), sessionId, requestId, event, runtime, at, preview);
      hide SavedAs, ChangesEntry, Gains, EntriesBefore, Inv, View, WriteThrough, Ensured, Coalesced, Sanitize,
           WithEntry, EntryIndex, WithEvent;
      StepIsWriteThrough(Now(), Append(sessionId, requestId, event, runtime, at), preview, c);
      var log := Ensure(sessionId, at);
      var d, i := EntryFor(log, requestId, at);
      saved := d.(entries := d.entries[i := WithEvent(d.entries[i], event, runtime, preview)], updatedAt := at.updated);
      WriteCoalesced(sessionId, saved, c);
    }

    method DeleteLog(sessionId: string) returns (existed: bool)
      requires Valid()
      modifies this
      ensures Valid() && View(Now()) == old(View(Now())) - {Sanitize(sessionId)}
      ensures existed <==> Sanitize(sessionId) in old(View(Now()))
    {
      hide Inv, View, Forgotten, Sanitize;
      DeletedInv(Now(), Sanitize(sessionId));
      Forget(sessionId);
      existed := Sanitize(sessionId) in disk;
      disk := disk - {Sanitize(sessionId)};
    }
  }

  lemma PendingIsReachable(s: State, name: Name)
    requires Inv(s) && name in s.pending
    ensures Sanitize(name.text) == name && name in s.cache
  {
  }
}
