/**
 The portal's session records (session_store.py): renames, generated titles, chats, deletions and
 the repointing of a record to another upstream
 session. */
module Sessions {
  import opened Seqs
  import PyText

  datatype Record = Record(portalSession: string, upstream: string, title: string, agent: Option<string>,
                           model: Option<string>,
                           createdAt: string, updatedAt: string, lastMessage: string, messageCount: int, deleted: bool,
                           partialRecovery: bool, customTitle: Option<string>, generatedTitle: Option<string>)

  type Index = map<string, Record>

  /** What the handlers and background jobs do to the store. */
  datatype Op =
    | Rename(id: string, title: string, now: string)
    | SetGeneratedTitle(id: string, title: string)
    | UpdateAfterChat(id: string, lastMessage: string, answer: string, model: Option<string>, agent: Option<string>,
                      now: string)
    | MarkDeleted(id: string, now: string)
    | Clear(at: string -> string)    // the time of each record's own update
    | Replace(id: string, upstream: string, count: int, lastMessage: string, now: string)

  /** A name without surrounding white space, if anything is left of it. */
  function CleanName(name: Option<string>): (r: Option<string>) {
    if name.Some? && PyText.Strip(name.value) != "" then Some(PyText.Strip(name.value)) else None
  }

  function OrElse<T>(a: Option<T>, b: Option<T>): (r: Option<T>) {
    if a.Some? then a else b
  }

  /** The manual name, then the generated one, then the one the session was created with. */
  function DisplayName(r: Record): (name: string) {
    match OrElse(CleanName(r.customTitle), OrElse(CleanName(r.generatedTitle), CleanName(Some(r.title))))
    case Some(name) => name
    case None => "Chat"
  }

  /** Names of white space count as none. */
  ghost predicate Blank(name: Option<string>) {
    name == None || PyText.Strip(name.value) == ""
  }

  /** The name shown is the manual one, else the generated one, else the title; without any of them it is `Chat`. */
  lemma NameShown(r: Record)
    ensures !Blank(r.customTitle) ==> DisplayName(r) == PyText.Strip(r.customTitle.value)
    ensures Blank(r.customTitle) && !Blank(r.generatedTitle) ==> DisplayName(r) == PyText.Strip(r.generatedTitle.value)
    ensures Blank(r.customTitle) && Blank(r.generatedTitle) ==>
              DisplayName(r) == if PyText.Strip(r.title) == "" then "Chat" else PyText.Strip(r.title)
  {
    hide PyText.Strip;
  }

  function NonEmptyOr(a: Option<string>, b: Option<string>): (r: Option<string>) {
    if a.Some? && a.value != "" then a else b
  }

  /** A record after an operation on it. */
  function Changed(r: Record, op: Op): (s: Record) {
    match op
    case Rename(_, title, now) => r.(title := title, customTitle := Some(title), updatedAt := now)
    case SetGeneratedTitle(_, title) =>
      r.(generatedTitle := if PyText.Strip(title) == "" then None else Some(PyText.Strip(title)))
    case UpdateAfterChat(_, last, answer, model, agent, now) =>
      if r.deleted then r
      else r.(model := if model in {None, Some("")} then r.model else model,
              agent := if agent in {None, Some("")} then r.agent else agent,
              lastMessage := if answer != "" then answer else last,
              messageCount := if r.messageCount + 2 > 2 then r.messageCount + 2 else 2, updatedAt := now)
    case MarkDeleted(_, now) => r.(deleted := true, updatedAt := now)
    case Clear(at) => if r.deleted then r else r.(deleted := true, updatedAt := at(r.portalSession))
    case Replace(_, upstream, count, last, now) =>
      if r.deleted then r
      else r.(upstream := upstream, lastMessage := last, updatedAt := now,
              messageCount := if count > 0 then count else 0)
  }

  function Applied(s: Index, op: Op): (t: Index) {
    if op.Clear? then map k | k in s :: Changed(s[k], op)
    else if op.id in s then s[op.id := Changed(s[op.id], op)]
    else s
  }

  function AppliedAll(s: Index, ops: seq<Op>): (t: Index)
    decreases |ops|
  {
    if ops == [] then s else AppliedAll(Applied(s, ops[0]), ops[1..])
  }

  lemma {:induction false} AppliedAppend(s: Index, a: seq<Op>, b: seq<Op>)
    ensures AppliedAll(s, a + b) == AppliedAll(AppliedAll(s, a), b)
    decreases |a|
  {
    hide Applied;
    if a == [] {
      assert a + b == b;
    } else {
      assert (a + b)[1..] == a[1..] + b;
      AppliedAppend(Applied(s, a[0]), a[1..], b);
    }
  }

  /** Every record sits under its own id. */
  ghost predicate Keyed(s: Index) {
    forall k :: k in s ==> s[k].portalSession == k
  }

  predicate Addresses(op: Op, k: string) {
    op.Clear? || op.id == k
  }

  lemma AppliedKeeps(s: Index, op: Op, k: string)
    requires k in s
    ensures k in Applied(s, op) && Applied(s, op)[k] == if Addresses(op, k) then Changed(s[k], op) else s[k]
    ensures Keyed(s) ==> Keyed(Applied(s, op))
  {
  }

  /** Only a replacement repoints a record: whatever else is done, it stays on its upstream session. */
  lemma {:induction false} UpstreamStays(s: Index, ops: seq<Op>, k: string)
    requires k in s && forall op :: op in ops ==> !(op.Replace? && op.id == k)
    ensures k in AppliedAll(s, ops) && AppliedAll(s, ops)[k].upstream == s[k].upstream
    decreases |ops|
  {
    hide Applied;
    if ops != [] {
      AppliedKeeps(s, ops[0], k);
      UpstreamStays(Applied(s, ops[0]), ops[1..], k);
    }
  }

  /** A deleted record stays deleted, and neither a chat nor a replacement that arrives late touches its content. */
  lemma {:induction false} DeletedForGood(s: Index, ops: seq<Op>, k: string)
    requires k in s && s[k].deleted
    ensures k in AppliedAll(s, ops)
            && var r, t := s[k], AppliedAll(s, ops)[k];
            t.deleted && t.upstream == r.upstream && t.messageCount == r.messageCount && t.lastMessage == r.lastMessage
    decreases |ops|
  {
    hide Applied;
    if ops != [] {
      AppliedKeeps(s, ops[0], k);
      DeletedForGood(Applied(s, ops[0]), ops[1..], k);
    }
  }

  /** A manual name is shown until the next rename, whatever titles are generated meanwhile. */
  lemma {:induction false} ManualNameStays(s: Index, ops: seq<Op>, k: string)
    requires k in s && CleanName(s[k].customTitle).Some?
    requires forall op :: op in ops ==> !(op.Rename? && op.id == k)
    ensures k in AppliedAll(s, ops) && AppliedAll(s, ops)[k].customTitle == s[k].customTitle
    ensures DisplayName(AppliedAll(s, ops)[k]) == CleanName(s[k].customTitle).value
    decreases |ops|
  {
    hide Applied, CleanName;
    if ops != [] {
      AppliedKeeps(s, ops[0], k);
      ManualNameStays(Applied(s, ops[0]), ops[1..], k);
    }
  }

  lemma {:induction false} KeepsKeys(s: Index, ops: seq<Op>, k: string)
    requires k in s
    ensures k in AppliedAll(s, ops)
    decreases |ops|
  {
    hide Applied;
    if ops != [] {
      AppliedKeeps(s, ops[0], k);
      KeepsKeys(Applied(s, ops[0]), ops[1..], k);
    }
  }

  /** What clearing makes of the records that were there. */
  function ClearedRecords(s: Index, at: string -> string): (r: set<Record>) {
    set k | k in s && !s[k].deleted :: Changed(s[k], Clear(at))
  }

  /** Clearing under way: the records in `todo` are still to come. */
  ghost function ClearedExcept(s: Index, todo: set<string>, at: string -> string): (t: Index) {
    map k | k in s :: if k in todo || s[k].deleted then s[k] else Changed(s[k], Clear(at))
  }

  ghost function ClearedFrom(s: Index, todo: set<string>, at: string -> string): (r: set<Record>) {
    set k | k in s && k !in todo && !s[k].deleted :: Changed(s[k], Clear(at))
  }

  lemma ClearStarts(s: Index, todo: set<string>, at: string -> string)
    requires forall k :: k in s && !s[k].deleted ==> k in todo
    ensures ClearedExcept(s, todo, at) == s && ClearedFrom(s, todo, at) == {}
  {
    hide Changed;
  }

  lemma ClearSteps(s: Index, todo: set<string>, k: string, at: string -> string)
    requires Keyed(s) && k in todo && k in s && !s[k].deleted
    ensures k in ClearedExcept(s, todo, at) && ClearedExcept(s, todo, at)[k] == s[k]
    ensures Changed(s[k], Clear(at)).portalSession == k
    ensures ClearedExcept(s, todo - {k}, at) == ClearedExcept(s, todo, at)[k := Changed(s[k], Clear(at))]
    ensures ClearedFrom(s, todo - {k}, at) == ClearedFrom(s, todo, at) + {Changed(s[k], Clear(at))}
  {
    ClearKeepsId(s[k], at);
    ClearStepsRecords(s, todo, k, at);
    hide Changed, ClearedFrom;
  }

  lemma ClearStepsRecords(s: Index, todo: set<string>, k: string, at: string -> string)
    requires k in todo && k in s && !s[k].deleted
    ensures ClearedFrom(s, todo - {k}, at) == ClearedFrom(s, todo, at) + {Changed(s[k], Clear(at))}
  {
    hide Changed;
  }

  lemma ClearEnds(s: Index, at: string -> string)
    requires Keyed(s)
    ensures ClearedExcept(s, {}, at) == Applied(s, Clear(at)) && ClearedFrom(s, {}, at) == ClearedRecords(s, at)
    ensures Keyed(Applied(s, Clear(at)))
  {
  }

  lemma ClearKeepsId(r: Record, at: string -> string)
    ensures Changed(r, Clear(at)).portalSession == r.portalSession
  {
  }

  datatype Replaced = Repointed(record: Record) | AlreadyDeleted | Unknown

  class SessionStore {
    var sessions: map<string, Record>
    var saved: map<string, Record>    // the index file

    ghost predicate Valid()
      reads this
    {
      Keyed(sessions) && saved == sessions
    }

    constructor (loaded: map<string, Record>)
      requires Keyed(loaded)
      ensures Valid() && sessions == loaded
    {
      sessions, saved := loaded, loaded;
    }

    method Save()
      modifies this`saved
      ensures saved == sessions
    {
      saved := sessions;
    }

    method Upsert(record: Record)
      requires Keyed(sessions)
      modifies this
      ensures Valid() && sessions == old(sessions)[record.portalSession := record]
    {
      sessions := sessions[record.portalSession := record];
      Save();
    }

    /** Renaming an unknown session is an error, which leaves everything alone; likewise below. */
    method Rename(id: string, title: string, now: string) returns (r: Option<Record>)
      requires Valid()
      modifies this
      ensures Valid() && sessions == Applied(old(sessions), Op.Rename(id, title, now))
      ensures r == if id in sessions then Some(sessions[id]) else None
    {
      if id !in sessions {
        return None;
      }
      var updated := sessions[id].(title := title, customTitle := Some(title), updatedAt := now);
      Upsert(updated);
      r := Some(updated);
    }

    method SetGeneratedTitle(id: string, title: string) returns (r: Option<Record>)
      requires Valid()
      modifies this
      ensures Valid() && sessions == Applied(old(sessions), Op.SetGeneratedTitle(id, title))
      ensures r == if id in sessions then Some(sessions[id]) else None
    {
      if id !in sessions {
        return None;
      }
      var updated := sessions[id].(generatedTitle := CleanName(Some(title)));
      Upsert(updated);
      r := Some(updated);
    }

    method UpdateAfterChat(id: string, lastMessage: string, answer: string, model: Option<string>,
                           agent: Option<string>, now: string)
      returns (r: Option<Record>)
      requires Valid()
      modifies this
      ensures Valid() && sessions == Applied(old(sessions),
                                             Op.UpdateAfterChat(id, lastMessage, answer, model, agent, now))
      ensures r == if id in sessions then Some(sessions[id]) else None
    {
      if id !in sessions {
        return None;
      }
      var record := sessions[id];
      if record.deleted {
        return Some(record);
      }
      var count := record.messageCount + 2;
      var updated := record.(model := NonEmptyOr(model, record.model), agent := NonEmptyOr(agent, record.agent),
                             lastMessage := if answer != "" then answer else lastMessage,
                             messageCount := if count > 2 then count else 2, updatedAt := now);
      Upsert(updated);
      r := Some(updated);
    }

    method MarkDeleted(id: string, now: string) returns (r: Option<Record>)
      requires Valid()
      modifies this
      ensures Valid() && sessions == Applied(old(sessions), Op.MarkDeleted(id, now))
      ensures r == if id in sessions then Some(sessions[id]) else None
    {
      if id !in sessions {
        return None;
      }
      var updated := sessions[id].(deleted := true, updatedAt := now);
      Upsert(updated);
      r := Some(updated);
    }

    /** Delete every session that is still there, each with a time of its own; the file is written once. The answer is
        the records that were deleted, as they are now. */
    method Clear(at: string -> string) returns (cleared: set<Record>)
      requires Valid()
      modifies this
      ensures Valid() && sessions == Applied(old(sessions), Op.Clear(at))
      ensures cleared == ClearedRecords(old(sessions), at)
    {
      hide ClearedExcept, ClearedFrom, Applied, ClearedRecords;
      ghost var before := sessions;
      var todo := set k | k in sessions && !sessions[k].deleted;
      cleared := {};
      ClearStarts(before, todo, at);
      while todo != {}
        invariant todo <= before.Keys && forall k :: k in todo ==> !before[k].deleted
        invariant sessions == ClearedExcept(before, todo, at) && cleared == ClearedFrom(before, todo, at)
        decreases todo
      {
        var k :| k in todo;
        ClearSteps(before, todo, k, at);
        todo := todo - {k};
        var updated := sessions[k].(deleted := true, updatedAt := at(sessions[k].portalSession));
        sessions := sessions[updated.portalSession := updated];
        cleared := cleared + {updated};
      }
      ClearEnds(before, at);
      Save();
    }

    /** Repoint a record. The name is read from the record as it is now, so a rename that landed meanwhile is kept. */
    method ReplaceOpencodeSessionAfterMutation(id: string, upstream: string, count: int, lastMessage: string,
                                               now: string)
      returns (r: Replaced)
      requires Valid()
      modifies this
      ensures Valid() && sessions == Applied(old(sessions), Op.Replace(id, upstream, count, lastMessage, now))
      ensures r == if id !in sessions then Unknown
                   else if sessions[id].deleted then AlreadyDeleted
                   else Repointed(sessions[id])
    {
      if id !in sessions {
        return Unknown;
      }
      var record := sessions[id];
      if record.deleted {
        return AlreadyDeleted;
      }
      var updated := record.(upstream := upstream, lastMessage := lastMessage, updatedAt := now,
                             messageCount := if count > 0 then count else 0);
      Upsert(updated);
      r := Repointed(updated);
    }

    /** Whatever a handler or a background job does while another call waits. */
    method Perform(op: Op)
      requires Valid()
      modifies this
      ensures Valid() && sessions == Applied(old(sessions), op)
    {
      match op {
        case Rename(id, title, now) => var _ := Rename(id, title, now);
        case SetGeneratedTitle(id, title) => var _ := SetGeneratedTitle(id, title);
        case UpdateAfterChat(id, last, answer, model, agent, now) =>
          var _ := UpdateAfterChat(id, last, answer, model, agent, now);
        case MarkDeleted(id, now) => var _ := MarkDeleted(id, now);
        case Clear(at) => var _ := Clear(at);
        case Replace(id, upstream, count, last, now) =>
          var _ := ReplaceOpencodeSessionAfterMutation(id, upstream, count, last, now);
      }
    }

    method PerformAll(ops: seq<Op>)
      requires Valid()
      modifies this
      ensures Valid() && sessions == AppliedAll(old(sessions), ops)
    {
      hide Applied;
      var i := 0;
      while i < |ops|
        invariant 0 <= i <= |ops| && Valid()
        invariant AppliedAll(old(sessions), ops) == AppliedAll(sessions, ops[i..])
      {
        assert ops[i..][1..] == ops[i + 1..];
        Perform(ops[i]);
        i := i + 1;
      }
    }
  }
}
