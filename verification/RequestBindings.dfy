/**
 Which portal request an upstream event belongs to (request_bindings.py): three indexes of shared
 binding objects that are pruned on use.

 The reference is a store that never prunes and looks for the first live
 entry. */
module RequestBindings {
  import opened Seqs

  datatype Bound = Bound(portalSession: string, requestId: string, session: string, messageId: string, taskId: string,
                         kind: string, createdAt: real, expiresAt: real, completed: bool)

  /** The indexes by upstream session, by (session, message) and by (session, task). */
  datatype Indexes = Indexes(active: map<string, Bound>, byMessage: map<(string, string), Bound>,
                             byTask: map<(string, string), Bound>)

  predicate Live(b: Bound, now: real) {
    !b.completed && b.expiresAt > now
  }

  function At<K>(m: map<K, Bound>, k: K, now: real): (r: Option<Bound>) {
    if k in m && Live(m[k], now) then Some(m[k]) else None
  }

  function OrElse(a: Option<Bound>, b: Option<Bound>): (r: Option<Bound>) {
    if a.Some? then a else b
  }

  /** The first live binding: by message, by task, then whatever the session is running. */
  function FirstLive(x: Indexes, session: string, messageId: string, taskId: string, now: real): (r: Option<Bound>) {
    OrElse(Exact(x, session, messageId, taskId, now), At(x.active, session, now))
  }

  function Exact(x: Indexes, session: string, messageId: string, taskId: string, now: real): (r: Option<Bound>) {
    OrElse(if messageId != "" then At(x.byMessage, (session, messageId), now) else None,
           if taskId != "" then At(x.byTask, (session, taskId), now) else None)
  }

  function Finished(b: Bound, requestId: string): (r: Bound) {
    if b.requestId == requestId then b.(completed := true) else b
  }

  function FinishAll<K>(m: map<K, Bound>, requestId: string): (r: map<K, Bound>) {
    map k | k in m :: Finished(m[k], requestId)
  }

  function Completed(x: Indexes, requestId: string): (r: Indexes) {
    Indexes(FinishAll(x.active, requestId), FinishAll(x.byMessage, requestId), FinishAll(x.byTask, requestId))
  }

  function WithActive(x: Indexes, b: Bound): (r: Indexes) {
    x.(active := x.active[b.session := b], byTask := if b.taskId != "" then x.byTask[(b.session, b.taskId) := b]
                                                     else x.byTask)
  }

  function WithMessage(x: Indexes, b: Bound): (r: Indexes) {
    WithActive(x.(byMessage := x.byMessage[(b.session, b.messageId) := b]), b)
  }

  // ------------------------------------------- a run of the unpruned reference

  datatype Op = BindActive(b: Bound) | BindMessage(b: Bound) | Complete(requestId: string)

  function Applied(x: Indexes, op: Op): (r: Indexes) {
    match op
    case BindActive(b) => WithActive(x, b)
    case BindMessage(b) => if b.messageId == "" then x else WithMessage(x, b)
    case Complete(rid) => Completed(x, rid)
  }

  function AppliedAll(x: Indexes, ops: seq<Op>): (r: Indexes)
    decreases |ops|
  {
    if ops == [] then x else AppliedAll(Applied(x, ops[0]), ops[1..])
  }

  /** No entry of a request is open. */
  ghost predicate Closed(x: Indexes, requestId: string) {
    && (forall k :: k in x.active && x.active[k].requestId == requestId ==> x.active[k].completed)
    && (forall k :: k in x.byMessage && x.byMessage[k].requestId == requestId ==> x.byMessage[k].completed)
    && (forall k :: k in x.byTask && x.byTask[k].requestId == requestId ==> x.byTask[k].completed)
  }

  ghost predicate Binds(op: Op, requestId: string) {
    !op.Complete? && op.b.requestId == requestId
  }

  /** After a request completes, no lookup of live bindings answers it until it is bound again. */
  lemma {:induction false} CompletedStaysSilent(x: Indexes, requestId: string, later: seq<Op>, session: string,
                                               messageId: string, taskId: string, now: real)
    requires forall op :: op in later ==> !Binds(op, requestId)
    ensures var y := AppliedAll(Completed(x, requestId), later);
            && (FirstLive(y, session, messageId, taskId, now).Some?
                ==> FirstLive(y, session, messageId, taskId, now).value.requestId != requestId)
            && (Exact(y, session, messageId, taskId, now).Some?
                ==> Exact(y, session, messageId, taskId, now).value.requestId != requestId)
  {
    ClosedStays(Completed(x, requestId), requestId, later);
  }

  lemma {:induction false} ClosedStays(x: Indexes, requestId: string, ops: seq<Op>)
    requires Closed(x, requestId) && forall op :: op in ops ==> !Binds(op, requestId)
    ensures Closed(AppliedAll(x, ops), requestId)
    decreases |ops|
  {
    if ops != [] {
      assert !Binds(ops[0], requestId);
      assert Closed(Applied(x, ops[0]), requestId);
      ClosedStays(Applied(x, ops[0]), requestId, ops[1..]);
    }
  }

  // ------------------------------------------------------------------- pruning

  /** A pruned index holds the live entries of the reference and nothing that differs from it. */
  ghost predicate Shadows<K(!new)>(m: map<K, Bound>, ref: map<K, Bound>, now: real) {
    && (forall k :: k in m ==> k in ref && m[k] == ref[k])
    && (forall k :: k in ref && Live(ref[k], now) ==> k in m)
  }

  ghost predicate AllShadow(x: Indexes, ref: Indexes, now: real) {
    Shadows(x.active, ref.active, now) && Shadows(x.byMessage, ref.byMessage, now) && Shadows(x.byTask, ref.byTask, now)
  }

  function PrunedMap<K>(m: map<K, Bound>, now: real): (r: map<K, Bound>) {
    map k | k in m && Live(m[k], now) :: m[k]
  }

  function Pruned(x: Indexes, now: real): (r: Indexes) {
    Indexes(PrunedMap(x.active, now), PrunedMap(x.byMessage, now), PrunedMap(x.byTask, now))
  }

  /** What `resolve` finds after pruning at one reading and checking at another. */
  function Looked(x: Indexes, session: string, messageId: string, taskId: string, pruneAt: real,
                  checkAt: real): (r: Option<Bound>) {
    var found := FirstLive(x, session, messageId, taskId, pruneAt);
    if found.Some? && Live(found.value, checkAt) then found else None
  }

  function LookedExact(x: Indexes, session: string, messageId: string, taskId: string, pruneAt: real,
                       checkAt: real): (r: Option<Bound>) {
    var found := Exact(x, session, messageId, taskId, pruneAt);
    if found.Some? && Live(found.value, checkAt) then found else None
  }

  function Get<K>(m: map<K, Bound>, k: K): (r: Option<Bound>) {
    if k in m then Some(m[k]) else None
  }

  /** Once pruned, an entry that is there is a live one. */
  lemma PrunedLookup(x: Indexes, session: string, messageId: string, taskId: string, now: real)
    ensures Get(Pruned(x, now).active, session) == At(x.active, session, now)
    ensures Get(Pruned(x, now).byMessage, (session, messageId)) == At(x.byMessage, (session, messageId), now)
    ensures Get(Pruned(x, now).byTask, (session, taskId)) == At(x.byTask, (session, taskId), now)
  {
  }

  lemma PruningShadows(x: Indexes, ref: Indexes, before: real, now: real)
    requires AllShadow(x, ref, before) && before <= now
    ensures AllShadow(Pruned(x, now), ref, now) && AllShadow(x, ref, now)
  {
  }

  /** Lookups in a pruned store agree with the reference. */
  lemma LookupAgrees(x: Indexes, ref: Indexes, session: string, messageId: string, taskId: string, now: real)
    requires AllShadow(x, ref, now)
    ensures FirstLive(x, session, messageId, taskId, now) == FirstLive(ref, session, messageId, taskId, now)
    ensures Exact(x, session, messageId, taskId, now) == Exact(ref, session, messageId, taskId, now)
  {
  }

  /** The entries a lookup considers, in order: of the message, of the task, of the session. */
  function Entries(x: Indexes, session: string, messageId: string, taskId: string): (r: seq<Option<Bound>>)
    ensures |r| == 3
  {
    [if messageId != "" then Get(x.byMessage, (session, messageId)) else None,
     if taskId != "" then Get(x.byTask, (session, taskId)) else None,
     Get(x.active, session)]
  }

  predicate Alive(e: Option<Bound>, now: real) {
    e.Some? && Live(e.value, now)
  }

  /** An entry expires between two readings, and one that comes later in the order outlives both. */
  ghost predicate ExpiresBefore(entries: seq<Option<Bound>>, pruneAt: real, checkAt: real) {
    exists i, j :: 0 <= i < j < |entries|
                   && Alive(entries[i], pruneAt) && !Alive(entries[i], checkAt) && Alive(entries[j], checkAt)
                   && forall k :: 0 <= k < j ==> !Alive(entries[k], checkAt)
  }

  function FirstAlive(es: seq<Option<Bound>>, now: real): (r: Option<Bound>)
    requires |es| == 3
  {
    if Alive(es[0], now) then es[0] else if Alive(es[1], now) then es[1] else if Alive(es[2], now) then es[2] else None
  }

  lemma EntriesLookup(x: Indexes, session: string, messageId: string, taskId: string, now: real)
    ensures var es := Entries(x, session, messageId, taskId);
            FirstLive(x, session, messageId, taskId, now) == FirstAlive(es, now)
  {
  }

  /** The source reads the clock twice in `resolve`. The answer is that of the reference at the later reading
      if and only if no entry that expires between the two comes before the first that outlives them. */
  lemma TwoReadings(x: Indexes, session: string, messageId: string, taskId: string, pruneAt: real, checkAt: real)
    requires pruneAt <= checkAt
    ensures Looked(x, session, messageId, taskId, pruneAt, checkAt) == FirstLive(x, session, messageId, taskId, checkAt)
            <==> !ExpiresBefore(Entries(x, session, messageId, taskId), pruneAt, checkAt)
  {
    EntriesLookup(x, session, messageId, taskId, pruneAt);
    EntriesLookup(x, session, messageId, taskId, checkAt);
    ReadingsDiffer(Entries(x, session, messageId, taskId), pruneAt, checkAt);
    hide FirstLive, Entries, ExpiresBefore;
  }

  lemma ReadingsDiffer(es: seq<Option<Bound>>, pruneAt: real, checkAt: real)
    requires |es| == 3 && pruneAt <= checkAt
    ensures var found := FirstAlive(es, pruneAt);
            (if Alive(found, checkAt) then found else None) == FirstAlive(es, checkAt)
            <==> !ExpiresBefore(es, pruneAt, checkAt)
  {
    assert forall e :: Alive(e, checkAt) ==> Alive(e, pruneAt);
    hide Live;
  }

  /** The two readings can differ: the message's binding expires between them and hides the session's, which lives
      on. */
  lemma TwoReadingsExample()
    ensures var early := Bound("p", "r1", "s", "m", "", "chat", 0.0, 10.0, false);
            var late := Bound("p", "r2", "s", "", "", "chat", 5.0, 20.0, false);
            var x := WithActive(WithMessage(Indexes(map[], map[], map[]), early), late);
            Looked(x, "s", "m", "", 9.0, 11.0) == None && FirstLive(x, "s", "m", "", 11.0) == Some(late)
  {
  }

  lemma ActiveShadows(x: Indexes, ref: Indexes, b: Bound, now: real)
    requires AllShadow(x, ref, now)
    ensures AllShadow(WithActive(x, b), WithActive(ref, b), now)
  {
    hide Live;
  }

  lemma MessageShadows(x: Indexes, ref: Indexes, b: Bound, now: real)
    requires AllShadow(x, ref, now)
    ensures AllShadow(WithMessage(x, b), WithMessage(ref, b), now)
  {
    hide Live, WithActive;
    ActiveShadows(x.(byMessage := x.byMessage[(b.session, b.messageId) := b]),
                  ref.(byMessage := ref.byMessage[(b.session, b.messageId) := b]), b, now);
  }

  lemma FinishShadows<K(!new)>(m: map<K, Bound>, ref: map<K, Bound>, requestId: string, now: real)
    requires Shadows(m, ref, now)
    ensures Shadows(FinishAll(m, requestId), FinishAll(ref, requestId), now)
  {
  }

  lemma OpsShadow(x: Indexes, ref: Indexes, op: Op, now: real)
    requires AllShadow(x, ref, now)
    ensures AllShadow(Applied(x, op), Applied(ref, op), now)
  {
    hide Shadows, FinishAll, WithActive, WithMessage;
    match op
    case BindActive(b) => ActiveShadows(x, ref, b, now);
    case BindMessage(b) => MessageShadows(x, ref, b, now);
    case Complete(rid) =>
      FinishShadows(x.active, ref.active, rid, now);
      FinishShadows(x.byMessage, ref.byMessage, rid, now);
      FinishShadows(x.byTask, ref.byTask, rid, now);
  }

  // ------------------------------------------------------------- runs of calls

  datatype Request = Request(session: string, portalSession: string, requestId: string, kind: string, taskId: string,
                             ttl: int)

  /** A new binding expires `ttl` seconds after `now`, at least one. */
  function NewBound(r: Request, messageId: string, now: real): (b: Bound) {
    Bound(r.portalSession, r.requestId, r.session, messageId, r.taskId, r.kind, now,
          now + (if r.ttl < 1 then 1 else r.ttl) as real, false)
  }

  /** A call and its two readings of the clock: one to prune, one to stamp or to check. */
  datatype Call =
    | CallBindActive(r: Request)
    | CallBindMessage(r: Request, messageId: string)
    | CallResolve(session: string, messageId: string, taskId: string)
    | CallResolveExact(session: string, messageId: string, taskId: string)
    | CallComplete(requestId: string)
    | CallPrune

  datatype Timed = Timed(call: Call, pruneAt: real, now: real)

  /** What a call changes, pruning aside. */
  function Written(x: Indexes, t: Timed): (y: Indexes) {
    match t.call
    case CallBindActive(r) => Applied(x, BindActive(NewBound(r, "", t.now)))
    case CallBindMessage(r, m) => Applied(x, BindMessage(NewBound(r, m, t.now)))
    case CallComplete(rid) => Applied(x, Complete(rid))
    case _ => x
  }

  /** A call that prunes first: every one but `complete` and a message binding without a message. */
  predicate Prunes(c: Call) {
    !c.CallComplete? && (c.CallBindMessage? ==> c.messageId != "")
  }

  function Answer(x: Indexes, t: Timed): (r: Option<Bound>) {
    match t.call
    case CallResolve(s, m, k) => Looked(x, s, m, k, t.pruneAt, t.now)
    case CallResolveExact(s, m, k) => LookedExact(x, s, m, k, t.pruneAt, t.now)
    case _ => None
  }

  /** The answers of the store, which prunes. */
  function Answers(x: Indexes, run: seq<Timed>): (r: seq<Option<Bound>>)
    decreases |run|
  {
    if run == [] then [] else
      var y := if Prunes(run[0].call) then Pruned(x, run[0].pruneAt) else x;
      [Answer(y, run[0])] + Answers(Written(y, run[0]), run[1..])
  }

  /** The answers of the reference, which never prunes and skips dead entries when it looks. */
  function ReferenceAnswers(ref: Indexes, run: seq<Timed>): (r: seq<Option<Bound>>)
    decreases |run|
  {
    if run == [] then [] else [Answer(ref, run[0])] + ReferenceAnswers(Written(ref, run[0]), run[1..])
  }

  ghost predicate ClockAdvances(run: seq<Timed>, clock: real)
    decreases |run|
  {
    run == [] || (clock <= run[0].pruneAt <= run[0].now && ClockAdvances(run[1..], run[0].now))
  }

  /** Pruning is never observable: in every run with a non-decreasing clock the store answers as the reference. */
  lemma {:induction false} PruningIsInvisible(x: Indexes, ref: Indexes, run: seq<Timed>, clock: real)
    requires AllShadow(x, ref, clock) && ClockAdvances(run, clock)
    ensures Answers(x, run) == ReferenceAnswers(ref, run)
    decreases |run|
  {
    if run != [] {
      var t := run[0];
      var y := if Prunes(t.call) then Pruned(x, t.pruneAt) else x;
      PruningShadows(x, ref, clock, t.pruneAt);
      AnswerAgrees(y, ref, t);
      WrittenShadows(y, ref, t);
      PruningIsInvisible(Written(y, t), Written(ref, t), run[1..], t.now);
    }
  }

  /** From an empty store, with one reading of the clock per call: every `resolve` answers the first live binding
      of the reference. */
  lemma {:induction false} ResolveAnswersFirstLive(run: seq<Timed>, t: Timed, clock: real)
    requires ClockAdvances(run + [t], clock) && t.call.CallResolve? && t.pruneAt == t.now
    ensures var empty := Indexes(map[], map[], map[]);
            |Answers(empty, run + [t])| == |run| + 1
            && Answers(empty, run + [t])[|run|]
               == FirstLive(WrittenAll(empty, run), t.call.session, t.call.messageId, t.call.taskId, t.now)
  {
    hide FirstLive;
    var empty := Indexes(map[], map[], map[]);
    PruningIsInvisible(empty, empty, run + [t], clock);
    ReferenceLast(empty, run, t);
    TwoReadings(WrittenAll(empty, run), t.call.session, t.call.messageId, t.call.taskId, t.now, t.now);
    FirstLiveIsLive(WrittenAll(empty, run), t.call.session, t.call.messageId, t.call.taskId, t.now);
  }

  function WrittenAll(x: Indexes, run: seq<Timed>): (r: Indexes)
    decreases |run|
  {
    if run == [] then x else WrittenAll(Written(x, run[0]), run[1..])
  }

  lemma FirstLiveIsLive(x: Indexes, session: string, messageId: string, taskId: string, now: real)
    ensures var r := FirstLive(x, session, messageId, taskId, now); r.Some? ==> Live(r.value, now)
  {
  }

  lemma {:induction false} ReferenceLast(ref: Indexes, run: seq<Timed>, t: Timed)
    ensures |ReferenceAnswers(ref, run + [t])| == |run| + 1
    ensures ReferenceAnswers(ref, run + [t])[|run|] == Answer(WrittenAll(ref, run), t)
    decreases |run|
  {
    hide Answer, Written;
    if run == [] {
      assert run + [t] == [t];
    } else {
      assert (run + [t])[1..] == run[1..] + [t];
      ReferenceLast(Written(ref, run[0]), run[1..], t);
    }
  }

  lemma AnswerAgrees(x: Indexes, ref: Indexes, t: Timed)
    requires AllShadow(x, ref, t.pruneAt)
    ensures Answer(x, t) == Answer(ref, t)
  {
    hide Shadows, FirstLive, Exact;
    match t.call
    case CallResolve(s, m, k) => LookupAgrees(x, ref, s, m, k, t.pruneAt);
    case CallResolveExact(s, m, k) => LookupAgrees(x, ref, s, m, k, t.pruneAt);
    case _ =>
  }

  lemma WrittenShadows(x: Indexes, ref: Indexes, t: Timed)
    requires AllShadow(x, ref, t.pruneAt) && t.pruneAt <= t.now
    ensures AllShadow(Written(x, t), Written(ref, t), t.now)
  {
    hide Shadows, Applied;
    PruningShadows(x, ref, t.pruneAt, t.now);
    match t.call
    case CallBindActive(r) => OpsShadow(x, ref, BindActive(NewBound(r, "", t.now)), t.now);
    case CallBindMessage(r, m) => OpsShadow(x, ref, BindMessage(NewBound(r, m, t.now)), t.now);
    case CallComplete(rid) => OpsShadow(x, ref, Complete(rid), t.now);
    case _ =>
  }

  // ------------------------------------------------------------------ the store

  /** A binding that several indexes may share; completing it shows in all of them. */
  class RequestBinding {
    const portalSession: string
    const requestId: string
    const session: string
    const messageId: string
    const taskId: string
    const kind: string
    const createdAt: real
    const expiresAt: real
    var completed: bool

    constructor (b: Bound)
      ensures Value() == b
    {
      portalSession, requestId, session := b.portalSession, b.requestId, b.session;
      messageId, taskId := b.messageId, b.taskId;
      kind, createdAt, expiresAt, completed := b.kind, b.createdAt, b.expiresAt, b.completed;
    }

    function Value(): (b: Bound)
      reads this
    {
      Bound(portalSession, requestId, session, messageId, taskId, kind, createdAt, expiresAt, completed)
    }
  }

  method NewBinding(r: Request, messageId: string, now: real) returns (binding: RequestBinding)
    ensures fresh(binding) && binding.Value() == NewBound(r, messageId, now)
  {
    var ttl := if r.ttl > 1 then r.ttl else 1;
    binding := new RequestBinding(Bound(r.portalSession, r.requestId, r.session, messageId, r.taskId, r.kind, now,
                                        now + ttl as real, false));
  }

  ghost function Values<K>(m: map<K, RequestBinding>): (r: map<K, Bound>)
    reads m.Values
  {
    map k | k in m :: m[k].Value()
  }

  function LiveOnly<K>(m: map<K, RequestBinding>, now: real): (r: map<K, RequestBinding>)
    reads m.Values
  {
    map k | k in m && !m[k].completed && m[k].expiresAt > now :: m[k]
  }

  lemma LiveOnlyValues<K>(m: map<K, RequestBinding>, now: real)
    ensures Values(LiveOnly(m, now)) == PrunedMap(Values(m), now)
  {
  }

  lemma ValuesUpdate<K>(m: map<K, RequestBinding>, k: K, o: RequestBinding)
    ensures Values(m[k := o]) == Values(m)[k := o.Value()]
  {
  }

  lemma ValueAt<K>(m: map<K, RequestBinding>, k: K)
    ensures (k in m) == (k in Values(m)) && (k in m ==> Values(m)[k] == m[k].Value())
  {
  }

  /** Completing the objects of an index, shared or not, completes its entries. */
  lemma CompletedInPlace<K>(m: map<K, RequestBinding>, was: map<K, Bound>, requestId: string)
    requires m.Keys == was.Keys && forall k :: k in m ==> m[k].Value() == Finished(was[k], requestId)
    ensures Values(m) == FinishAll(was, requestId)
  {
    hide Finished, RequestBinding.Value;
  }

  function ValueOf(o: Option<RequestBinding>): (r: Option<Bound>)
    reads if o.Some? then {o.value} else {}
  {
    if o.Some? then Some(o.value.Value()) else None
  }

  class RequestBindingStore {
    var active: map<string, RequestBinding>
    var byMessage: map<(string, string), RequestBinding>
    var byTask: map<(string, string), RequestBinding>

    ghost function View(): (x: Indexes)
      reads this, active.Values, byMessage.Values, byTask.Values
    {
      Indexes(Values(active), Values(byMessage), Values(byTask))
    }

    ghost function Objects(): (r: set<RequestBinding>)
      reads this
    {
      active.Values + byMessage.Values + byTask.Values
    }

    constructor ()
      ensures View() == Indexes(map[], map[], map[])
    {
      active, byMessage, byTask := map[], map[], map[];
    }

    /** Drop every entry that is completed or expired. */
    method PruneExpired(now: real)
      modifies this
      ensures View() == Pruned(old(View()), now)
    {
      hide Values, LiveOnly, PrunedMap;
      LiveOnlyValues(active, now);
      LiveOnlyValues(byMessage, now);
      LiveOnlyValues(byTask, now);
      active, byMessage, byTask := LiveOnly(active, now), LiveOnly(byMessage, now), LiveOnly(byTask, now);
    }

    /** One object under the message, the session and the task id; entries it does not name stay. */
    method Index(binding: RequestBinding)
      modifies this
      ensures View() == if binding.messageId == "" then WithActive(old(View()), binding.Value())
                        else WithMessage(old(View()), binding.Value())
    {
      hide Values;
      ghost var b := binding.Value();
      if binding.messageId != "" {
        ValuesUpdate(byMessage, (binding.session, binding.messageId), binding);
        byMessage := byMessage[(binding.session, binding.messageId) := binding];
      }
      ValuesUpdate(active, binding.session, binding);
      active := active[binding.session := binding];
      if binding.taskId != "" {
        ValuesUpdate(byTask, (binding.session, binding.taskId), binding);
        byTask := byTask[(binding.session, binding.taskId) := binding];
      }
    }

    method BindActive(r: Request, pruneAt: real, now: real)
      modifies this
      ensures View() == Written(Pruned(old(View()), pruneAt), Timed(CallBindActive(r), pruneAt, now))
    {
      hide Values, Pruned, WithActive, WithMessage;
      PruneExpired(pruneAt);
      var binding := NewBinding(r, "", now);
      Index(binding);
    }

    method BindMessage(r: Request, messageId: string, pruneAt: real, now: real)
      modifies this
      ensures messageId == "" ==> View() == old(View())
      ensures messageId != "" ==> View() == Written(Pruned(old(View()), pruneAt),
                                                    Timed(CallBindMessage(r, messageId), pruneAt, now))
    {
      hide Values, Pruned, WithActive, WithMessage;
      if messageId == "" {
        return;
      }
      PruneExpired(pruneAt);
      var binding := NewBinding(r, messageId, now);
      Index(binding);
    }

    /** The entry by message, else by task. */
    method Find(session: string, messageId: string, taskId: string) returns (found: Option<RequestBinding>)
      ensures ValueOf(found) == OrElse(if messageId != "" then Get(View().byMessage, (session, messageId)) else None,
                                       if taskId != "" then Get(View().byTask, (session, taskId)) else None)
    {
      hide Values;
      ValueAt(byMessage, (session, messageId));
      ValueAt(byTask, (session, taskId));
      found := None;
      if messageId != "" && (session, messageId) in byMessage {
        found := Some(byMessage[(session, messageId)]);
      }
      if found.None? && taskId != "" && (session, taskId) in byTask {
        found := Some(byTask[(session, taskId)]);
      }
    }

    /** The first live binding: by message, by task, then by session. */
    method Resolve(session: string, messageId: string, taskId: string, pruneAt: real, now: real)
      returns (found: Option<RequestBinding>)
      modifies this
      ensures View() == Pruned(old(View()), pruneAt)
      ensures ValueOf(found) == Looked(old(View()), session, messageId, taskId, pruneAt, now)
    {
      hide Values, PrunedMap;
      PruneExpired(pruneAt);
      PrunedLookup(old(View()), session, messageId, taskId, pruneAt);
      found := Find(session, messageId, taskId);
      ValueAt(active, session);
      if found.None? && session in active {
        found := Some(active[session]);
      }
      if found.Some? && (found.value.completed || found.value.expiresAt <= now) {
        found := None;
      }
    }

    /** As `resolve` without the session's own entry. With `includeCompleted` nothing is pruned. */
    method ResolveExact(session: string, messageId: string, taskId: string, includeCompleted: bool, pruneAt: real,
                        now: real)
      returns (found: Option<RequestBinding>)
      modifies this
      ensures View() == if includeCompleted then old(View()) else Pruned(old(View()), pruneAt)
      ensures !includeCompleted ==> ValueOf(found) == LookedExact(old(View()), session, messageId, taskId, pruneAt, now)
      ensures includeCompleted ==>
        var first := OrElse(if messageId != "" then Get(View().byMessage, (session, messageId)) else None,
                            if taskId != "" then Get(View().byTask, (session, taskId)) else None);
        ValueOf(found) == if first.Some? && first.value.expiresAt > now then first else None
    {
      hide Values, PrunedMap;
      if !includeCompleted {
        PruneExpired(pruneAt);
        PrunedLookup(old(View()), session, messageId, taskId, pruneAt);
      }
      found := Find(session, messageId, taskId);
      if found.Some? && !((includeCompleted || !found.value.completed) && found.value.expiresAt > now) {
        found := None;
      }
    }

    /** Mark every binding of a request completed, in place. */
    method Complete(requestId: string)
      modifies Objects()
      ensures View() == Completed(old(View()), requestId)
    {
      hide FinishAll, Finished, RequestBinding.Value;
      ghost var was := View();
      MarkCompleted(active.Values + byMessage.Values + byTask.Values, requestId);
      CompletedInPlace(active, was.active, requestId);
      CompletedInPlace(byMessage, was.byMessage, requestId);
      CompletedInPlace(byTask, was.byTask, requestId);
    }
  }

  method MarkCompleted(bindings: set<RequestBinding>, requestId: string)
    modifies bindings
    ensures forall o :: o in bindings ==> o.Value() == Finished(old(o.Value()), requestId)
  {
    var todo := bindings;
    while todo != {}
      invariant todo <= bindings
      invariant forall o :: o in bindings ==>
                  o.completed == (old(o.completed) || (o !in todo && o.requestId == requestId))
      decreases todo
    {
      var o :| o in todo;
      todo := todo - {o};
      if o.requestId == requestId {
        o.completed := true;
      }
    }
  }
}
