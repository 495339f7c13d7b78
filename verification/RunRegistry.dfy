/**
 Chat runs by request id (chat_run_registry.py): runs are started, fed with events, finished,
 failed when they go quiet, and forgotten once finished when there are too
 many. */
module RunRegistry {
  import opened Seqs
  import opened RunPayload
  import PyText

  datatype State = Running | Completed | Failed | Cancelled

  datatype Run = Run(requestId: string, session: string, startedAt: int, state: State, updatedAt: int,
                     latestEventAt: string, seqNo: nat, detached: nat, task: Option<int>,
                     final: Option<Payload>, failure: Option<Payload>)

  predicate Terminal(r: Run) {
    r.state != Running
  }

  /** The runs by request id, and the ids in the order their slots were first filled. */
  datatype Registry = Registry(runs: map<string, Run>, order: seq<string>)

  ghost predicate WellFormed(x: Registry) {
    && NoDup(x.order)
    && (forall k :: k in x.order <==> k in x.runs)
    && (forall k :: k in x.runs ==> x.runs[k].requestId == k)
  }

  /** The slot a caller's request id and session lead to; an empty session fits every run. */
  function Find(x: Registry, requestId: string, session: string): (r: Option<string>)
    ensures r.Some? ==> r.value in x.runs
  {
    var k := PyText.Strip(requestId);
    if k != "" && k in x.runs && (session == "" || x.runs[k].session == session) then Some(k) else None
  }

  const STALE := "chat_run_stale"

  function StalePayload(): (p: Payload) {
    Payload(false, None, STALE, map[])
  }

  // ------------------------------------------------------------------- pruning

  datatype Item = Item(id: string, at: int, pos: nat)

  predicate Before(a: Item, b: Item) {
    a.at < b.at || (a.at == b.at && a.pos < b.pos)
  }

  /** The finished runs in slot order. */
  function FinishedItems(order: seq<string>, runs: map<string, Run>): (r: seq<Item>)
    ensures forall it :: it in r ==> it.pos < |order| && order[it.pos] == it.id && it.id in runs
                                     && Terminal(runs[it.id]) && it.at == runs[it.id].updatedAt
  {
    if order == [] then []
    else
      var n := |order| - 1;
      var k := order[n];
      FinishedItems(order[..n], runs) + if k in runs && Terminal(runs[k]) then [Item(k, runs[k].updatedAt, n)] else []
  }

  lemma {:induction false} FinishedComplete(order: seq<string>, runs: map<string, Run>, i: nat)
    requires i < |order| && order[i] in runs && Terminal(runs[order[i]])
    ensures Item(order[i], runs[order[i]].updatedAt, i) in FinishedItems(order, runs)
  {
    var n := |order| - 1;
    if i < n {
      FinishedComplete(order[..n], runs, i);
    }
  }

  ghost predicate PosAscending(items: seq<Item>) {
    forall i, j :: 0 <= i < j < |items| ==> items[i].pos < items[j].pos
  }

  lemma {:induction false} FinishedAscending(order: seq<string>, runs: map<string, Run>)
    ensures PosAscending(FinishedItems(order, runs))
  {
    if order != [] {
      var n := |order| - 1;
      FinishedAscending(order[..n], runs);
      var front := FinishedItems(order[..n], runs);
      assert forall i :: 0 <= i < |front| ==> front[i] in front;
    }
  }

  /** Python's stable sort by the time of the last update. */
  function Insert(it: Item, sorted: seq<Item>): (r: seq<Item>) {
    if sorted == [] || it.at <= sorted[0].at then [it] + sorted else [sorted[0]] + Insert(it, sorted[1..])
  }

  function Sort(items: seq<Item>): (r: seq<Item>) {
    if items == [] then [] else Insert(items[0], Sort(items[1..]))
  }

  lemma {:induction false} InsertFits(it: Item, sorted: seq<Item>)
    requires Ascending(sorted, Before) && forall o :: o in sorted ==> it.pos < o.pos
    ensures Ascending(Insert(it, sorted), Before) && |Insert(it, sorted)| == |sorted| + 1
    ensures forall o :: o in Insert(it, sorted) <==> o == it || o in sorted
  {
    hide Ascending;
    if sorted == [] {
      InFront(it, sorted, Before);
    } else {
      RestAfterFirst(sorted, Before);
      if it.at <= sorted[0].at {
        InFront(it, sorted, Before);
      } else {
        InsertFits(it, sorted[1..]);
        InFront(sorted[0], Insert(it, sorted[1..]), Before);
      }
    }
  }

  /** Sorting keeps the items and puts them in order of their update, ties in slot order. */
  lemma {:induction false} SortFits(items: seq<Item>)
    requires PosAscending(items)
    ensures Ascending(Sort(items), Before) && |Sort(items)| == |items|
    ensures forall o :: o in Sort(items) <==> o in items
  {
    if items != [] {
      SortFits(items[1..]);
      assert forall o :: o in items[1..] ==> items[0].pos < o.pos;
      assert items == [items[0]] + items[1..];
      InsertFits(items[0], Sort(items[1..]));
    }
  }

  function Ids(items: seq<Item>): (r: seq<string>)
    ensures |r| == |items|
  {
    seq(|items|, i requires 0 <= i < |items| => items[i].id)
  }

  /** What pruning drops: the first finished runs of the sorted list, as many as there are runs too many. */
  function Victims(x: Registry, max: int): (r: seq<string>) {
    var items := Sort(FinishedItems(x.order, x.runs));
    var overflow := |x.order| - max;
    Ids(if overflow <= 0 then [] else if overflow < |items| then items[..overflow] else items)
  }

  function Spared(order: seq<string>, victims: seq<string>): (r: seq<string>) {
    Filter(order, k => k !in victims)
  }

  function Kept<T>(m: map<string, T>, victims: seq<string>): (r: map<string, T>) {
    map k | k in m && k !in victims :: m[k]
  }

  function Pruned(x: Registry, max: int): (r: Registry) {
    var victims := Victims(x, max);
    Registry(Kept(x.runs, victims), Spared(x.order, victims))
  }

  function FinishedCount(x: Registry): (n: nat) {
    |FinishedItems(x.order, x.runs)|
  }

  /** The finished runs from first to last to go; the victims are the beginning of that list. */
  lemma FinishedInOrder(x: Registry, max: int)
    requires WellFormed(x)
    ensures var items := Sort(FinishedItems(x.order, x.runs)); var v := Victims(x, max);
            && Ascending(items, Before) && |v| <= |items| && (forall a :: 0 <= a < |v| ==> v[a] == items[a].id)
    ensures forall it :: it in Sort(FinishedItems(x.order, x.runs)) ==>
              it.pos < |x.order| && x.order[it.pos] == it.id && it.id in x.runs && it.at == x.runs[it.id].updatedAt
  {
    hide Insert, Sort, FinishedItems, Ascending;
    FinishedAscending(x.order, x.runs);
    SortFits(FinishedItems(x.order, x.runs));
  }

  lemma FinishedIsListed(x: Registry, i: nat)
    requires WellFormed(x) && i < |x.order| && Terminal(x.runs[x.order[i]])
    ensures Item(x.order[i], x.runs[x.order[i]].updatedAt, i) in Sort(FinishedItems(x.order, x.runs))
  {
    hide Insert, Sort, FinishedItems, Ascending, PosAscending;
    FinishedAscending(x.order, x.runs);
    SortFits(FinishedItems(x.order, x.runs));
    FinishedComplete(x.order, x.runs, i);
  }

  lemma SameSlot(x: Registry, i: nat, j: nat)
    requires WellFormed(x) && i < |x.order| && j < |x.order| && x.order[i] == x.order[j]
    ensures i == j
  {
  }

  /** What is listed but not among the first ones comes after them. */
  lemma ListedBefore(items: seq<Item>, first: seq<string>, a: nat, w: Item)
    requires Ascending(items, Before) && a < |first| <= |items|
             && (forall m :: 0 <= m < |first| ==> first[m] == items[m].id)
    requires w in items && w.id !in first
    ensures Before(items[a], w)
  {
    var b :| 0 <= b < |items| && items[b] == w;
    assert forall m :: 0 <= m < |first| ==> items[m].id != w.id;
  }

  /** Pruning drops the least recently updated: whatever finished run it keeps was updated after every one it drops,
      or at the same time and its slot was filled later. */
  lemma VictimsAreOldest(x: Registry, max: int, i: nat, j: nat)
    requires WellFormed(x) && i < |x.order| && j < |x.order|
    requires x.order[i] in Victims(x, max)
    requires x.order[j] !in Victims(x, max) && Terminal(x.runs[x.order[j]])
    ensures x.runs[x.order[i]].updatedAt < x.runs[x.order[j]].updatedAt
            || (x.runs[x.order[i]].updatedAt == x.runs[x.order[j]].updatedAt && i < j)
  {
    FinishedInOrder(x, max);
    FinishedIsListed(x, j);
    hide Sort, FinishedItems, Victims, Terminal, Ascending, WellFormed;
    var items, v := Sort(FinishedItems(x.order, x.runs)), Victims(x, max);
    var a :| 0 <= a < |v| && v[a] == x.order[i];
    var w := Item(x.order[j], x.runs[x.order[j]].updatedAt, j);
    assert items[a] in items && items[a].id == x.order[i];
    SameSlot(x, items[a].pos, i);
    ListedBefore(items, v, a, w);
  }

  /** What is dropped: distinct finished runs, exactly as many as needed or all of them. */
  lemma VictimsFit(x: Registry, max: int)
    requires WellFormed(x)
    ensures var victims := Victims(x, max);
            && NoDup(victims)
            && (forall k :: k in victims ==> k in x.runs && k in x.order && Terminal(x.runs[k]))
            && (|x.order| <= max ==> |victims| == 0)
            && (|x.order| > max ==> |victims| == if |x.order| - max < FinishedCount(x) then |x.order| - max
                                                 else FinishedCount(x))
  {
    VictimCount(x, max);
    FinishedInOrder(x, max);
    FinishedOnly(x);
    hide Sort, FinishedItems, Victims, Terminal, FinishedCount;
    var items := Sort(FinishedItems(x.order, x.runs));
    assert forall i :: 0 <= i < |items| ==> items[i] in items;
    forall i, j | 0 <= i < j < |items| ensures items[i].id != items[j].id {
      assert Before(items[i], items[j]);
      assert items[i] in items && items[j] in items;
    }
  }

  lemma VictimCount(x: Registry, max: int)
    ensures |x.order| <= max ==> |Victims(x, max)| == 0
    ensures |x.order| > max ==> |Victims(x, max)| == if |x.order| - max < FinishedCount(x) then |x.order| - max
                                                     else FinishedCount(x)
  {
    hide Insert, Sort, FinishedItems, Ascending, PosAscending;
    FinishedAscending(x.order, x.runs);
    SortFits(FinishedItems(x.order, x.runs));
  }

  lemma FinishedOnly(x: Registry)
    ensures forall it :: it in Sort(FinishedItems(x.order, x.runs)) ==> it.id in x.runs && Terminal(x.runs[it.id])
  {
    hide Insert, Sort, FinishedItems, Ascending, PosAscending;
    FinishedAscending(x.order, x.runs);
    SortFits(FinishedItems(x.order, x.runs));
  }

  lemma PruneKeepsShape(x: Registry, max: int)
    requires WellFormed(x)
    ensures WellFormed(Pruned(x, max))
    ensures |Pruned(x, max).order| == |x.order| - |Victims(x, max)|
  {
    hide Victims, Filter;
    VictimsFit(x, max);
    var victims := Victims(x, max);
    FilterNoDup(x.order, k => k !in victims);
    SparedCount(x.order, victims);
  }

  /** Dropping leaves the rest in its order: the slots split anywhere, each part keeps its own. */
  lemma {:induction false} SparedInOrder(a: seq<string>, b: seq<string>, k: string, victims: seq<string>)
    ensures Spared(a + b, victims) == Spared(a, victims) + Spared(b, victims)
    ensures Spared([k], victims) == if k in victims then [] else [k]
    decreases |a|
  {
    if a == [] {
      assert a + b == b;
    } else {
      assert (a + b)[1..] == a[1..] + b;
      SparedInOrder(a[1..], b, k, victims);
    }
  }

  lemma SparedCount(order: seq<string>, victims: seq<string>)
    requires NoDup(order) && NoDup(victims) && forall k :: k in victims ==> k in order
    ensures |Spared(order, victims)| == |order| - |victims|
  {
    hide Filter;
    FilterNoDup(order, k => k !in victims);
    NoDupCardinality(order);
    NoDupCardinality(victims);
    NoDupCardinality(Spared(order, victims));
    assert ToSet(Spared(order, victims)) == ToSet(order) - ToSet(victims);
    assert ToSet(victims) <= ToSet(order);
  }

  // --------------------------------------------------------------------- calls

  datatype Call =
    | Start(session: string, requestId: string, created: int, now: int)
    | AttachTask(requestId: string, job: int, now: int)
    | RecordEvent(requestId: string, at: string, now: int)
    | MarkDetached(requestId: string, now: int)
    | Complete(requestId: string, payload: Payload, now: int)
    | Fail(requestId: string, payload: Payload, now: int)
    | Cancel(requestId: string, now: int)

  /** The state a final payload asks for: its completion state decides, and `ok` only when that is absent or empty. */
  function Outcome(okIsFalse: bool, completion: Option<string>): (s: State)
    ensures s == Completed <==> completion == Some("completed") || completion == Some("success")
                                || (!okIsFalse && (completion == None || completion == Some("")))
    ensures s == Completed || s == Failed
  {
    var said :=
      if !okIsFalse && completion in {None, Some(""), Some("completed"), Some("success")} then "completed"
      else if completion.Some? && completion.value != "" then completion.value
      else "failed";
    if said == "completed" || said == "success" then Completed else Failed
  }

  /** What a call other than `start` does to the run it addresses. */
  function Changed(r: Run, c: Call): (s: Run) {
    match c
    case Start(_, _, _, _) => r
    case AttachTask(_, job, now) => r.(task := Some(job), updatedAt := now)
    case RecordEvent(_, at, now) => if Terminal(r) then r
                                    else r.(seqNo := r.seqNo + 1, latestEventAt := at, updatedAt := now)
    case MarkDetached(_, now) => if Terminal(r) then r else r.(detached := r.detached + 1, updatedAt := now)
    case Complete(_, p, now) => r.(state := Outcome(p.okIsFalse, p.completion), updatedAt := now, task := None,
                                   final := Some(Compact(p)))
    case Fail(_, p, now) => if r.state == Cancelled then r
                            else r.(state := Failed, updatedAt := now, task := None, failure := Some(Compact(p)))
    case Cancel(_, now) => if Terminal(r) then r else r.(state := Cancelled, updatedAt := now, task := None)
  }

  function NewRun(session: string, requestId: string, created: int): (r: Run) {
    Run(requestId, session, created, Running, created, "", 0, 0, None, None, None)
  }

  /** A running run without an update for longer than the timeout. */
  predicate Stale(r: Run, timeout: int, now: int) {
    timeout > 0 && r.state == Running && r.updatedAt < now - timeout
  }

  function Expired(r: Run, timeout: int, now: int): (s: Run) {
    if Stale(r, timeout, now) then
      r.(state := Failed, updatedAt := now, task := None,
         failure := Some(Payload(false, None, "chat_run_stale", map[])))
    else r
  }

  function AllExpired(runs: map<string, Run>, timeout: int, now: int): (r: map<string, Run>) {
    map k | k in runs :: Expired(runs[k], timeout, now)
  }

  function Inserted(x: Registry, session: string, requestId: string, created: int): (r: Registry) {
    Registry(x.runs[requestId := NewRun(session, requestId, created)],
             if requestId in x.runs then x.order else x.order + [requestId])
  }

  datatype Limits = Limits(max: int, timeout: int)

  /** The registry of a start that makes a run, before it prunes. */
  function Unpruned(x: Registry, c: Call, lim: Limits): (z: Registry)
    requires c.Start?
  {
    var i := Inserted(x, c.session, c.requestId, c.created);
    i.(runs := AllExpired(i.runs, lim.timeout, c.now))
  }

  function Next(x: Registry, c: Call, lim: Limits): (y: Registry) {
    if c.Start? then
      if Find(x, c.requestId, c.session).Some? then x else Pruned(Unpruned(x, c, lim), lim.max)
    else
      var k := Find(x, c.requestId, "");
      if k.None? then x else x.(runs := x.runs[k.value := Changed(x.runs[k.value], c)])
  }

  lemma NextKeepsShape(x: Registry, c: Call, lim: Limits)
    requires WellFormed(x)
    ensures WellFormed(Next(x, c, lim))
  {
    hide Pruned, Find, Outcome;
    if c.Start? && Find(x, c.requestId, c.session).None? {
      var i := Inserted(x, c.session, c.requestId, c.created);
      PruneKeepsShape(i.(runs := AllExpired(i.runs, lim.timeout, c.now)), lim.max);
    }
  }

  // ---------------------------------------------------------------------- runs

  /** The call puts a new run under the id, in place of any run there. */
  predicate Creates(x: Registry, c: Call, k: string) {
    c.Start? && c.requestId == k && Find(x, c.requestId, c.session).None?
  }

  /** The call is an event of the run under the id, recorded while it runs. */
  predicate Counts(x: Registry, c: Call, k: string) {
    c.RecordEvent? && PyText.Strip(c.requestId) == k && k in x.runs && k != "" && x.runs[k].state == Running
  }

  /** One call never takes a run out of its final states, never changes a finished run's sequence number, and advances
      a running one's exactly when it records an event of it. */
  lemma StepOfRun(x: Registry, c: Call, lim: Limits, k: string)
    requires k in x.runs && k in Next(x, c, lim).runs && !Creates(x, c, k)
    ensures var r, s := x.runs[k], Next(x, c, lim).runs[k];
            && (Terminal(r) ==> Terminal(s))
            && s.seqNo == r.seqNo + (if Counts(x, c, k) then 1 else 0)
            && (Terminal(r) ==> s.seqNo == r.seqNo)
            && (r.state == Cancelled ==> s.state == Cancelled || c.Complete?)
            && s.session == r.session && s.startedAt == r.startedAt
  {
    hide Victims, Spared, Outcome, PyText.Strip;
  }

  /** The events of a run: how many calls of the run `cs` record one while it runs. */
  function EventsOf(x: Registry, cs: seq<Call>, lim: Limits, k: string): (n: nat)
    decreases |cs|
  {
    if cs == [] then 0 else (if Counts(x, cs[0], k) then 1 else 0) + EventsOf(Next(x, cs[0], lim), cs[1..], lim, k)
  }

  function After(x: Registry, cs: seq<Call>, lim: Limits): (y: Registry)
    decreases |cs|
  {
    if cs == [] then x else After(Next(x, cs[0], lim), cs[1..], lim)
  }

  /** No call of the sequence puts a new run under the id. */
  ghost predicate SameRun(x: Registry, cs: seq<Call>, lim: Limits, k: string)
    decreases |cs|
  {
    cs == [] || (!Creates(x, cs[0], k) && SameRun(Next(x, cs[0], lim), cs[1..], lim, k))
  }

  /** Without a new start an id that holds no run keeps holding none. */
  lemma StaysAbsent(x: Registry, c: Call, lim: Limits, k: string)
    requires k !in x.runs && !Creates(x, c, k)
    ensures k !in Next(x, c, lim).runs
  {
    hide Victims, Spared, Outcome, PyText.Strip;
  }

  lemma {:induction false} AbsentForGood(x: Registry, cs: seq<Call>, lim: Limits, k: string)
    requires k !in x.runs && SameRun(x, cs, lim, k)
    ensures k !in After(x, cs, lim).runs
    decreases |cs|
  {
    hide Next;
    if cs != [] {
      StaysAbsent(x, cs[0], lim, k);
      AbsentForGood(Next(x, cs[0], lim), cs[1..], lim, k);
    }
  }

  /** Over any sequence of calls that starts no other run under its id: a finished run that is still there is finished,
      with the sequence number it had, and the number grows by the events recorded while it ran. */
  lemma {:induction false} FinishedIsForGood(x: Registry, cs: seq<Call>, lim: Limits, k: string)
    requires k in x.runs && SameRun(x, cs, lim, k) && k in After(x, cs, lim).runs
    ensures var r, s := x.runs[k], After(x, cs, lim).runs[k];
            && (Terminal(r) ==> Terminal(s) && s.seqNo == r.seqNo)
            && s.seqNo == r.seqNo + EventsOf(x, cs, lim, k)
            && (r.state == Cancelled && (forall c :: c in cs ==> !c.Complete?) ==> s.state == Cancelled)
    decreases |cs|
  {
    hide Next, Counts;
    if cs != [] {
      var y := Next(x, cs[0], lim);
      if k !in y.runs {
        AbsentForGood(y, cs[1..], lim, k);
      } else {
        StepOfRun(x, cs[0], lim, k);
        FinishedIsForGood(y, cs[1..], lim, k);
      }
    }
  }

  /** The sequence number of a run is the number of events recorded since its start while it ran. */
  lemma SequenceCountsEvents(x: Registry, c: Call, cs: seq<Call>, lim: Limits, k: string)
    requires WellFormed(x) && Creates(x, c, k) && SameRun(Next(x, c, lim), cs, lim, k)
             && k in After(Next(x, c, lim), cs, lim).runs
    ensures After(Next(x, c, lim), cs, lim).runs[k].seqNo == EventsOf(Next(x, c, lim), cs, lim, k)
  {
    hide Next, Find;
    var y := Next(x, c, lim);
    if k !in y.runs {
      AbsentForGood(y, cs, lim, k);
    } else {
      CreatedAtZero(x, c, lim, k);
      FinishedIsForGood(y, cs, lim, k);
    }
  }

  lemma CreatedAtZero(x: Registry, c: Call, lim: Limits, k: string)
    requires Creates(x, c, k) && k in Next(x, c, lim).runs
    ensures Next(x, c, lim).runs[k].seqNo == 0
  {
    hide Victims, Spared, Find;
  }

  /** The run a caller reaches has the last word of the call: a completion overrides every state, a cancelled run's
      included; a failure overrides all but that one; a cancellation reaches running ones only. Nobody else's run is
      touched, and a call that reaches no run does nothing. */
  lemma LastWord(x: Registry, c: Call, lim: Limits)
    requires !c.Start?
    ensures var k := Find(x, c.requestId, ""); var y := Next(x, c, lim);
            && y.order == x.order
            && (k.None? ==> y == x)
            && (k.Some? ==>
                  && y.runs.Keys == x.runs.Keys && (forall j :: j in x.runs && j != k.value ==> y.runs[j] == x.runs[j])
                  && var before, after := x.runs[k.value].state, y.runs[k.value].state;
                     && (c.Complete? ==> after == Outcome(c.payload.okIsFalse, c.payload.completion)
                                         && y.runs[k.value].final == Some(Compact(c.payload)))
                     && (c.Fail? ==> (after == Failed <==> before != Cancelled)
                                     && if before == Cancelled then y == x
                                        else y.runs[k.value].failure == Some(Compact(c.payload)))
                     && (c.Cancel? ==> (after == Cancelled <==> before in {Running, Cancelled})
                                       && (Terminal(x.runs[k.value]) ==> after == before))
                     && (!c.Complete? && !c.Fail? && !c.Cancel? ==> after == before))
  {
    hide Outcome, PyText.Strip, Compact;
  }

  lemma UnprunedFits(x: Registry, c: Call, lim: Limits)
    requires WellFormed(x) && c.Start?
    ensures WellFormed(Unpruned(x, c, lim))
    ensures forall k :: k in x.runs && k != c.requestId && !Stale(x.runs[k], lim.timeout, c.now)
                        ==> k in Unpruned(x, c, lim).runs && Unpruned(x, c, lim).runs[k] == x.runs[k]
  {
  }

  lemma PruningMeetsCap(z: Registry, max: int)
    requires WellFormed(z)
    ensures var y := Pruned(z, max);
            && (|y.order| <= max || forall k :: k in y.runs ==> y.runs[k].state == Running)
            && (forall k :: k in z.runs && z.runs[k].state == Running ==> k in y.runs && y.runs[k] == z.runs[k])
  {
    hide Victims, Spared, WellFormed;
    VictimsFit(z, max);
    PruneKeepsShape(z, max);
    if |z.order| - |Victims(z, max)| > max {
      forall k | k in z.runs && Terminal(z.runs[k]) ensures k in Victims(z, max) {
        AllFinishedGo(z, max, k);
      }
    }
  }

  /** After a start that made a run, either the cap holds or nothing finished is left; every run that is neither
      replaced nor stale is still there if it was running. */
  lemma StartMeetsCap(x: Registry, c: Call, lim: Limits)
    requires WellFormed(x) && c.Start? && Find(x, c.requestId, c.session).None?
    ensures var y := Next(x, c, lim);
            && (|y.order| <= lim.max || forall k :: k in y.runs ==> y.runs[k].state == Running)
            && (forall k :: k in x.runs && k != c.requestId && x.runs[k].state == Running
                            && !Stale(x.runs[k], lim.timeout, c.now)
                            ==> k in y.runs && y.runs[k] == x.runs[k])
  {
    hide Pruned, Find, Inserted, AllExpired, WellFormed, Stale;
    UnprunedFits(x, c, lim);
    PruningMeetsCap(Unpruned(x, c, lim), lim.max);
  }

  /** When dropping is not enough, every finished run is dropped. */
  lemma AllFinishedGo(z: Registry, max: int, k: string)
    requires WellFormed(z) && k in z.runs && Terminal(z.runs[k]) && |z.order| - |Victims(z, max)| > max
    ensures k in Victims(z, max)
  {
    hide Victims, FinishedItems, Sort, Terminal, Ascending, FinishedCount;
    VictimCount(z, max);
    SortedCount(z);
    FinishedInOrder(z, max);
    ListedAs(z, k);
    AllAreFirst(Sort(FinishedItems(z.order, z.runs)), Victims(z, max), k);
  }

  lemma ListedAs(z: Registry, k: string)
    requires WellFormed(z) && k in z.runs && Terminal(z.runs[k])
    ensures exists it :: it in Sort(FinishedItems(z.order, z.runs)) && it.id == k
  {
    hide FinishedItems, Sort, Terminal;
    var i :| 0 <= i < |z.order| && z.order[i] == k;
    FinishedIsListed(z, i);
  }

  lemma AllAreFirst(items: seq<Item>, first: seq<string>, k: string)
    requires |first| == |items| && forall a :: 0 <= a < |first| ==> first[a] == items[a].id
    requires exists it :: it in items && it.id == k
    ensures k in first
  {
    var it :| it in items && it.id == k;
    var b :| 0 <= b < |items| && items[b] == it;
    assert first[b] == k;
  }

  lemma SortedCount(x: Registry)
    ensures |Sort(FinishedItems(x.order, x.runs))| == FinishedCount(x)
  {
    FinishedAscending(x.order, x.runs);
    SortFits(FinishedItems(x.order, x.runs));
  }

  /** A start that finds its run prunes nothing, so the cap holds after any start if and only if it made a run, the cap
      held before, or nothing finished was there. */
  lemma CapAfterStart(x: Registry, c: Call, lim: Limits)
    requires WellFormed(x) && c.Start?
    ensures var y := Next(x, c, lim);
            (|y.order| <= lim.max || forall k :: k in y.runs ==> y.runs[k].state == Running)
            <==> Find(x, c.requestId, c.session).None? || |x.order| <= lim.max
                 || forall k :: k in x.runs ==> x.runs[k].state == Running
  {
    hide Pruned, Find;
    if Find(x, c.requestId, c.session).None? {
      StartMeetsCap(x, c, lim);
    }
  }

  const ROOM_FOR_ONE := Limits(1, 60)

  function Plain(): (p: Payload) {
    Payload(false, None, "", map[])
  }

  /** Runs `a` and `b`, both started at time 1. */
  function TwoRuns(): (x: Registry) {
    Registry(map["a" := NewRun("s", "a", 1), "b" := NewRun("s", "b", 1)], ["a", "b"])
  }

  function OneRun(): (x: Registry) {
    Registry(map["a" := NewRun("s", "a", 1)], ["a"])
  }

  lemma ExamplesFit()
    ensures WellFormed(OneRun()) && WellFormed(TwoRuns())
    ensures forall k :: k in TwoRuns().runs ==> !Terminal(TwoRuns().runs[k]) && !Stale(TwoRuns().runs[k], 60, 1)
    ensures forall k :: k in OneRun().runs ==> !Terminal(OneRun().runs[k]) && !Stale(OneRun().runs[k], 60, 1)
  {
  }

  lemma FirstStarts()
    ensures Next(Registry(map[], []), Start("s", "a", 1, 1), ROOM_FOR_ONE) == OneRun()
  {
    ExamplesFit();
    hide Pruned, PyText.Strip, AllExpired, NewRun, WellFormed;
    NothingFinished(OneRun(), 1);
    NothingStale(OneRun().runs, 60, 1);
    assert Inserted(Registry(map[], []), "s", "a", 1) == OneRun();
  }

  lemma SecondStarts()
    ensures Next(OneRun(), Start("s", "b", 1, 1), ROOM_FOR_ONE) == TwoRuns()
  {
    ExamplesFit();
    StripsToItself();
    hide Pruned, PyText.Strip, AllExpired, NewRun, WellFormed;
    NothingFinished(TwoRuns(), 1);
    NothingStale(TwoRuns().runs, 60, 1);
    assert Inserted(OneRun(), "s", "b", 1) == TwoRuns();
  }

  lemma NothingStale(runs: map<string, Run>, timeout: int, now: int)
    requires forall k :: k in runs ==> !Stale(runs[k], timeout, now)
    ensures AllExpired(runs, timeout, now) == runs
  {
  }

  function FirstCompleted(): (x: Registry) {
    TwoRuns().(runs := TwoRuns().runs["a" := Changed(NewRun("s", "a", 1), Complete("a", Plain(), 2))])
  }

  lemma FirstCompletes()
    ensures Next(TwoRuns(), Complete("a", Plain(), 2), ROOM_FOR_ONE) == FirstCompleted()
    ensures Terminal(FirstCompleted().runs["a"])
  {
    StripsToItself();
    hide Pruned, PyText.Strip, Compact;
  }

  lemma SecondIsFound()
    ensures Next(FirstCompleted(), Start("s", "b", 3, 3), ROOM_FOR_ONE) == FirstCompleted()
  {
    StripsToItself();
    hide Pruned, PyText.Strip, Inserted, AllExpired, Changed;
  }

  /** A start can leave the registry above its cap with a finished run in it: with room for one run, `a` and `b` are
      started, `a` completes, and starting `b` again finds it and prunes nothing. */
  lemma CapExample()
    ensures var calls := [Start("s", "a", 1, 1), Start("s", "b", 1, 1), Complete("a", Plain(), 2),
                          Start("s", "b", 3, 3)];
            var y := After(Registry(map[], []), calls, ROOM_FOR_ONE);
            y == FirstCompleted() && |y.order| > ROOM_FOR_ONE.max && Terminal(y.runs["a"])
  {
    FirstStarts();
    SecondStarts();
    FirstCompletes();
    SecondIsFound();
    hide Next, Terminal, Changed, Compact, NewRun;
    var empty := Registry(map[], []);
    AfterFour(empty, Start("s", "a", 1, 1), Start("s", "b", 1, 1), Complete("a", Plain(), 2), Start("s", "b", 3, 3),
              ROOM_FOR_ONE);
  }

  lemma AfterFour(x: Registry, a: Call, b: Call, c: Call, d: Call, lim: Limits)
    ensures After(x, [a, b, c, d], lim) == Next(Next(Next(Next(x, a, lim), b, lim), c, lim), d, lim)
  {
    hide Next;
    var y := Next(x, a, lim);
    var z := Next(y, b, lim);
    assert [a, b, c, d][1..] == [b, c, d] && [b, c, d][1..] == [c, d] && [c, d][1..] == [d] && [d][1..] == [];
    assert After(x, [a, b, c, d], lim) == After(y, [b, c, d], lim) == After(z, [c, d], lim);
    assert After(z, [c, d], lim) == After(Next(z, c, lim), [d], lim) == After(Next(Next(z, c, lim), d, lim), [], lim);
  }

  lemma StripsToItself()
    ensures PyText.Strip("a") == "a" && PyText.Strip("b") == "b"
  {
    PyText.TrimFixpoint("a", PyText.IsSpace);
    PyText.TrimFixpoint("b", PyText.IsSpace);
  }

  lemma NothingFinished(x: Registry, max: int)
    requires WellFormed(x) && forall k :: k in x.runs ==> !Terminal(x.runs[k])
    ensures Pruned(x, max) == x
  {
    hide Sort, FinishedItems, Victims, Spared;
    VictimsFit(x, max);
    assert forall k :: k !in Victims(x, max);
    SparedAll(x.order, Victims(x, max));
  }

  lemma {:induction false} SparedAll(order: seq<string>, victims: seq<string>)
    requires forall k :: k !in victims
    ensures Spared(order, victims) == order
  {
    if order != [] {
      SparedAll(order[1..], victims);
    }
  }

  // -------------------------------------------------------------- the registry

  class ChatRunRecord {
    const requestId: string
    const session: string
    const startedAt: int
    var state: State
    var updatedAt: int
    var latestEventAt: string
    var seqNo: nat
    var detached: nat
    var task: Option<int>
    var final: Option<Payload>
    var failure: Option<Payload>

    constructor (session: string, requestId: string, created: int)
      ensures Value() == NewRun(session, requestId, created)
      ensures this.session == session && this.requestId == requestId
    {
      this.session, this.requestId, startedAt := session, requestId, created;
      state, updatedAt, latestEventAt, seqNo, detached := Running, created, "", 0, 0;
      task, final, failure := None, None, None;
    }

    function Value(): (r: Run)
      reads this
    {
      Run(requestId, session, startedAt, state, updatedAt, latestEventAt, seqNo, detached, task, final, failure)
    }

    method FailIfStale(timeout: int, now: int)
      modifies this
      ensures Value() == Expired(old(Value()), timeout, now)
    {
      if timeout > 0 && state == Running && updatedAt < now - timeout {
        state := Failed;
        failure := Some(StalePayload());
        updatedAt := now;
        task := None;
      }
    }
  }

  ghost function Values(m: map<string, ChatRunRecord>): (r: map<string, Run>)
    reads m.Values
  {
    map k | k in m :: m[k].Value()
  }

  ghost predicate Keyed(m: map<string, ChatRunRecord>) {
    forall k :: k in m ==> m[k].requestId == k
  }

  lemma KeptValues(m: map<string, ChatRunRecord>, victims: seq<string>)
    ensures Values(Kept(m, victims)) == Kept(Values(m), victims)
    ensures Keyed(m) ==> Keyed(Kept(m, victims))
  {
    hide ChatRunRecord.Value;
  }

  lemma KeptOneMore<T>(m: map<string, T>, victims: seq<string>, i: nat)
    requires i < |victims|
    ensures Kept(m, victims[..0]) == m
    ensures Kept(m, victims[..i + 1]) == Kept(m, victims[..i]) - {victims[i]}
  {
    assert victims[..i + 1] == victims[..i] + [victims[i]];
  }

  lemma KeptAre<T>(m: map<string, T>, victims: seq<string>)
    ensures forall k :: k in Kept(m, victims) ==> k in m && Kept(m, victims)[k] == m[k]
  {
  }

  lemma KeptNone<T>(m: map<string, T>)
    ensures Kept(m, []) == m
  {
  }

  /** Updating the record of one slot changes that slot only: no other slot holds the same record. */
  lemma ChangedInPlace(m: map<string, ChatRunRecord>, was: map<string, Run>, k: string)
    requires k in m && m.Keys == was.Keys
    requires Keyed(m)
    requires forall j :: j in m && m[j] != m[k] ==> m[j].Value() == was[j]
    ensures Values(m) == was[k := m[k].Value()]
  {
    hide ChatRunRecord.Value;
  }

  lemma ValuesUpdate(m: map<string, ChatRunRecord>, k: string, o: ChatRunRecord)
    ensures Values(m[k := o]) == Values(m)[k := o.Value()]
  {
    hide ChatRunRecord.Value;
  }

  lemma ExpiredInPlace(m: map<string, ChatRunRecord>, was: map<string, Run>, timeout: int, now: int)
    requires m.Keys == was.Keys && forall k :: k in m ==> m[k].Value() == Expired(was[k], timeout, now)
    ensures Values(m) == AllExpired(was, timeout, now)
  {
    hide ChatRunRecord.Value, Expired;
  }

  method FailStale(records: set<ChatRunRecord>, timeout: int, now: int)
    modifies records
    ensures forall o :: o in records ==> o.Value() == Expired(old(o.Value()), timeout, now)
  {
    hide ChatRunRecord.Value, Expired;
    var todo := records;
    while todo != {}
      invariant todo <= records
      invariant forall o :: o in records ==>
                  o.Value() == if o in todo then old(o.Value()) else Expired(old(o.Value()), timeout, now)
      decreases todo
    {
      var o :| o in todo;
      todo := todo - {o};
      o.FailIfStale(timeout, now);
    }
  }

  class ChatRunRegistry {
    var records: map<string, ChatRunRecord>
    var order: seq<string>
    const limits: Limits

    ghost function View(): (x: Registry)
      reads this, records.Values
    {
      Registry(Values(records), order)
    }

    ghost predicate Valid()
      reads this, records.Values
    {
      WellFormed(View()) && Keyed(records)
    }

    constructor (max: int, timeout: int)
      ensures Valid() && View() == Registry(map[], []) && limits == Limits(max, timeout)
    {
      records, order, limits := map[], [], Limits(max, timeout);
    }

    method Get(requestId: string, session: string) returns (found: Option<ChatRunRecord>)
      ensures found.Some? <==> Find(View(), requestId, session).Some?
      ensures found.Some? ==> var k := Find(View(), requestId, session).value; k in records && found.value == records[k]
      ensures found.Some? && session != "" ==> found.value.session == session
    {
      hide PyText.Strip;
      var k := PyText.Strip(requestId);
      if k == "" || k !in records {
        return None;
      }
      var record := records[k];
      if session != "" && record.session != session {
        return None;
      }
      return Some(record);
    }

    method Start(session: string, requestId: string, created: int, now: int) returns (record: ChatRunRecord)
      requires Valid()
      modifies this, records.Values
      ensures View() == Next(old(View()), Call.Start(session, requestId, created, now), limits)
      ensures var k := old(Find(View(), requestId, session));
              if k.Some? then k.value in old(records) && record == old(records)[k.value] && records == old(records)
              else fresh(record) && record.requestId == requestId && record.session == session
                   && (requestId in records ==> records[requestId] == record)
      ensures Valid()
    {
      hide Values, Pruned, AllExpired, Find, Keyed, ChatRunRecord.Value;
      NextKeepsShape(View(), Call.Start(session, requestId, created, now), limits);
      var existing := Get(requestId, session);
      if existing.Some? {
        return existing.value;
      }
      record := new ChatRunRecord(session, requestId, created);
      Put(record);
      FailStaleRunningRecords(now);
      PruneTerminalRecords();
    }

    /** The record takes the slot of its id, which keeps its place. */
    method Put(record: ChatRunRecord)
      requires Keyed(records)
      modifies this
      ensures View() == Registry(old(View()).runs[record.requestId := record.Value()],
                                 if record.requestId in old(View()).runs then old(order)
                                 else old(order) + [record.requestId])
      ensures records == old(records)[record.requestId := record] && Keyed(records)
    {
      hide ChatRunRecord.Value;
      ValuesUpdate(records, record.requestId, record);
      if record.requestId !in records {
        order := order + [record.requestId];
      }
      records := records[record.requestId := record];
    }

    method FailStaleRunningRecords(now: int)
      modifies records.Values
      ensures View() == Registry(AllExpired(old(Values(records)), limits.timeout, now), old(order))
    {
      hide Expired, AllExpired, ChatRunRecord.Value;
      ghost var was := Values(records);
      FailStale(records.Values, limits.timeout, now);
      ExpiredInPlace(records, was, limits.timeout, now);
    }

    /** Drop the least recently updated finished records while there are too many. */
    method PruneTerminalRecords()
      requires Keyed(records)
      modifies this
      ensures View() == Pruned(old(View()), limits.max)
      ensures Keyed(records) && forall k :: k in records ==> k in old(records) && records[k] == old(records)[k]
    {
      hide ChatRunRecord.Value, Values, Kept, Spared, Victims, Keyed;
      var all := records;
      var victims := VictimsOf();
      var i := 0;
      KeptNone(records);
      assert victims[..0] == [];
      while i < |victims|
        invariant 0 <= i <= |victims| && order == old(order)
        invariant records == Kept(all, victims[..i])
      {
        KeptOneMore(all, victims, i);
        records := records - {victims[i]};
        i := i + 1;
      }
      assert victims[..i] == victims;
      KeptValues(all, victims);
      KeptAre(all, victims);
      order := Spared(order, victims);
    }

    function VictimsOf(): (r: seq<string>)
      reads this, records.Values
      ensures r == Victims(View(), limits.max)
    {
      hide Victims, ChatRunRecord.Value;
      var values := map k | k in records :: records[k].Value();
      Victims(Registry(values, order), limits.max)
    }

    /** The record a call addresses has been updated as the call says; what else the registry holds has not changed. */
    lemma Updated(c: Call, k: string, was: Registry)
      requires !c.Start? && Find(was, c.requestId, "") == Some(k)
      requires k in records && Keyed(records) && records.Keys == was.runs.Keys && order == was.order
      requires forall j :: j in records && records[j] != records[k] ==> records[j].Value() == was.runs[j]
      requires records[k].Value() == Changed(was.runs[k], c)
      requires WellFormed(was)
      ensures View() == Next(was, c, limits) && Valid()
    {
      NextKeepsShape(was, c, limits);
      hide Find, ChatRunRecord.Value, Keyed;
      ChangedInPlace(records, was.runs, k);
    }

    method AttachTask(requestId: string, job: int, now: int)
      requires Valid()
      modifies records.Values
      ensures Valid()
      ensures View() == Next(old(View()), Call.AttachTask(requestId, job, now), limits)
    {
      hide Find, WellFormed, Outcome, Compact;
      ghost var was := View();
      var record := Get(requestId, "");
      if record.Some? {
        var r := record.value;
        r.task := Some(job);
        r.updatedAt := now;
        Updated(Call.AttachTask(requestId, job, now), Find(was, requestId, "").value, was);
      }
    }

    method RecordEvent(requestId: string, at: string, now: int)
      requires Valid()
      modifies records.Values
      ensures Valid()
      ensures View() == Next(old(View()), Call.RecordEvent(requestId, at, now), limits)
    {
      hide Find, WellFormed, Outcome, Compact;
      ghost var was := View();
      var record := Get(requestId, "");
      if record.Some? {
        var r := record.value;
        if r.state == Running {
          r.seqNo := r.seqNo + 1;
          r.latestEventAt := at;
          r.updatedAt := now;
        }
        Updated(Call.RecordEvent(requestId, at, now), Find(was, requestId, "").value, was);
      }
    }

    method MarkDetached(requestId: string, now: int)
      requires Valid()
      modifies records.Values
      ensures Valid()
      ensures View() == Next(old(View()), Call.MarkDetached(requestId, now), limits)
    {
      hide Find, WellFormed, Outcome, Compact;
      ghost var was := View();
      var record := Get(requestId, "");
      if record.Some? {
        var r := record.value;
        if r.state == Running {
          r.detached := r.detached + 1;
          r.updatedAt := now;
        }
        Updated(Call.MarkDetached(requestId, now), Find(was, requestId, "").value, was);
      }
    }

    method Complete(requestId: string, payload: Payload, now: int)
      requires Valid()
      modifies records.Values
      ensures Valid()
      ensures View() == Next(old(View()), Call.Complete(requestId, payload, now), limits)
    {
      hide Find, WellFormed, Outcome, Compact;
      ghost var was := View();
      var record := Get(requestId, "");
      if record.Some? {
        var r := record.value;
        r.state := Outcome(payload.okIsFalse, payload.completion);
        var compact := CompactFinalPayload(payload);
        r.final := Some(compact);
        r.updatedAt := now;
        r.task := None;
        Updated(Call.Complete(requestId, payload, now), Find(was, requestId, "").value, was);
      }
    }

    method Fail(requestId: string, payload: Payload, now: int)
      requires Valid()
      modifies records.Values
      ensures Valid()
      ensures View() == Next(old(View()), Call.Fail(requestId, payload, now), limits)
    {
      hide Find, WellFormed, Outcome, Compact;
      ghost var was := View();
      var record := Get(requestId, "");
      if record.Some? {
        var r := record.value;
        if r.state != Cancelled {
          r.state := Failed;
          var compact := CompactFinalPayload(payload);
          r.failure := Some(compact);
          r.updatedAt := now;
          r.task := None;
        }
        Updated(Call.Fail(requestId, payload, now), Find(was, requestId, "").value, was);
      }
    }

    /** Cancelling answers whether a running run was reached, and which asyncio task to cancel with it. */
    method Cancel(requestId: string, now: int) returns (ok: bool, task: Option<int>)
      requires Valid()
      modifies records.Values
      ensures Valid()
      ensures View() == Next(old(View()), Call.Cancel(requestId, now), limits)
      ensures var k := Find(old(View()), requestId, "");
              && ok == (k.Some? && old(View()).runs[k.value].state == Running)
              && task == if ok then old(View()).runs[k.value].task else None
    {
      hide Find, WellFormed;
      ghost var was := View();
      var record := Get(requestId, "");
      ok, task := record.Some? && record.value.state == Running, None;
      if record.Some? {
        var r := record.value;
        if ok {
          task := r.task;
          r.state := Cancelled;
          r.updatedAt := now;
          r.task := None;
        }
        Updated(Call.Cancel(requestId, now), Find(was, requestId, "").value, was);
      }
    }
  }
}
