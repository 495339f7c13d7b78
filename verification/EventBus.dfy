/**
 The replay part of the event bus (event_bus.py): two indexes of bounded, expiring, lazily
 swept buckets that stand in for filtering the complete log of published
 events. */
module EventBus {
  import opened Seqs

  /** `createdAt` is the parsed creation time, `body` everything the bus does not look at. */
  datatype Event = Event(kind: string, sessionId: string, requestId: string, createdAt: Option<real>, body: string,
                         replayed: bool)

  datatype Item = Item(ts: real, number: nat, event: Event)

  datatype Index = BySession | ByRequest

  function KeyOf(ix: Index, e: Event): (key: string) {
    match ix case BySession => e.sessionId case ByRequest => e.requestId
  }

  /** The items of a key, oldest first. */
  function OfKey(log: seq<Item>, ix: Index, key: string): (r: seq<Item>)
    ensures |r| <= |log| && forall x :: x in r ==> x in log
  {
    if log == [] then []
    else
      var last := log[|log| - 1];
      OfKey(log[..|log| - 1], ix, key) + if KeyOf(ix, last.event) == key then [last] else []
  }

  /** The items that have not expired: what a full scan of a log would keep. */
  function Live(items: seq<Item>, cutoff: real): (r: seq<Item>) {
    if items == [] then []
    else
      var last := items[|items| - 1];
      Live(items[..|items| - 1], cutoff) + if last.ts >= cutoff then [last] else []
  }

  /** How many leading items pruning pops. */
  function ExpiredLead(items: seq<Item>, cutoff: real): (n: nat)
    ensures n <= |items|
    ensures n < |items| ==> items[n].ts >= cutoff
    ensures forall i :: 0 <= i < n ==> items[i].ts < cutoff
  {
    if items != [] && items[0].ts < cutoff then 1 + ExpiredLead(items[1..], cutoff) else 0
  }

  function Prune(items: seq<Item>, cutoff: real): (r: seq<Item>) {
    items[ExpiredLead(items, cutoff)..]
  }

  ghost predicate InTimeOrder(items: seq<Item>) {
    forall i, j :: 0 <= i < j < |items| ==> items[i].ts <= items[j].ts && items[i].number < items[j].number
  }

  /** On items in time order popping the expired head is a full scan for expired items. */
  lemma {:induction false} PruneIsLive(items: seq<Item>, cutoff: real)
    requires InTimeOrder(items)
    ensures Prune(items, cutoff) == Live(items, cutoff)
  {
    if items != [] {
      var n := |items| - 1;
      PruneIsLive(items[..n], cutoff);
      LeadOfPrefix(items, cutoff);
    }
  }

  lemma LeadOfPrefix(items: seq<Item>, cutoff: real)
    requires items != [] && InTimeOrder(items)
    ensures var n := |items| - 1;
            Prune(items, cutoff) == Prune(items[..n], cutoff) + if items[n].ts >= cutoff then [items[n]] else []
  {
    var n := |items| - 1;
    var k := ExpiredLead(items, cutoff);
    var m := ExpiredLead(items[..n], cutoff);
    if items[n].ts >= cutoff {
      assert k <= n;
      assert k == m;
      assert items[m..] == items[..n][m..] + [items[n]];
    } else {
      assert forall i :: 0 <= i < n ==> items[..n][i].ts < cutoff;
      assert m == n && k == n + 1;
    }
  }

  /** Items picked from the front, and then the last one, are in order. */
  lemma PickedKeepsOrder(items: seq<Item>, picked: seq<Item>)
    requires items != [] && InTimeOrder(items) && InTimeOrder(picked)
    requires forall x :: x in picked ==> x in items[..|items| - 1]
    ensures InTimeOrder(picked + [items[|items| - 1]])
  {
    assert forall i :: 0 <= i < |picked| ==> picked[i] in picked;
  }

  lemma PrefixKeepsOrder(items: seq<Item>, n: nat)
    requires n <= |items| && InTimeOrder(items)
    ensures InTimeOrder(items[..n])
  {
  }

  lemma {:induction false} OfKeyKeepsOrder(log: seq<Item>, ix: Index, key: string)
    requires InTimeOrder(log)
    ensures InTimeOrder(OfKey(log, ix, key))
  {
    if log != [] {
      var n := |log| - 1;
      PrefixKeepsOrder(log, n);
      OfKeyKeepsOrder(log[..n], ix, key);
      PickedKeepsOrder(log, OfKey(log[..n], ix, key));
      hide InTimeOrder;
    }
  }

  // ----------------------------------------------------------------- buckets

  /** A bucket is an end of its key's full history, and what it lacks has expired or is beyond the limit. */
  ghost predicate Represents(bucket: seq<Item>, full: seq<Item>, limit: nat, cutoff: real) {
    && |bucket| <= limit && |bucket| <= |full|
    && bucket == full[|full| - |bucket|..]
    && (|bucket| == |full| || |bucket| == limit || full[|full| - |bucket| - 1].ts < cutoff)
  }

  lemma LeadUnique(items: seq<Item>, n: nat, cutoff: real)
    requires n <= |items| && (forall i :: 0 <= i < n ==> items[i].ts < cutoff)
    requires n < |items| ==> items[n].ts >= cutoff
    ensures ExpiredLead(items, cutoff) == n
  {
    hide ExpiredLead;
  }

  /** Pruning an end of a history in time order leaves an end of it: from the end's start or the first live item on. */
  lemma PruneSuffix(full: seq<Item>, d: nat, cutoff: real)
    requires d <= |full| && InTimeOrder(full)
    ensures var k := ExpiredLead(full, cutoff); Prune(full[d..], cutoff) == full[if k > d then k else d..]
  {
    hide ExpiredLead;
    var bucket := full[d..];
    var k := ExpiredLead(full, cutoff);
    var m := if k > d then k - d else 0;
    assert forall i :: 0 <= i < |bucket| ==> bucket[i] == full[d + i];
    LeadUnique(bucket, m, cutoff);
    assert bucket[m..] == full[d + m..];
  }

  lemma ExpiredBefore(full: seq<Item>, i: nat, cutoff: real)
    requires InTimeOrder(full) && i < |full| && full[i].ts < cutoff
    ensures ExpiredLead(full, cutoff) > i
  {
    hide ExpiredLead;
  }

  /** Reading a bucket is reading the last `limit` unexpired items of the full history. */
  lemma BucketAnswers(bucket: seq<Item>, full: seq<Item>, limit: nat, before: real, cutoff: real)
    requires Represents(bucket, full, limit, before) && InTimeOrder(full) && before <= cutoff
    ensures Prune(bucket, cutoff) == LastN(Live(full, cutoff), limit)
  {
    hide Live, InTimeOrder, ExpiredLead, LastN, Prune;
    var d := |full| - |bucket|;
    var k := ExpiredLead(full, cutoff);
    PruneIsLive(full, cutoff);
    PruneIsDrop(full, cutoff);
    PruneSuffix(full, d, cutoff);
    if d > 0 && full[d - 1].ts < cutoff {
      ExpiredBefore(full, d - 1, cutoff);
    }
    LastOfDrop(full, k, d, limit);
  }

  lemma PruneIsDrop(items: seq<Item>, cutoff: real)
    ensures Prune(items, cutoff) == items[ExpiredLead(items, cutoff)..]
  {
  }

  lemma LastOfDrop(full: seq<Item>, k: nat, d: nat, limit: nat)
    requires k <= |full| && d <= |full| && |full| - d <= limit
    requires d == 0 || |full| - d == limit || k >= d
    ensures full[if k > d then k else d..] == LastN(full[k..], limit)
  {
    if |full| - k > limit {
      assert full[k..][|full| - k - limit..] == full[|full| - limit..];
    }
  }

  /** What pruning leaves of an end is an end, and what it takes has expired. */
  lemma PrunedEnd(bucket: seq<Item>, full: seq<Item>, d: nat, cutoff: real)
    requires d <= |full| && bucket == full[d..]
    ensures var p := Prune(bucket, cutoff);
            && |p| <= |bucket| && p == full[|full| - |p|..]
            && (|p| < |bucket| ==> full[|full| - |p| - 1].ts < cutoff)
  {
    hide ExpiredLead;
    var n := ExpiredLead(bucket, cutoff);
    assert bucket[n..] == full[d + n..];
    if n > 0 {
      assert bucket[n - 1] == full[d + n - 1];
    }
  }

  lemma PruneRepresents(bucket: seq<Item>, full: seq<Item>, limit: nat, before: real, cutoff: real)
    requires Represents(bucket, full, limit, before) && before <= cutoff
    ensures Represents(Prune(bucket, cutoff), full, limit, cutoff)
  {
    hide Prune;
    PrunedEnd(bucket, full, |full| - |bucket|, cutoff);
  }

  lemma TrimRepresents(bucket: seq<Item>, full: seq<Item>, limit: nat, cutoff: real)
    requires |bucket| <= |full| && bucket == full[|full| - |bucket|..]
    requires |bucket| == |full| || |bucket| >= limit || full[|full| - |bucket| - 1].ts < cutoff
    ensures Represents(LastN(bucket, limit), full, limit, cutoff)
  {
    var t := LastN(bucket, limit);
    assert t == full[|full| - |t|..];
  }

  /** Appending, pruning and trimming keep the bucket an end of the history. */
  lemma AppendRepresents(bucket: seq<Item>, full: seq<Item>, item: Item, limit: nat, before: real, cutoff: real)
    requires Represents(bucket, full, limit, before) && before <= cutoff
    ensures Represents(LastN(Prune(bucket + [item], cutoff), limit), full + [item], limit, cutoff)
  {
    hide Prune, LastN;
    var f, d := full + [item], |full| - |bucket|;
    assert bucket + [item] == f[d..];
    assert d > 0 ==> f[d - 1] == full[d - 1];
    PrunedEnd(bucket + [item], f, d, cutoff);
    TrimRepresents(Prune(bucket + [item], cutoff), f, limit, cutoff);
  }

  // ----------------------------------------------------------------- replies

  function SortTime(it: Item): (t: real) {
    if it.event.createdAt.Some? then it.event.createdAt.value else it.ts
  }

  /** Event time first, then publish order. */
  predicate Before(a: Item, b: Item) {
    SortTime(a) < SortTime(b) || (SortTime(a) == SortTime(b) && a.number < b.number)
  }

  function Insert(it: Item, sorted: seq<Item>): (r: seq<Item>) {
    if sorted == [] || Before(it, sorted[0]) then [it] + sorted else [sorted[0]] + Insert(it, sorted[1..])
  }

  /** The items in (event time, sequence) order. */
  function SortItems(items: seq<Item>): (r: seq<Item>) {
    if items == [] then [] else Insert(items[0], SortItems(items[1..]))
  }

  lemma {:induction false} InsertPermutes(it: Item, sorted: seq<Item>)
    ensures multiset(Insert(it, sorted)) == multiset(sorted) + multiset{it}
  {
    if sorted != [] {
      assert sorted == [sorted[0]] + sorted[1..];
      InsertPermutes(it, sorted[1..]);
    }
  }

  lemma BeforeAll(it: Item, sorted: seq<Item>)
    requires Ascending(sorted, Before) && sorted != [] && Before(it, sorted[0])
    ensures forall x :: x in sorted ==> Before(it, x)
  {
    RestAfterFirst(sorted, Before);
  }

  lemma {:induction false} InsertFits(it: Item, sorted: seq<Item>)
    requires Ascending(sorted, Before) && forall x :: x in sorted ==> x.number != it.number
    ensures Ascending(Insert(it, sorted), Before) && multiset(Insert(it, sorted)) == multiset(sorted) + multiset{it}
    ensures forall x :: x in Insert(it, sorted) <==> x == it || x in sorted
  {
    hide Ascending, SortTime;
    InsertPermutes(it, sorted);
    if sorted == [] {
      InFront(it, sorted, Before);
    } else {
      RestAfterFirst(sorted, Before);
      if Before(it, sorted[0]) {
        BeforeAll(it, sorted);
        InFront(it, sorted, Before);
      } else {
        InsertFits(it, sorted[1..]);
        InFront(sorted[0], Insert(it, sorted[1..]), Before);
      }
    }
  }

  /** Sorting yields a permutation in strict (time, sequence) order when the sequence numbers differ. */
  lemma {:induction false} SortItemsFits(items: seq<Item>)
    requires forall i, j :: 0 <= i < j < |items| ==> items[i].number != items[j].number
    ensures Ascending(SortItems(items), Before) && multiset(SortItems(items)) == multiset(items)
  {
    if items != [] {
      var rest := items[1..];
      SortItemsFits(rest);
      assert items == [items[0]] + rest;
      forall x | x in SortItems(rest)
        ensures x.number != items[0].number
      {
        assert x in multiset(rest);
      }
      InsertFits(items[0], SortItems(rest));
    }
  }

  lemma RestOfMultiset(a: seq<Item>)
    requires a != []
    ensures multiset(a[1..]) == multiset(a) - multiset{a[0]} && a == [a[0]] + a[1..]
  {
    assert a == [a[0]] + a[1..];
  }

  lemma SameFirst(a: seq<Item>, b: seq<Item>)
    requires Ascending(a, Before) && Ascending(b, Before) && a != [] && b != [] && a[0] in b && b[0] in a
    ensures a[0] == b[0]
  {
    var i :| 0 <= i < |b| && b[i] == a[0];
    var j :| 0 <= j < |a| && a[j] == b[0];
  }

  /** There is only one such order, so it does not matter how the list is sorted. */
  lemma {:induction false} AscendingIsUnique(a: seq<Item>, b: seq<Item>)
    requires Ascending(a, Before) && Ascending(b, Before) && multiset(a) == multiset(b)
    ensures a == b
  {
    hide Ascending, Before;
    assert |a| == |b| by {
      assert |multiset(a)| == |a| && |multiset(b)| == |b|;
    }
    if a != [] {
      assert a[0] in multiset(a) && b[0] in multiset(b);
      SameFirst(a, b);
      RestAfterFirst(a, Before);
      RestAfterFirst(b, Before);
      RestOfMultiset(a);
      RestOfMultiset(b);
      AscendingIsUnique(a[1..], b[1..]);
    }
  }

  datatype Query = Query(sessionId: string, requestId: string, limit: Option<int>, kinds: set<string>,
                         lastEventAt: Option<real>)

  predicate Matches(q: Query, it: Item) {
    && (q.kinds == {} || it.event.kind in q.kinds)
    && (q.requestId != "" && q.sessionId != "" ==> it.event.sessionId == q.sessionId)
    && (q.lastEventAt.Some? ==> SortTime(it) > q.lastEventAt.value)
  }

  function Select(q: Query, items: seq<Item>): (r: seq<Item>) {
    if items == [] then []
    else
      var last := items[|items| - 1];
      Select(q, items[..|items| - 1]) + if Matches(q, last) then [last] else []
  }

  function MaxItems(q: Query, replayLimit: nat): (n: nat) {
    match q.limit
    case None => replayLimit
    case Some(k) => if k <= 0 then 0 else if k < replayLimit then k else replayLimit
  }

  function MarkAll(items: seq<Item>): (r: seq<Event>)
    ensures |r| == |items| && forall i :: 0 <= i < |r| ==> r[i] == items[i].event.(replayed := true)
  {
    seq(|items|, i requires 0 <= i < |items| => items[i].event.(replayed := true))
  }

  /** The reply that scanning the complete log would give. */
  function Reply(log: seq<Item>, q: Query, replayLimit: nat, cutoff: real): (r: seq<Event>) {
    if q.requestId == "" && q.sessionId == "" then []
    else
      var full := if q.requestId != "" then OfKey(log, ByRequest, q.requestId) else OfKey(log, BySession, q.sessionId);
      var recent := LastN(Live(full, cutoff), replayLimit);
      MarkAll(LastN(SortItems(Select(q, recent)), MaxItems(q, replayLimit)))
  }

  lemma {:induction false} LiveKeepsOrder(items: seq<Item>, cutoff: real)
    requires InTimeOrder(items)
    ensures InTimeOrder(Live(items, cutoff)) && forall x :: x in Live(items, cutoff) ==> x in items
  {
    if items != [] {
      var n := |items| - 1;
      PrefixKeepsOrder(items, n);
      LiveKeepsOrder(items[..n], cutoff);
      PickedKeepsOrder(items, Live(items[..n], cutoff));
      hide InTimeOrder;
    }
  }

  lemma {:induction false} SelectKeepsOrder(q: Query, items: seq<Item>)
    requires InTimeOrder(items)
    ensures InTimeOrder(Select(q, items)) && forall x :: x in Select(q, items) <==> x in items && Matches(q, x)
  {
    if items != [] {
      var n := |items| - 1;
      PrefixKeepsOrder(items, n);
      SelectKeepsOrder(q, items[..n]);
      PickedKeepsOrder(items, Select(q, items[..n]));
      hide InTimeOrder, Matches;
      assert items == items[..n] + [items[n]];
    }
  }

  /** What a reply is cut from: the matching items among a key's recent ones, each once, in (event time, sequence)
      order. */
  lemma ReplyIsOrdered(log: seq<Item>, q: Query, ix: Index, key: string, replayLimit: nat, cutoff: real)
    requires InTimeOrder(log)
    ensures var recent := LastN(Live(OfKey(log, ix, key), cutoff), replayLimit);
            var sorted := SortItems(Select(q, recent));
            && Ascending(sorted, Before)
            && multiset(sorted) == multiset(Select(q, recent))
            && (forall x :: x in sorted <==> x in recent && Matches(q, x))
  {
    hide OfKey, Live, Select, SortItems, Matches, Ascending;
    OfKeyKeepsOrder(log, ix, key);
    var live := Live(OfKey(log, ix, key), cutoff);
    LiveKeepsOrder(OfKey(log, ix, key), cutoff);
    var recent := LastN(live, replayLimit);
    assert InTimeOrder(recent);
    SelectKeepsOrder(q, recent);
    var selected := Select(q, recent);
    SortItemsFits(selected);
    forall x
      ensures x in SortItems(selected) <==> x in selected
    {
      assert x in SortItems(selected) <==> x in multiset(SortItems(selected));
    }
  }

  /** Whether an item is what a query asks for: of an asked kind, when kinds are given; of the session, when both a
      request and a session are given; and newer than the last event the client has, by its creation time or else by
      the time it was published. */
  ghost predicate Asked(q: Query, x: Item) {
    && (x.event.kind in q.kinds || |q.kinds| == 0)
    && (q.requestId == "" || q.sessionId == "" || q.sessionId == x.event.sessionId)
    && (q.lastEventAt.Some? ==>
          q.lastEventAt.value < if x.event.createdAt == None then x.ts else x.event.createdAt.value)
  }

  /** Earlier in event time, or at the same time and published before. */
  ghost predicate Earlier(x: Item, y: Item) {
    var s := if x.event.createdAt == None then x.ts else x.event.createdAt.value;
    var t := if y.event.createdAt == None then y.ts else y.event.createdAt.value;
    s < t || (s == t && x.number < y.number)
  }

  /** The reply `r` to a query tells, from earlier to later and marked as replayed, the latest of the recent items it
      asks for: as many as it allows and the bus keeps, or all of them. */
  ghost predicate IsAnswer(q: Query, recent: seq<Item>, replayLimit: nat, told: seq<Item>, r: seq<Event>) {
    && |r| == |told| && (forall i :: 0 <= i < |r| ==> r[i] == told[i].event.(replayed := true))
    && (forall i, j :: 0 <= i < j < |told| ==> Earlier(told[i], told[j]))
    && (forall x :: x in told ==> x in recent && Asked(q, x))
    && |told| <= replayLimit && (q.limit.Some? ==> |told| <= if q.limit.value > 0 then q.limit.value else 0)
    && (forall x :: x in recent && Asked(q, x) && x !in told ==>
          && (|told| == replayLimit || (q.limit.Some? && |told| >= q.limit.value))
          && forall y :: y in told ==> Earlier(x, y))
  }

  lemma MatchesIsAsked(q: Query, x: Item)
    ensures Matches(q, x) <==> Asked(q, x)
  {
    assert |q.kinds| == 0 <==> q.kinds == {};
  }

  lemma BeforeIsEarlier(x: Item, y: Item)
    ensures Before(x, y) <==> Earlier(x, y)
  {
  }

  lemma LastOfSorted(sorted: seq<Item>, n: nat, x: Item, y: Item)
    requires Ascending(sorted, Before) && x in sorted && x !in LastN(sorted, n) && y in LastN(sorted, n)
    ensures Before(x, y)
  {
    var d := |sorted| - n;
    var i :| 0 <= i < |sorted| && sorted[i] == x;
    var j :| 0 <= j < n && LastN(sorted, n)[j] == y;
    assert forall m :: 0 <= m < |LastN(sorted, n)| ==> LastN(sorted, n)[m] != x;
  }

  lemma CutFits(q: Query, sorted: seq<Item>, replayLimit: nat)
    ensures var told := LastN(sorted, MaxItems(q, replayLimit));
            && |told| <= replayLimit && (q.limit.Some? ==> |told| <= if q.limit.value > 0 then q.limit.value else 0)
            && (|told| < |sorted| ==> |told| == replayLimit || (q.limit.Some? && |told| >= q.limit.value))
            && (|told| == |sorted| ==> told == sorted)
            && (forall x :: x in told ==> x in sorted)
  {
  }

  /** What the bus collects answers the query. */
  lemma CollectedIsAnswer(q: Query, recent: seq<Item>, replayLimit: nat)
    requires InTimeOrder(recent)
    ensures var told := LastN(SortItems(Select(q, recent)), MaxItems(q, replayLimit));
            IsAnswer(q, recent, replayLimit, told, MarkAll(told))
  {
    hide InTimeOrder, Matches, Asked, Before, Earlier, Ascending, LastN, MaxItems, Select, SortItems;
    SelectKeepsOrder(q, recent);
    var selected := Select(q, recent);
    NumbersDiffer(selected);
    SortItemsFits(selected);
    var sorted := SortItems(selected);
    SameItems(sorted, selected);
    CutFits(q, sorted, replayLimit);
    var told := LastN(sorted, MaxItems(q, replayLimit));
    forall x ensures Matches(q, x) <==> Asked(q, x) {
      MatchesIsAsked(q, x);
    }
    LastAscending(sorted, MaxItems(q, replayLimit));
    forall i, j | 0 <= i < j < |told| ensures Earlier(told[i], told[j]) {
      AscendingAt(told, i, j);
      BeforeIsEarlier(told[i], told[j]);
    }
    forall x, y | x in recent && Asked(q, x) && x !in told && y in told ensures Earlier(x, y) {
      LastOfSorted(sorted, MaxItems(q, replayLimit), x, y);
      BeforeIsEarlier(x, y);
    }
  }

  lemma NumbersDiffer(items: seq<Item>)
    requires InTimeOrder(items)
    ensures forall i, j :: 0 <= i < j < |items| ==> items[i].number != items[j].number
  {
  }

  lemma SameItems(a: seq<Item>, b: seq<Item>)
    requires multiset(a) == multiset(b)
    ensures forall x :: x in a <==> x in b
  {
    forall x ensures x in a <==> x in b {
      assert x in a <==> x in multiset(a);
    }
  }

  lemma LastAscending(sorted: seq<Item>, n: nat)
    requires Ascending(sorted, Before)
    ensures Ascending(LastN(sorted, n), Before)
  {
  }

  lemma AscendingAt(s: seq<Item>, i: nat, j: nat)
    requires Ascending(s, Before) && i < j < |s|
    ensures Before(s[i], s[j])
  {
  }

  /** The items of a query's request, or else of its session, that have not expired, up to the replay limit. */
  ghost function Recent(log: seq<Item>, q: Query, replayLimit: nat, cutoff: real): (r: seq<Item>) {
    if q.requestId != "" then LastN(Live(OfKey(log, ByRequest, q.requestId), cutoff), replayLimit)
    else if q.sessionId != "" then LastN(Live(OfKey(log, BySession, q.sessionId), cutoff), replayLimit)
    else []
  }

  lemma RecentKeepsOrder(log: seq<Item>, q: Query, replayLimit: nat, cutoff: real)
    requires InTimeOrder(log)
    ensures InTimeOrder(Recent(log, q, replayLimit, cutoff))
  {
    hide OfKey, Live;
    OfKeyKeepsOrder(log, ByRequest, q.requestId);
    OfKeyKeepsOrder(log, BySession, q.sessionId);
    LiveKeepsOrder(OfKey(log, ByRequest, q.requestId), cutoff);
    LiveKeepsOrder(OfKey(log, BySession, q.sessionId), cutoff);
  }

  /** What a key's recent items are: the last `replayLimit` items of the log that carry the key and have not expired. */
  lemma {:induction false} LiveOfKey(log: seq<Item>, ix: Index, key: string, cutoff: real)
    ensures forall x :: x in Live(OfKey(log, ix, key), cutoff) <==>
              x in log && x.ts >= cutoff && key == if ix == BySession then x.event.sessionId else x.event.requestId
  {
    OfKeyIs(log, ix, key);
    LiveIs(OfKey(log, ix, key), cutoff);
  }

  lemma {:induction false} OfKeyIs(log: seq<Item>, ix: Index, key: string)
    ensures forall x :: x in OfKey(log, ix, key) <==>
              x in log && key == if ix == BySession then x.event.sessionId else x.event.requestId
  {
    if log != [] {
      OfKeyIs(log[..|log| - 1], ix, key);
      assert log == log[..|log| - 1] + [log[|log| - 1]];
    }
  }

  lemma {:induction false} LiveIs(items: seq<Item>, cutoff: real)
    ensures forall x :: x in Live(items, cutoff) <==> x in items && x.ts >= cutoff
  {
    if items != [] {
      LiveIs(items[..|items| - 1], cutoff);
      assert items == items[..|items| - 1] + [items[|items| - 1]];
    }
  }

  // --------------------------------------------------------------------- bus

  type Store = map<string, seq<Item>>

  function Bucket(store: Store, key: string): (b: seq<Item>) {
    if key in store then store[key] else []
  }

  /** Every key's bucket represents its history in the complete log. */
  ghost predicate Indexes(store: Store, ix: Index, log: seq<Item>, limit: nat, cutoff: real) {
    && "" !in store
    && forall key :: key != "" ==> Represents(Bucket(store, key), OfKey(log, ix, key), limit, cutoff)
  }

  lemma LaterCutoff(store: Store, ix: Index, log: seq<Item>, limit: nat, before: real, cutoff: real)
    requires Indexes(store, ix, log, limit, before) && before <= cutoff
    ensures Indexes(store, ix, log, limit, cutoff)
  {
    hide OfKey;
  }

  lemma OfKeyAppend(log: seq<Item>, item: Item, ix: Index, key: string)
    ensures OfKey(log + [item], ix, key) == OfKey(log, ix, key) + if KeyOf(ix, item.event) == key then [item] else []
  {
    assert (log + [item])[..|log|] == log;
  }

  /** An index without expired items and without the buckets that leaves empty. */
  function Swept(store: Store, cutoff: real): (r: Store) {
    map k | k in store && Prune(store[k], cutoff) != [] :: Prune(store[k], cutoff)
  }

  lemma SweptBuckets(store: Store, cutoff: real)
    ensures Swept(store, cutoff).Keys <= store.Keys
    ensures forall k :: Bucket(Swept(store, cutoff), k) == Prune(Bucket(store, k), cutoff)
  {
    hide Prune;
    NothingToPrune(cutoff);
    forall k ensures Bucket(Swept(store, cutoff), k) == Prune(Bucket(store, k), cutoff) {
      if k in store && Prune(store[k], cutoff) != [] {
        assert k in Swept(store, cutoff);
      }
    }
  }

  lemma NothingToPrune(cutoff: real)
    ensures Prune([], cutoff) == []
  {
  }

  class Bus {
    const replayLimit: nat
    const ttl: real
    const sweepInterval: real
    var recentBySession: Store
    var recentByRequest: Store
    var nextNumber: nat
    var lastSweep: real
    ghost var log: seq<Item>    // every event published, with its time and number
    ghost var clock: real       // the latest reading of the clock

    ghost predicate Valid()
      reads this
    {
      && ttl > 0.0 && nextNumber == |log| + 1
      && InTimeOrder(log)
      && (forall it :: it in log ==> it.ts <= clock && it.number < nextNumber)
      && Indexes(recentBySession, BySession, log, replayLimit, clock - ttl)
      && Indexes(recentByRequest, ByRequest, log, replayLimit, clock - ttl)
    }

    constructor (replayLimit: int, ttl: real, sweepInterval: real)
      ensures Valid() && log == [] && this.replayLimit == if replayLimit < 0 then 0 else replayLimit
    {
      this.replayLimit := if replayLimit < 0 then 0 else replayLimit;
      this.ttl := if ttl < 0.001 then 0.001 else ttl;
      this.sweepInterval := if sweepInterval < 0.0 then 0.0 else sweepInterval;
      recentBySession, recentByRequest, nextNumber, lastSweep, log, clock := map[], map[], 1, 0.0, [], 0.0;
    }

    /** Pop expired items from the front. */
    method PruneBucket(bucket: seq<Item>, now: real) returns (r: seq<Item>)
      ensures r == Prune(bucket, now - ttl)
    {
      r := bucket;
      while r != [] && r[0].ts < now - ttl
        invariant Prune(r, now - ttl) == Prune(bucket, now - ttl)
      {
        PrunePops(r, now - ttl);
        r := r[1..];
      }
      assert r[0..] == r;
    }

    /** Drop expired items and empty buckets of one index. */
    method SweepStore(store: Store, now: real) returns (swept: Store)
      ensures swept == Swept(store, now - ttl) && swept.Keys <= store.Keys
      ensures forall k :: Bucket(swept, k) == Prune(Bucket(store, k), now - ttl)
    {
      hide Prune;
      swept := store;
      var todo := store.Keys;
      while todo != {}
        invariant todo <= swept.Keys <= store.Keys
        invariant forall k :: k in todo ==> swept[k] == store[k]
        invariant forall k :: k in store && k !in todo ==> (k in swept <==> Prune(store[k], now - ttl) != [])
        invariant forall k :: k in swept && k !in todo ==> swept[k] == Prune(store[k], now - ttl)
        decreases todo
      {
        var k :| k in todo;
        todo := todo - {k};
        var bucket := PruneBucket(swept[k], now);
        swept := if bucket == [] then swept - {k} else swept[k := bucket];
      }
      SweptBuckets(store, now - ttl);
    }

    /** Drop what has expired from every bucket, at most once per interval. */
    method Sweep(now: real)
      requires Valid() && clock <= now
      modifies this`recentBySession, this`recentByRequest, this`lastSweep, this`clock
      ensures Valid() && clock == now
      ensures if now - old(lastSweep) < sweepInterval
              then recentBySession == old(recentBySession) && recentByRequest == old(recentByRequest)
                  && lastSweep == old(lastSweep)
              else recentBySession == Swept(old(recentBySession), now - ttl) && lastSweep == now
                   && recentByRequest == Swept(old(recentByRequest), now - ttl)
    {
      hide Indexes, InTimeOrder, Prune, Bucket, Swept;
      if now - lastSweep < sweepInterval {
        LaterCutoff(recentBySession, BySession, log, replayLimit, clock - ttl, now - ttl);
        LaterCutoff(recentByRequest, ByRequest, log, replayLimit, clock - ttl, now - ttl);
        clock := now;
        return;
      }
      lastSweep := now;
      var bySession := SweepStore(recentBySession, now);
      var byRequest := SweepStore(recentByRequest, now);
      PrunedIndexes(recentBySession, bySession, BySession, log, replayLimit, clock - ttl, now - ttl);
      PrunedIndexes(recentByRequest, byRequest, ByRequest, log, replayLimit, clock - ttl, now - ttl);
      recentBySession, recentByRequest := bySession, byRequest;
      clock := now;
    }

    /** Append an item to a key's bucket, prune the bucket and trim it to the limit. */
    method AppendLimited(store: Store, key: string, item: Item, now: real) returns (r: Store)
      ensures r == if key == "" || replayLimit == 0 then store
                   else store[key := LastN(Prune(Bucket(store, key) + [item], now - ttl), replayLimit)]
    {
      if key == "" || replayLimit <= 0 {
        return store;
      }
      var bucket := PruneBucket(Bucket(store, key) + [item], now);
      ghost var pruned := bucket;
      while |bucket| > replayLimit
        invariant LastN(bucket, replayLimit) == LastN(pruned, replayLimit)
      {
        bucket := bucket[1..];
      }
      return store[key := bucket];
    }

    /** Record an event for replay. The clock is read once for the item and once more per index. */
    method Publish(event: Event, now: real, t1: real, t2: real)
      requires Valid() && clock <= now <= t1 <= t2
      modifies this
      ensures Valid()
      ensures replayLimit > 0 ==> clock == t2 && log == old(log) + [Item(now, |old(log)| + 1, event)]
      ensures replayLimit == 0 ==> log == old(log)
      ensures replayLimit > 0 && now - old(lastSweep) >= sweepInterval ==> lastSweep == now
    {
      hide Indexes, InTimeOrder, Prune, Bucket, LastN;
      if replayLimit <= 0 {
        return;
      }
      Sweep(now);
      var item := Item(now, nextNumber, event);
      nextNumber := nextNumber + 1;
      var bySession := AppendLimited(recentBySession, event.sessionId, item, t1);
      var byRequest := AppendLimited(recentByRequest, event.requestId, item, t2);
      AppendedIndexes(recentBySession, BySession, log, item, replayLimit, now - ttl, t1 - ttl);
      AppendedIndexes(recentByRequest, ByRequest, log, item, replayLimit, now - ttl, t2 - ttl);
      LaterCutoff(bySession, BySession, log + [item], replayLimit, t1 - ttl, t2 - ttl);
      AppendKeepsOrder(log, item);
      recentBySession, recentByRequest := bySession, byRequest;
      log := log + [item];
      clock := t2;
    }

    /** Replay the recent events of a request or a session: exactly what a scan of everything published would give. */
    method RecentEvents(q: Query, now: real) returns (r: seq<Event>, ghost told: seq<Item>)
      requires Valid() && clock <= now
      modifies this`recentBySession, this`recentByRequest, this`clock
      ensures Valid() && clock == now
      ensures r == Reply(log, q, replayLimit, now - ttl)
      ensures IsAnswer(q, Recent(log, q, replayLimit, now - ttl), replayLimit, told, r)
    {
      hide IsAnswer, Indexes, InTimeOrder, Prune, LastN, Live, OfKey, Select, SortItems, MarkAll, MaxItems;
      var bucket: seq<Item> := [];
      LaterCutoff(recentBySession, BySession, log, replayLimit, clock - ttl, now - ttl);
      LaterCutoff(recentByRequest, ByRequest, log, replayLimit, clock - ttl, now - ttl);
      if q.requestId != "" {
        BucketAnswersKey(recentByRequest, ByRequest, log, q.requestId, replayLimit, clock - ttl, now - ttl);
        if q.requestId in recentByRequest {
          bucket := PruneBucket(recentByRequest[q.requestId], now);
          PrunedAt(recentByRequest, q.requestId, ByRequest, log, replayLimit, now - ttl);
          recentByRequest := recentByRequest[q.requestId := bucket];
        }
      } else if q.sessionId != "" {
        BucketAnswersKey(recentBySession, BySession, log, q.sessionId, replayLimit, clock - ttl, now - ttl);
        if q.sessionId in recentBySession {
          bucket := PruneBucket(recentBySession[q.sessionId], now);
          PrunedAt(recentBySession, q.sessionId, BySession, log, replayLimit, now - ttl);
          recentBySession := recentBySession[q.sessionId := bucket];
        }
      }
      NothingFromNothing(q, MaxItems(q, replayLimit), now - ttl);
      clock := now;
      RecentKeepsOrder(log, q, replayLimit, now - ttl);
      r, told := Collect(q, bucket);
    }

    /** Filter, order and cut the items of a bucket. */
    method Collect(q: Query, bucket: seq<Item>) returns (r: seq<Event>, ghost told: seq<Item>)
      requires InTimeOrder(bucket)
      ensures r == MarkAll(LastN(SortItems(Select(q, bucket)), MaxItems(q, replayLimit)))
      ensures IsAnswer(q, bucket, replayLimit, told, r)
    {
      hide InTimeOrder, IsAnswer, Matches, SortItems, MaxItems;
      CollectedIsAnswer(q, bucket, replayLimit);
      told := LastN(SortItems(Select(q, bucket)), MaxItems(q, replayLimit));
      var items: seq<Item> := [];
      for i := 0 to |bucket|
        invariant items == Select(q, bucket[..i])
      {
        assert bucket[..i + 1][..i] == bucket[..i];
        if Matches(q, bucket[i]) {
          items := items + [bucket[i]];
        }
      }
      assert bucket[..|bucket|] == bucket;
      var sorted := SortItems(items);
      var n := MaxItems(q, replayLimit);
      r := MarkAll(if n == 0 then [] else if n < |sorted| then sorted[|sorted| - n..] else sorted);
    }
  }

  lemma NothingFromNothing(q: Query, n: nat, cutoff: real)
    ensures Prune([], cutoff) == [] && MarkAll(LastN(SortItems(Select(q, [])), n)) == []
  {
  }

  lemma PrunedIndexes(store: Store, swept: Store, ix: Index, log: seq<Item>, limit: nat, before: real, cutoff: real)
    requires Indexes(store, ix, log, limit, before) && before <= cutoff && swept.Keys <= store.Keys
    requires forall k :: Bucket(swept, k) == Prune(Bucket(store, k), cutoff)
    ensures Indexes(swept, ix, log, limit, cutoff)
  {
    hide OfKey, Prune, Represents, Bucket;
    forall key | key != ""
      ensures Represents(Bucket(swept, key), OfKey(log, ix, key), limit, cutoff)
    {
      PruneRepresents(Bucket(store, key), OfKey(log, ix, key), limit, before, cutoff);
    }
  }

  lemma AppendedIndexes(store: Store, ix: Index, log: seq<Item>, item: Item, limit: nat, before: real, cutoff: real)
    requires Indexes(store, ix, log, limit, before) && before <= cutoff && limit > 0
    ensures var key := KeyOf(ix, item.event);
            Indexes(if key == "" then store else store[key := LastN(Prune(Bucket(store, key) + [item], cutoff), limit)],
                    ix, log + [item], limit, cutoff)
  {
    hide OfKey, Prune, Represents, LastN;
    LaterCutoff(store, ix, log, limit, before, cutoff);
    var own := KeyOf(ix, item.event);
    var r := if own == "" then store else store[own := LastN(Prune(Bucket(store, own) + [item], cutoff), limit)];
    forall key | key != ""
      ensures Represents(Bucket(r, key), OfKey(log + [item], ix, key), limit, cutoff)
    {
      OfKeyAppend(log, item, ix, key);
      if key == own {
        AppendRepresents(Bucket(store, key), OfKey(log, ix, key), item, limit, before, cutoff);
      } else {
        assert OfKey(log, ix, key) + [] == OfKey(log, ix, key);
        assert Bucket(r, key) == Bucket(store, key);
      }
    }
  }

  lemma AppendKeepsOrder(log: seq<Item>, item: Item)
    requires InTimeOrder(log) && forall it :: it in log ==> it.ts <= item.ts && it.number < item.number
    ensures InTimeOrder(log + [item])
  {
    assert forall i :: 0 <= i < |log| ==> log[i] in log;
  }

  lemma BucketAnswersKey(store: Store, ix: Index, log: seq<Item>, key: string, limit: nat, before: real, cutoff: real)
    requires Indexes(store, ix, log, limit, before) && key != "" && InTimeOrder(log) && before <= cutoff
    ensures Prune(Bucket(store, key), cutoff) == LastN(Live(OfKey(log, ix, key), cutoff), limit)
  {
    hide OfKey, Prune, Live, LastN, Represents;
    OfKeyKeepsOrder(log, ix, key);
    BucketAnswers(Bucket(store, key), OfKey(log, ix, key), limit, before, cutoff);
  }

  /** Pruning one bucket in place. */
  lemma PrunedAt(store: Store, key: string, ix: Index, log: seq<Item>, limit: nat, cutoff: real)
    requires Indexes(store, ix, log, limit, cutoff) && key in store
    ensures Indexes(store[key := Prune(store[key], cutoff)], ix, log, limit, cutoff)
  {
    hide OfKey, Prune, Represents;
    PruneRepresents(store[key], OfKey(log, ix, key), limit, cutoff, cutoff);
  }

  lemma PrunePops(items: seq<Item>, cutoff: real)
    requires items != [] && items[0].ts < cutoff
    ensures Prune(items, cutoff) == Prune(items[1..], cutoff)
  {
    var n := ExpiredLead(items[1..], cutoff);
    assert items[1..][n..] == items[1 + n..];
  }
}
