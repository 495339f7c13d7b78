/**
 Aborting a session with everything below it (opencode_client.py, abort_session_tree): a
 depth-first walk that skips a session only while it is on the current
 path. */
module AbortTree {
  datatype Listing = Listed(children: seq<string>) | NoSession | ListingFailed

  datatype AbortReply = Aborted | AlreadyGone | AbortFailed(error: string)

  /** What the upstream answers; the number of calls made so far lets every call be answered differently. */
  datatype Upstream = Upstream(list: (string, nat) -> Listing, abort: (string, nat) -> AbortReply)

  /** The calls made. An abort remembers the children its own visit was given. */
  datatype Call = ListCall(id: string, listing: Listing)
                | AbortCall(id: string, children: seq<string>, reply: AbortReply)

  datatype Walk = Walk(log: seq<Call>, raised: bool)

  /** Every child ever listed for a session of `all` is in `all`: the reachable graph is finite. */
  ghost predicate Closed(w: Upstream, all: set<string>) {
    forall id, t: nat, c :: id in all && w.list(id, t).Listed? && c in w.list(id, t).children && c != "" ==> c in all
  }

  ghost function Visit(w: Upstream, all: set<string>, id: string, path: set<string>, log: seq<Call>): (r: Walk)
    requires Closed(w, all) && (id == "" || id in all)
    ensures log <= r.log
    decreases all - path, 0, 0
  {
    if id == "" || id in path then Walk(log, false)
    else
      var listing := w.list(id, |log|);
      var listed := log + [ListCall(id, listing)];
      match listing
      case NoSession => Walk(listed, false)
      case ListingFailed => Walk(listed, true)
      case Listed(children) =>
        var below := VisitAll(w, all, children, path + {id}, listed);
        if below.raised then below
        else Walk(below.log + [AbortCall(id, children, w.abort(id, |below.log|))], false)
  }

  ghost function VisitAll(w: Upstream, all: set<string>, ids: seq<string>, path: set<string>, log: seq<Call>): (r: Walk)
    requires Closed(w, all) && forall c :: c in ids && c != "" ==> c in all
    ensures log <= r.log
    decreases all - path, 1, |ids|
  {
    if ids == [] then Walk(log, false)
    else
      var first := Visit(w, all, ids[0], path, log);
      if first.raised then first else VisitAll(w, all, ids[1..], path, first.log)
  }

  /** Sessions that were aborted, found missing or failed to abort. */
  ghost function Settled(log: seq<Call>): (ids: set<string>) {
    set call | call in log && (call.AbortCall? || call.listing == NoSession) :: call.id
  }

  /** Every child listed in `log` from position `from` on is settled or on the path. */
  ghost predicate Covered(log: seq<Call>, from: nat, path: set<string>) {
    forall i, c :: from <= i < |log| && log[i].ListCall? && log[i].listing.Listed?
                   && c in log[i].listing.children && c != ""
                   ==> c in Settled(log) || c in path
  }

  lemma SettledGrows(log: seq<Call>, more: seq<Call>)
    requires log <= more
    ensures Settled(log) <= Settled(more)
  {
    assert forall call :: call in log ==> call in more;
  }

  lemma {:induction false} VisitCovers(w: Upstream, all: set<string>, id: string, path: set<string>, log: seq<Call>)
    requires Closed(w, all) && (id == "" || id in all)
    requires !Visit(w, all, id, path, log).raised
    ensures var r := Visit(w, all, id, path, log);
            Covered(r.log, |log|, path) && (id == "" || id in path || id in Settled(r.log))
    decreases all - path, 0, 0
  {
    if id != "" && id !in path {
      var r := Visit(w, all, id, path, log);
      var listing := w.list(id, |log|);
      var listed := log + [ListCall(id, listing)];
      assert listed[|log|] == ListCall(id, listing);
      if listing.Listed? {
        VisitAllCovers(w, all, listing.children, path + {id}, listed);
        var below := VisitAll(w, all, listing.children, path + {id}, listed);
        SettledGrows(below.log, r.log);
        assert r.log[|below.log|].AbortCall? && r.log[|below.log|].id == id;
        assert id in Settled(r.log);
      } else {
        assert r.log == listed && listing == NoSession;
        assert listed[|log|] in r.log;
      }
    }
  }

  lemma {:induction false} VisitAllCovers(w: Upstream, all: set<string>, ids: seq<string>, path: set<string>,
                                          log: seq<Call>)
    requires Closed(w, all) && forall c :: c in ids && c != "" ==> c in all
    requires !VisitAll(w, all, ids, path, log).raised
    ensures var r := VisitAll(w, all, ids, path, log);
            Covered(r.log, |log|, path) && forall c :: c in ids && c != "" ==> c in path || c in Settled(r.log)
    decreases all - path, 1, |ids|
  {
    if ids != [] {
      var first := Visit(w, all, ids[0], path, log);
      var r := VisitAll(w, all, ids[1..], path, first.log);
      VisitCovers(w, all, ids[0], path, log);
      VisitAllCovers(w, all, ids[1..], path, first.log);
      SettledGrows(first.log, r.log);
      assert forall i :: 0 <= i < |first.log| ==> r.log[i] == first.log[i];
    }
  }

  /** The walk raises exactly when a listing failed for another reason than a missing session. */
  lemma {:induction false} RaisedMeansListingFailed(w: Upstream, all: set<string>, id: string, path: set<string>,
                                                    log: seq<Call>)
    requires Closed(w, all) && (id == "" || id in all)
    ensures var r := Visit(w, all, id, path, log);
            r.raised <==> exists i :: |log| <= i < |r.log| && r.log[i] == ListCall(r.log[i].id, ListingFailed)
    decreases all - path, 0, 0
  {
    if id != "" && id !in path {
      var r := Visit(w, all, id, path, log);
      var listing := w.list(id, |log|);
      var listed := log + [ListCall(id, listing)];
      assert r.log[|log|] == ListCall(id, listing);
      if listing.Listed? {
        RaisedAllMeansListingFailed(w, all, listing.children, path + {id}, listed);
        var below := VisitAll(w, all, listing.children, path + {id}, listed);
        assert forall i :: 0 <= i < |below.log| ==> r.log[i] == below.log[i];
      }
    }
  }

  lemma {:induction false} RaisedAllMeansListingFailed(w: Upstream, all: set<string>, ids: seq<string>,
                                                       path: set<string>,
                                                       log: seq<Call>)
    requires Closed(w, all) && forall c :: c in ids && c != "" ==> c in all
    ensures var r := VisitAll(w, all, ids, path, log);
            r.raised <==> exists i :: |log| <= i < |r.log| && r.log[i] == ListCall(r.log[i].id, ListingFailed)
    decreases all - path, 1, |ids|
  {
    if ids != [] {
      var first := Visit(w, all, ids[0], path, log);
      RaisedMeansListingFailed(w, all, ids[0], path, log);
      if !first.raised {
        RaisedAllMeansListingFailed(w, all, ids[1..], path, first.log);
        var r := VisitAll(w, all, ids[1..], path, first.log);
        assert forall i :: 0 <= i < |first.log| ==> r.log[i] == first.log[i];
      }
    }
  }

  // ------------------------------------------------------------------ coverage

  ghost predicate ListedEdge(log: seq<Call>, parent: string, child: string) {
    exists call :: call in log && call.ListCall? && call.id == parent && call.listing.Listed?
                   && child in call.listing.children && child != ""
  }

  ghost predicate Chain(log: seq<Call>, ids: seq<string>) {
    forall i :: 0 <= i < |ids| - 1 ==> ListedEdge(log, ids[i], ids[i + 1])
  }

  /** Every session reachable through sessions whose children were listed ends up aborted, missing or in the errors. */
  lemma {:induction false} ReachableIsSettled(w: Upstream, all: set<string>, root: string, ids: seq<string>)
    requires Closed(w, all) && root in all && root != "" && !Visit(w, all, root, {}, []).raised
    requires ids != [] && ids[0] == root && Chain(Visit(w, all, root, {}, []).log, ids)
    ensures ids[|ids| - 1] in Settled(Visit(w, all, root, {}, []).log)
    decreases |ids|
  {
    hide Visit, Closed;
    VisitCovers(w, all, root, {}, []);
    var log := Visit(w, all, root, {}, []).log;
    if |ids| > 1 {
      var last := |ids| - 1;
      assert ListedEdge(log, ids[last - 1], ids[last]);
      var call :| call in log && call.ListCall? && call.id == ids[last - 1] && call.listing.Listed?
                  && ids[last] in call.listing.children && ids[last] != "";
      var i :| 0 <= i < |log| && log[i] == call;
    }
  }

  /** A session graph that does not change during the walk. */
  ghost predicate Static(w: Upstream) {
    forall id, t: nat, u: nat :: w.list(id, t) == w.list(id, u)
  }

  ghost predicate GraphEdge(w: Upstream, parent: string, child: string) {
    w.list(parent, 0).Listed? && child in w.list(parent, 0).children && child != ""
  }

  ghost predicate GraphPath(w: Upstream, ids: seq<string>) {
    forall i :: 0 <= i < |ids| - 1 ==> GraphEdge(w, ids[i], ids[i + 1])
  }

  /** Listings are what the upstream answered, and an aborted session was listed first. */
  ghost predicate Honest(w: Upstream, log: seq<Call>) {
    && (forall i :: 0 <= i < |log| && log[i].ListCall? ==> log[i].listing == w.list(log[i].id, i))
    && (forall i :: 0 <= i < |log| && log[i].AbortCall? ==>
          && log[i].reply == w.abort(log[i].id, i)
          && exists j :: 0 <= j < i && log[j] == ListCall(log[i].id, Listed(log[i].children)))
  }

  lemma {:induction false} VisitIsHonest(w: Upstream, all: set<string>, id: string, path: set<string>, log: seq<Call>)
    requires Closed(w, all) && (id == "" || id in all) && Honest(w, log)
    ensures Honest(w, Visit(w, all, id, path, log).log)
    decreases all - path, 0, 0
  {
    if id != "" && id !in path {
      var listing := w.list(id, |log|);
      var listed := log + [ListCall(id, listing)];
      HonestAppend(w, log, ListCall(id, listing));
      if listing.Listed? {
        VisitAllIsHonest(w, all, listing.children, path + {id}, listed);
        var below := VisitAll(w, all, listing.children, path + {id}, listed);
        assert below.log[|log|] == listed[|log|];
        HonestAppend(w, below.log, AbortCall(id, listing.children, w.abort(id, |below.log|)));
      }
    }
  }

  lemma HonestAppend(w: Upstream, log: seq<Call>, call: Call)
    requires Honest(w, log)
    requires call.ListCall? ==> call.listing == w.list(call.id, |log|)
    requires call.AbortCall? ==> call.reply == w.abort(call.id, |log|)
                                 && exists j :: 0 <= j < |log| && log[j] == ListCall(call.id, Listed(call.children))
    ensures Honest(w, log + [call])
  {
    var more := log + [call];
    forall i | 0 <= i < |more| && more[i].AbortCall?
      ensures exists j :: 0 <= j < i && more[j] == ListCall(more[i].id, Listed(more[i].children))
    {
      var c := more[i];
      var j :| 0 <= j < i && log[j] == ListCall(c.id, Listed(c.children));
      assert more[j] == log[j];
    }
  }

  lemma {:induction false} VisitAllIsHonest(w: Upstream, all: set<string>, ids: seq<string>, path: set<string>,
                                            log: seq<Call>)
    requires Closed(w, all) && (forall c :: c in ids && c != "" ==> c in all) && Honest(w, log)
    ensures Honest(w, VisitAll(w, all, ids, path, log).log)
    decreases all - path, 1, |ids|
  {
    if ids != [] {
      VisitIsHonest(w, all, ids[0], path, log);
      VisitAllIsHonest(w, all, ids[1..], path, Visit(w, all, ids[0], path, log).log);
    }
  }

  lemma StaticChildIsSettled(w: Upstream, log: seq<Call>, parent: string, child: string)
    requires Static(w) && Honest(w, log) && Covered(log, 0, {}) && parent in Settled(log) && GraphEdge(w, parent, child)
    ensures child in Settled(log)
  {
    assert forall t: nat :: w.list(parent, t) == w.list(parent, 0);
    var call :| call in log && (call.AbortCall? || call.listing == NoSession) && call.id == parent;
    var i :| 0 <= i < |log| && log[i] == call;
    if call.AbortCall? {
      var j :| 0 <= j < i && log[j] == ListCall(parent, Listed(call.children));
    }
  }

  /** On a graph that stays as it is, with any cycles and shared children: everything reachable is settled. */
  lemma {:induction false} StaticReachableIsSettled(w: Upstream, all: set<string>, root: string, ids: seq<string>)
    requires Closed(w, all) && Static(w) && root in all && root != "" && !Visit(w, all, root, {}, []).raised
    requires ids != [] && ids[0] == root && GraphPath(w, ids)
    ensures ids[|ids| - 1] in Settled(Visit(w, all, root, {}, []).log)
    decreases |ids|
  {
    hide Visit, Closed, Static, Honest, Covered, Settled, GraphEdge;
    VisitCovers(w, all, root, {}, []);
    var last := |ids| - 1;
    if last > 0 {
      var before := ids[..last];
      assert before[|before| - 1] == ids[last - 1] && GraphEdge(w, ids[last - 1], ids[last]);
      StaticReachableIsSettled(w, all, root, before);
      HonestWalk(w, all, root);
      StaticChildIsSettled(w, Visit(w, all, root, {}, []).log, ids[last - 1], ids[last]);
    }
  }

  lemma HonestWalk(w: Upstream, all: set<string>, root: string)
    requires Closed(w, all) && (root == "" || root in all)
    ensures Honest(w, Visit(w, all, root, {}, []).log)
  {
    VisitIsHonest(w, all, root, {}, []);
  }

  // --------------------------------------------------------------------- order

  /** The sessions form no cycle: every listed child ranks below its parent. */
  ghost predicate Ranked(w: Upstream, rank: string -> nat) {
    forall id, t: nat, c :: w.list(id, t).Listed? && c in w.list(id, t).children && c != "" ==> rank(c) < rank(id)
  }

  /** From position `from` on, a session is aborted only after each child its visit was given is settled. */
  ghost predicate ChildrenFirst(log: seq<Call>, from: nat) {
    forall i, c :: from <= i < |log| && log[i].AbortCall? && c in log[i].children && c != "" ==> c in Settled(log[..i])
  }

  lemma {:induction false} VisitAbortsChildrenFirst(w: Upstream, all: set<string>, rank: string -> nat, id: string,
                                                    path: set<string>, log: seq<Call>)
    requires Closed(w, all) && (id == "" || id in all) && Ranked(w, rank)
    requires id != "" ==> forall p :: p in path ==> rank(id) < rank(p)
    ensures ChildrenFirst(Visit(w, all, id, path, log).log, |log|)
    decreases all - path, 0, 0
  {
    if id != "" && id !in path && w.list(id, |log|).Listed? {
      var children := w.list(id, |log|).children;
      var listed := log + [ListCall(id, w.list(id, |log|))];
      VisitAllAbortsChildrenFirst(w, all, rank, children, path + {id}, listed);
      var below := VisitAll(w, all, children, path + {id}, listed);
      if !below.raised {
        VisitAllCovers(w, all, children, path + {id}, listed);
        ChildrenFirstAppend(below.log, |log|, AbortCall(id, children, w.abort(id, |below.log|)));
      }
    }
  }

  lemma ChildrenFirstAppend(log: seq<Call>, from: nat, call: Call)
    requires from < |log| && log[from].ListCall? && ChildrenFirst(log, from + 1)
    requires call.AbortCall? && forall c :: c in call.children && c != "" ==> c in Settled(log)
    ensures ChildrenFirst(log + [call], from)
  {
    assert (log + [call])[..|log|] == log;
    assert forall i :: 0 <= i <= |log| ==> (log + [call])[..i] == log[..i];
  }

  lemma {:induction false} VisitAllAbortsChildrenFirst(w: Upstream, all: set<string>, rank: string -> nat,
                                                       ids: seq<string>,
                                                       path: set<string>, log: seq<Call>)
    requires Closed(w, all) && (forall c :: c in ids && c != "" ==> c in all) && Ranked(w, rank)
    requires forall c, p :: c in ids && c != "" && p in path ==> rank(c) < rank(p)
    ensures ChildrenFirst(VisitAll(w, all, ids, path, log).log, |log|)
    decreases all - path, 1, |ids|
  {
    if ids != [] {
      var first := Visit(w, all, ids[0], path, log);
      VisitAbortsChildrenFirst(w, all, rank, ids[0], path, log);
      if !first.raised {
        VisitAllAbortsChildrenFirst(w, all, rank, ids[1..], path, first.log);
        var r := VisitAll(w, all, ids[1..], path, first.log).log;
        assert forall i :: 0 <= i <= |first.log| ==> r[..i] == first.log[..i];
        assert forall i :: 0 <= i < |first.log| ==> r[i] == first.log[i];
      }
    }
  }

  // ------------------------------------------------------------ calls per session

  /** How often a session's children were listed more than the session was aborted. */
  ghost function Surplus(log: seq<Call>, id: string): (n: int) {
    if log == [] then 0
    else
      var last := log[|log| - 1];
      Surplus(log[..|log| - 1], id)
      + if last.id != id then 0 else if last.AbortCall? then -1 else if last.listing.Listed? then 1 else 0
  }

  lemma SurplusAppend(log: seq<Call>, call: Call, id: string)
    ensures Surplus(log + [call], id)
            == Surplus(log, id)
               + if call.id != id then 0 else if call.AbortCall? then -1 else if call.listing.Listed? then 1 else 0
  {
    assert (log + [call])[..|log|] == log;
  }

  /** A session is aborted exactly once for every time its children are listed, and never more often. */
  lemma {:induction false} VisitAbortsOnce(w: Upstream, all: set<string>, id: string, path: set<string>,
                                           log: seq<Call>, x: string)
    requires Closed(w, all) && (id == "" || id in all)
    ensures var r := Visit(w, all, id, path, log);
            if r.raised then Surplus(r.log, x) >= Surplus(log, x) else Surplus(r.log, x) == Surplus(log, x)
    decreases all - path, 0, 0
  {
    hide Surplus;
    if id != "" && id !in path {
      var listing := w.list(id, |log|);
      var listed := log + [ListCall(id, listing)];
      SurplusAppend(log, ListCall(id, listing), x);
      if listing.Listed? {
        VisitAllAbortsOnce(w, all, listing.children, path + {id}, listed, x);
        var below := VisitAll(w, all, listing.children, path + {id}, listed);
        SurplusAppend(below.log, AbortCall(id, listing.children, w.abort(id, |below.log|)), x);
      }
    }
  }

  lemma {:induction false} VisitAllAbortsOnce(w: Upstream, all: set<string>, ids: seq<string>, path: set<string>,
                                              log: seq<Call>, x: string)
    requires Closed(w, all) && forall c :: c in ids && c != "" ==> c in all
    ensures var r := VisitAll(w, all, ids, path, log);
            if r.raised then Surplus(r.log, x) >= Surplus(log, x) else Surplus(r.log, x) == Surplus(log, x)
    decreases all - path, 1, |ids|
  {
    hide Surplus;
    if ids != [] {
      VisitAbortsOnce(w, all, ids[0], path, log, x);
      var first := Visit(w, all, ids[0], path, log);
      if !first.raised {
        VisitAllAbortsOnce(w, all, ids[1..], path, first.log, x);
      }
    }
  }

  // ------------------------------------------------------------ the walk itself

  function AbortedIds(log: seq<Call>): (ids: seq<string>) {
    if log == [] then []
    else
      var last := log[|log| - 1];
      AbortedIds(log[..|log| - 1]) + if last.AbortCall? && last.reply == Aborted then [last.id] else []
  }

  function MissingIds(log: seq<Call>): (ids: seq<string>) {
    if log == [] then []
    else
      var last := log[|log| - 1];
      MissingIds(log[..|log| - 1])
      + if (last.AbortCall? && last.reply == AlreadyGone) || (last.ListCall? && last.listing == NoSession)
        then [last.id] else []
  }

  function Errors(log: seq<Call>): (errors: seq<(string, string)>) {
    if log == [] then []
    else
      var last := log[|log| - 1];
      Errors(log[..|log| - 1])
      + if last.AbortCall? && last.reply.AbortFailed? then [(last.id, last.reply.error)] else []
  }

  lemma ResultsAppend(log: seq<Call>, call: Call)
    ensures AbortedIds(log + [call])
            == AbortedIds(log) + if call.AbortCall? && call.reply == Aborted then [call.id] else []
    ensures MissingIds(log + [call]) == MissingIds(log)
            + if (call.AbortCall? && call.reply == AlreadyGone) || (call.ListCall? && call.listing == NoSession)
              then [call.id] else []
    ensures Errors(log + [call]) == Errors(log)
            + if call.AbortCall? && call.reply.AbortFailed? then [(call.id, call.reply.error)] else []
  {
    assert (log + [call])[..|log|] == log;
  }

  /** The three result lists together name exactly the settled sessions. */
  lemma {:induction false} ResultsNameSettled(log: seq<Call>, id: string)
    ensures id in Settled(log) <==>
            id in AbortedIds(log) || id in MissingIds(log) || exists e :: e in Errors(log) && e.0 == id
  {
    if log != [] {
      var last := |log| - 1;
      ResultsNameSettled(log[..last], id);
      assert log == log[..last] + [log[last]];
      var settles := log[last].AbortCall? || log[last].listing == NoSession;
      assert Settled(log) == Settled(log[..last]) + if settles then {log[last].id} else {};
      if e :| e in Errors(log[..last]) && e.0 == id {
        assert e in Errors(log);
      }
      if log[last].AbortCall? && log[last].reply.AbortFailed? && log[last].id == id {
        assert (id, log[last].reply.error) in Errors(log);
      }
    }
  }

  class TreeAborter {
    const upstream: Upstream
    var log: seq<Call>
    var aborted: seq<string>
    var missing: seq<string>
    var errors: seq<(string, string)>
    var visiting: set<string>

    /** The lists hold what the calls so far brought. */
    ghost predicate Valid()
      reads this
    {
      aborted == AbortedIds(log) && missing == MissingIds(log) && errors == Errors(log)
    }

    constructor (upstream: Upstream)
      ensures Valid() && log == [] && visiting == {} && this.upstream == upstream
    {
      this.upstream := upstream;
      log, aborted, missing, errors, visiting := [], [], [], [], {};
    }

    method List(id: string) returns (listing: Listing)
      requires Valid()
      modifies this`log
      ensures listing == upstream.list(id, |old(log)|) && log == old(log) + [ListCall(id, listing)]
      ensures aborted == AbortedIds(log) && errors == Errors(log)
      ensures listing == NoSession ==> MissingIds(log) == missing + [id]
      ensures listing != NoSession ==> Valid()
    {
      listing := upstream.list(id, |log|);
      ResultsAppend(log, ListCall(id, listing));
      log := log + [ListCall(id, listing)];
    }

    method Abort(id: string, children: seq<string>)
      requires Valid()
      modifies this`log, this`aborted, this`missing, this`errors
      ensures Valid() && log == old(log) + [AbortCall(id, children, upstream.abort(id, |old(log)|))]
    {
      var reply := upstream.abort(id, |log|);
      ResultsAppend(log, AbortCall(id, children, reply));
      log := log + [AbortCall(id, children, reply)];
      match reply
      case Aborted => aborted := aborted + [id];
      case AlreadyGone => missing := missing + [id];
      case AbortFailed(error) => errors := errors + [(id, error)];
    }

    method AbortOne(id: string, ghost all: set<string>) returns (raised: bool)
      requires Valid() && Closed(upstream, all) && (id == "" || id in all)
      modifies this
      ensures Valid() && visiting == old(visiting)
      ensures Walk(log, raised) == Visit(upstream, all, id, old(visiting), old(log))
      decreases all - visiting
    {
      if id == "" || id in visiting {
        return false;
      }
      visiting := visiting + {id};
      var listing := List(id);
      match listing
      case NoSession =>
        missing := missing + [id];
        visiting := visiting - {id};
        return false;
      case ListingFailed =>
        visiting := visiting - {id};
        return true;
      case Listed(children) =>
        ghost var listed := log;
        for i := 0 to |children|
          invariant Valid() && visiting == old(visiting) + {id}
          invariant VisitAll(upstream, all, children[i..], old(visiting) + {id}, log)
                    == VisitAll(upstream, all, children, old(visiting) + {id}, listed)
        {
          assert children[i..][0] == children[i] && children[i..][1..] == children[i + 1..];
          var failed := AbortOne(children[i], all);
          if failed {
            visiting := visiting - {id};
            return true;
          }
        }
        Abort(id, children);
        visiting := visiting - {id};
        return false;
    }

    /** Abort a session and everything below it. */
    method AbortSessionTree(root: string, ghost all: set<string>) returns (raised: bool)
      requires Valid() && log == [] && visiting == {} && Closed(upstream, all) && (root == "" || root in all)
      modifies this
      ensures Walk(log, raised) == Visit(upstream, all, root, {}, [])
      ensures !raised && root != "" ==> forall ids :: ids != [] && ids[0] == root && Chain(log, ids) ==>
                var id := ids[|ids| - 1]; id in aborted || id in missing || exists e :: e in errors && e.0 == id
      ensures !raised ==> forall id :: Surplus(log, id) == 0
    {
      raised := AbortOne(root, all);
      forall id ensures !raised ==> Surplus(log, id) == 0 {
        VisitAbortsOnce(upstream, all, root, {}, [], id);
      }
      if !raised && root != "" {
        forall ids | ids != [] && ids[0] == root && Chain(log, ids)
          ensures var id := ids[|ids| - 1]; id in aborted || id in missing || exists e :: e in errors && e.0 == id
        {
          ReachableIsSettled(upstream, all, root, ids);
          ResultsNameSettled(log, ids[|ids| - 1]);
        }
      }
    }
  }
}
