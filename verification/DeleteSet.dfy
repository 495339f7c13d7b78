/**
 Deleting several workspace paths at once (file_service.py): the requested paths are reduced
 to those without a requested ancestor, and what is left is removed in
 order. */
module DeleteSet {
  import opened Seqs

  /** A resolved path below the workspace root; the root itself is the empty path. */
  type Path = seq<string>

  datatype Kind = File | Dir | Special

  type Tree = map<Path, Kind>

  /** Whether `child` lies below `parent`. */
  predicate IsDescendant(child: Path, parent: Path) {
    |parent| < |child| && parent <= child
  }

  /** A path lies below another one when it is that path with more behind it. */
  lemma DescendantIs(child: Path, parent: Path)
    ensures IsDescendant(child, parent) <==> exists rest: Path :: rest != [] && child == parent + rest
  {
    if IsDescendant(child, parent) {
      assert child == parent + child[|parent|..];
    }
  }

  /** Everything that exists lies in directories that exist. */
  ghost predicate WellFormed(t: Tree) {
    && [] in t && t[[]] == Dir
    && (forall p, q :: p in t && IsDescendant(p, q) ==> q in t && t[q] == Dir)
  }

  lemma DescendantTransitive(a: Path, b: Path, c: Path)
    requires IsDescendant(a, b) && IsDescendant(b, c)
    ensures IsDescendant(a, c)
  {
    assert a[..|c|] == b[..|c|];
  }

  /** `p` lies below the directory `q`. */
  predicate LiesIn(p: Path, q: Path, t: Tree) {
    q in t && t[q] == Dir && IsDescendant(p, q)
  }

  /** One requested path lies below another one that is a directory. */
  ghost predicate Shadowed(p: Path, requested: seq<Path>, t: Tree) {
    exists q :: q in requested && LiesIn(p, q, t)
  }

  /** The requested paths that lie below no other requested directory, in the order of the request. */
  ghost function Outermost(targets: seq<Path>, requested: seq<Path>, t: Tree): (r: seq<Path>)
    ensures forall p :: p in r <==> p in targets && !Shadowed(p, requested, t)
  {
    if targets == [] then []
    else
      var last := targets[|targets| - 1];
      Outermost(targets[..|targets| - 1], requested, t) + if Shadowed(last, requested, t) then [] else [last]
  }

  /** Whatever is shadowed lies below an outermost directory. */
  lemma {:induction false} OutermostCovers(p: Path, requested: seq<Path>, t: Tree)
    requires Shadowed(p, requested, t)
    ensures exists q :: q in Outermost(requested, requested, t) && LiesIn(p, q, t)
    decreases |p|
  {
    var q :| q in requested && LiesIn(p, q, t);
    if Shadowed(q, requested, t) {
      OutermostCovers(q, requested, t);
      var r :| r in Outermost(requested, requested, t) && LiesIn(q, r, t);
      DescendantTransitive(p, q, r);
    }
  }

  /** The elements of `paths` that do not lie below `parent`. */
  function NotBelow(paths: seq<Path>, parent: Path): (r: seq<Path>)
    ensures forall p :: p in r <==> p in paths && !IsDescendant(p, parent)
  {
    if paths == [] then []
    else
      var last := paths[|paths| - 1];
      NotBelow(paths[..|paths| - 1], parent) + if IsDescendant(last, parent) then [] else [last]
  }

  lemma NotBelowSnoc(paths: seq<Path>, last: Path, parent: Path)
    ensures NotBelow(paths + [last], parent)
            == NotBelow(paths, parent) + if IsDescendant(last, parent) then [] else [last]
  {
    assert (paths + [last])[..|paths|] == paths;
  }

  lemma ShadowedWith(x: Path, requested: seq<Path>, p: Path, t: Tree)
    ensures Shadowed(x, requested + [p], t) <==> Shadowed(x, requested, t) || LiesIn(x, p, t)
  {
    if q :| q in requested && LiesIn(x, q, t) {
      assert q in requested + [p];
    }
    assert p in requested + [p];
  }

  /** Adding a request shadows exactly what lies below it. */
  lemma {:induction false} OutermostWith(targets: seq<Path>, requested: seq<Path>, p: Path, t: Tree)
    requires p in t
    ensures Outermost(targets, requested + [p], t)
            == if t[p] == Dir then NotBelow(Outermost(targets, requested, t), p) else Outermost(targets, requested, t)
  {
    if targets == [] {
      NotBelowNothing(p);
    } else {
      var front, last := targets[..|targets| - 1], targets[|targets| - 1];
      assert targets == front + [last];
      OutermostWith(front, requested, p, t);
      OutermostWithOne(front, last, requested, p, t);
    }
  }

  lemma OutermostSnoc(targets: seq<Path>, last: Path, requested: seq<Path>, t: Tree)
    ensures Outermost(targets + [last], requested, t)
            == if Shadowed(last, requested, t) then Outermost(targets, requested, t)
               else Outermost(targets, requested, t) + [last]
  {
    assert (targets + [last])[..|targets|] == targets;
  }

  lemma OutermostWithOne(front: seq<Path>, last: Path, requested: seq<Path>, p: Path, t: Tree)
    requires p in t
    requires Outermost(front, requested + [p], t)
             == if t[p] == Dir then NotBelow(Outermost(front, requested, t), p) else Outermost(front, requested, t)
    ensures Outermost(front + [last], requested + [p], t)
            == if t[p] == Dir then NotBelow(Outermost(front + [last], requested, t), p)
               else Outermost(front + [last], requested, t)
  {
    hide Shadowed, IsDescendant, NotBelow, LiesIn, Outermost;
    OutermostSnoc(front, last, requested + [p], t);
    OutermostSnoc(front, last, requested, t);
    ShadowedWith(last, requested, p, t);
    LiesInDir(last, p, t);
    NotBelowSnoc(Outermost(front, requested, t), last, p);
    assert NotBelow(Outermost(front, requested, t), p) + [] == NotBelow(Outermost(front, requested, t), p);
  }

  lemma LiesInDir(x: Path, p: Path, t: Tree)
    requires p in t
    ensures LiesIn(x, p, t) <==> t[p] == Dir && IsDescendant(x, p)
  {
  }

  lemma NotBelowNothing(parent: Path)
    ensures NotBelow([], parent) == []
  {
  }

  /** A request below a requested directory adds nothing. */
  lemma {:induction false} OutermostWithShadowed(targets: seq<Path>, requested: seq<Path>, p: Path, t: Tree)
    requires Shadowed(p, requested, t)
    ensures Outermost(targets, requested + [p], t) == Outermost(targets, requested, t)
  {
    if targets != [] {
      var n := |targets| - 1;
      OutermostWithShadowed(targets[..n], requested, p, t);
      ShadowedWith(targets[n], requested, p, t);
      if LiesIn(targets[n], p, t) {
        var q :| q in requested && LiesIn(p, q, t);
        DescendantTransitive(targets[n], p, q);
      }
    }
  }

  /** Whether one of the kept directories contains the target. */
  method AnyContains(kept: seq<Path>, target: Path, t: Tree) returns (found: bool)
    ensures found <==> exists q :: q in kept && LiesIn(target, q, t)
  {
    for j := 0 to |kept|
      invariant forall k :: 0 <= k < j ==> !LiesIn(target, kept[k], t)
    {
      if LiesIn(target, kept[j], t) {
        return true;
      }
    }
    return false;
  }

  /** Drop targets that lie below another target, keeping the order of what stays. */
  method CollapseDeleteTargets(targets: seq<Path>, t: Tree) returns (collapsed: seq<Path>)
    requires forall p :: p in targets ==> p in t
    ensures collapsed == Outermost(targets, targets, t)
  {
    hide LiesIn, NotBelow, Outermost;
    collapsed := [];
    OutermostOfNothing(t);
    for i := 0 to |targets|
      invariant collapsed == Outermost(targets[..i], targets[..i], t)
    {
      var target := targets[i];
      ghost var seen := targets[..i];
      assert targets[..i + 1] == seen + [target];
      var covered := AnyContains(collapsed, target, t);
      CollapseStep(seen, target, t);
      if covered {
        continue;
      }
      if t[target] == Dir {
        collapsed := NotBelow(collapsed, target);
      }
      collapsed := collapsed + [target];
    }
    assert targets[..|targets|] == targets;
  }

  lemma OutermostOfNothing(t: Tree)
    ensures Outermost([], [], t) == []
  {
  }

  /** What one more target makes of the outermost ones. */
  lemma CollapseStep(seen: seq<Path>, target: Path, t: Tree)
    requires target in t
    ensures var kept := Outermost(seen, seen, t); var more := seen + [target];
            Outermost(more, more, t)
            == if exists q :: q in kept && LiesIn(target, q, t) then kept
               else (if t[target] == Dir then NotBelow(kept, target) else kept) + [target]
  {
    hide NotBelow, IsDescendant;
    var more := seen + [target];
    assert more[..|more| - 1] == seen;
    ShadowedWith(target, seen, target, t);
    NotBelowItself(target, t);
    if Shadowed(target, seen, t) {
      OutermostCovers(target, seen, t);
      OutermostWithShadowed(seen, seen, target, t);
    } else {
      OutermostWith(seen, seen, target, t);
    }
  }

  lemma NotBelowItself(p: Path, t: Tree)
    ensures !LiesIn(p, p, t)
  {
  }

  // ---------------------------------------------------------------- deletion

  /** The tree without the subtrees of the requested files and directories. */
  ghost function Without(t: Tree, requested: seq<Path>): (r: Tree) {
    map q | q in t && !Covers(requested, q, t) :: t[q]
  }

  /** Some requested file or directory is `q` or has `q` below it. */
  ghost predicate Covers(requested: seq<Path>, q: Path, t: Tree) {
    exists p :: p in requested && p in t && t[p] != Special && p <= q
  }

  /** The tree without the requested paths and everything below them. */
  ghost function Minus(t: Tree, requested: seq<Path>): (r: Tree) {
    map q | q in t && !(exists p :: p in requested && p <= q) :: t[q]
  }

  /** No kept target lies below another one. */
  ghost predicate Antichain(paths: seq<Path>) {
    forall p, q :: p in paths && q in paths ==> !IsDescendant(p, q)
  }

  lemma OutermostIsAntichain(requested: seq<Path>, t: Tree)
    requires WellFormed(t) && forall p :: p in requested ==> p in t
    ensures Antichain(Outermost(requested, requested, t))
    ensures forall p :: p in requested ==>
              exists q :: q in Outermost(requested, requested, t) && (q == p || LiesIn(p, q, t))
  {
    var kept := Outermost(requested, requested, t);
    forall p, q | p in kept && q in kept
      ensures !IsDescendant(p, q)
    {
      assert LiesIn(p, q, t) ==> Shadowed(p, requested, t);
    }
    forall p | p in requested
      ensures exists q :: q in kept && (q == p || LiesIn(p, q, t))
    {
      if Shadowed(p, requested, t) {
        OutermostCovers(p, requested, t);
      }
    }
  }

  /** Removing the outermost targets removes what removing every request would. */
  lemma OutermostRemovesAll(requested: seq<Path>, t: Tree)
    requires WellFormed(t) && forall p :: p in requested ==> p in t
    ensures Without(t, Outermost(requested, requested, t)) == Without(t, requested)
  {
    var kept := Outermost(requested, requested, t);
    forall q | q in t
      ensures Covers(kept, q, t) <==> Covers(requested, q, t)
    {
      if p :| p in requested && p in t && t[p] != Special && p <= q {
        if Shadowed(p, requested, t) {
          OutermostCovers(p, requested, t);
          var r :| r in kept && LiesIn(p, r, t);
          assert q[..|r|] == p[..|r|];
          assert r <= q;
        } else {
          assert p in kept;
        }
      }
    }
  }

  /** Every request and everything below it is gone afterwards exactly when each requested path that is
      neither a file nor a directory lies below a requested directory. */
  lemma AllRequestsGoneExactly(requested: seq<Path>, t: Tree)
    requires WellFormed(t) && forall p :: p in requested ==> p in t
    ensures Without(t, requested) == Minus(t, requested)
            <==> forall p :: p in requested && t[p] == Special ==> Shadowed(p, requested, t)
  {
    if forall p :: p in requested && t[p] == Special ==> Shadowed(p, requested, t) {
      forall q | q in t && exists p :: p in requested && p <= q
        ensures Covers(requested, q, t)
      {
        var p :| p in requested && p <= q;
        if t[p] == Special {
          var r :| r in requested && LiesIn(p, r, t);
          assert q[..|r|] == p[..|r|];
          assert r <= q;
        }
      }
    } else {
      var p :| p in requested && t[p] == Special && !Shadowed(p, requested, t);
      forall r | r in requested && t[r] != Special
        ensures !(r <= p)
      {
        assert IsDescendant(p, r) ==> LiesIn(p, r, t);
        assert r <= p && |r| == |p| ==> r == p;
      }
      assert !Covers(requested, p, t);
      assert p <= p;
      assert p in Without(t, requested) && p !in Minus(t, requested);
    }
  }

  lemma WithoutKeepsShape(t: Tree, requested: seq<Path>)
    requires WellFormed(t) && [] !in requested
    ensures WellFormed(Without(t, requested))
  {
    var r := Without(t, requested);
    forall p, q | p in r && IsDescendant(p, q)
      ensures q in r && r[q] == Dir
    {
      if Covers(requested, q, t) {
        CoversBelow(requested, q, p, t);
      }
    }
    forall x | x in requested
      ensures !(x <= [])
    {
      assert |x| > 0;
    }
  }

  lemma CoversBelow(requested: seq<Path>, q: Path, p: Path, t: Tree)
    requires IsDescendant(p, q) && Covers(requested, q, t)
    ensures Covers(requested, p, t)
  {
    var x :| x in requested && x in t && t[x] != Special && x <= q;
    assert p[..|x|] == q[..|x|];
    assert x <= p;
  }

  /** Removing one more target. */
  lemma WithoutOneMore(t: Tree, gone: seq<Path>, p: Path)
    requires p in t
    ensures Without(t, gone + [p]) == if t[p] == Special then Without(t, gone)
                                      else map q | q in Without(t, gone) && !(p <= q) :: Without(t, gone)[q]
  {
    forall q | q in t
      ensures Covers(gone + [p], q, t) <==> Covers(gone, q, t) || (t[p] != Special && p <= q)
    {
      if x :| x in gone && x in t && t[x] != Special && x <= q {
        assert x in gone + [p];
      }
      assert p in gone + [p];
    }
  }

  datatype Request = Outside | Resolved(path: Path)

  datatype Result = NoPaths | Forbidden | NotFound | DirectoryNotEmpty(done: seq<Path>) | Deleted(done: seq<Path>)

  predicate Acceptable(r: Request, t: Tree) {
    r.Resolved? && r.path != [] && r.path in t
  }

  /** The requested paths, each where it is first named. */
  function Targets(requests: seq<Request>): (r: seq<Path>) {
    if requests == [] then []
    else
      var front, last := Targets(requests[..|requests| - 1]), requests[|requests| - 1];
      if last.Resolved? && last.path !in front then front + [last.path] else front
  }

  lemma {:induction false} TargetsFit(requests: seq<Request>)
    ensures NoDup(Targets(requests)) && forall p :: p in Targets(requests) <==> Resolved(p) in requests
  {
    if requests != [] {
      var n := |requests| - 1;
      TargetsFit(requests[..n]);
      assert requests == requests[..n] + [requests[n]];
    }
  }

  lemma TargetsSnoc(requests: seq<Request>, i: nat)
    requires i < |requests|
    ensures Targets(requests[..i + 1])
            == if requests[i].Resolved? && requests[i].path !in Targets(requests[..i])
               then Targets(requests[..i]) + [requests[i].path] else Targets(requests[..i])
  {
    assert requests[..i + 1][..i] == requests[..i];
  }

  /** The first request that cannot be met decides the error. */
  function FirstProblem(requests: seq<Request>, t: Tree): (r: Option<Result>)
    ensures r.Some? ==> r.value in {Forbidden, NotFound}
  {
    if requests == [] then None
    else if requests[0].Outside? || requests[0].path == [] then Some(Forbidden)
    else if requests[0].path !in t then Some(NotFound)
    else FirstProblem(requests[1..], t)
  }

  lemma {:induction false} FirstProblemFits(requests: seq<Request>, t: Tree)
    ensures FirstProblem(requests, t).None? <==> forall i :: 0 <= i < |requests| ==> Acceptable(requests[i], t)
  {
    if requests != [] {
      FirstProblemFits(requests[1..], t);
      assert forall i :: 0 < i < |requests| ==> requests[i] == requests[1..][i - 1];
    }
  }

  /** A directory with something below it, which a non-recursive deletion refuses. */
  ghost predicate Busy(p: Path, t: Tree) {
    p in t && t[p] == Dir && exists q :: q in t && IsDescendant(q, p)
  }

  /** How many of the kept targets go: all of them, or without `recursive` those before the first busy directory. */
  ghost function Removed(kept: seq<Path>, t: Tree, recursive: bool): (n: nat)
    ensures n <= |kept|
  {
    if kept == [] || (!recursive && Busy(kept[0], t)) then 0 else 1 + Removed(kept[1..], t, recursive)
  }

  /** The deletion stops exactly at the first busy directory, if it may stop at all. */
  lemma {:induction false} RemovedFits(kept: seq<Path>, t: Tree, recursive: bool)
    ensures var n := Removed(kept, t, recursive);
            && (n == |kept| <==> recursive || forall i :: 0 <= i < |kept| ==> !Busy(kept[i], t))
            && (forall i :: 0 <= i < n ==> recursive || !Busy(kept[i], t))
            && (n < |kept| ==> !recursive && Busy(kept[n], t))
  {
    hide Busy;
    if kept != [] && (recursive || !Busy(kept[0], t)) {
      RemovedFits(kept[1..], t, recursive);
      assert forall i :: 0 < i < |kept| ==> kept[i] == kept[1..][i - 1];
    }
  }

  lemma NotCovered(t: Tree, kept: seq<Path>, i: nat, q: Path)
    requires i < |kept| && Antichain(kept) && NoDup(kept) && kept[i] <= q
    ensures !Covers(kept[..i], q, t)
  {
    forall p | p in kept[..i] ensures !(p <= q) {
      var j :| 0 <= j < i && kept[j] == p;
      assert kept[j] in kept && kept[i] in kept && p != kept[i];
      if p <= q {
        ComparableBelow(p, kept[i], q);
      }
    }
  }

  /** When its turn comes, a kept directory is as busy as it was at the beginning. */
  lemma BusyStays(t: Tree, kept: seq<Path>, i: nat)
    requires WellFormed(t) && i < |kept| && kept[i] in t && Antichain(kept) && NoDup(kept)
    ensures Busy(kept[i], Without(t, kept[..i])) <==> Busy(kept[i], t)
  {
    hide WellFormed, Antichain, NoDup, Covers;
    TargetStillThere(t, kept, i);
    if q :| q in t && IsDescendant(q, kept[i]) {
      NotCovered(t, kept, i, q);
      assert q in Without(t, kept[..i]);
    }
  }

  /** Two ancestors of one path are one above the other. */
  lemma ComparableBelow(p: Path, q: Path, below: Path)
    requires p <= below && q <= below && p != q
    ensures IsDescendant(p, q) || IsDescendant(q, p)
  {
    if |p| <= |q| {
      assert q[..|p|] == p;
    } else {
      assert p[..|q|] == q;
    }
  }

  lemma RemovedUpTo(kept: seq<Path>, t: Tree, recursive: bool, i: nat)
    requires i <= |kept|
    requires forall j :: 0 <= j < i ==> recursive || !Busy(kept[j], t)
    requires i < |kept| ==> !recursive && Busy(kept[i], t)
    ensures Removed(kept, t, recursive) == i
  {
    hide Busy, Removed;
    RemovedFits(kept, t, recursive);
  }

  class WorkspaceFiles {
    var tree: Tree

    constructor (tree: Tree)
      ensures this.tree == tree
    {
      this.tree := tree;
    }

    /** Check every request before anything is deleted; repeated paths count once. */
    method ResolveAll(requests: seq<Request>) returns (problem: Option<Result>, targets: seq<Path>)
      ensures problem == FirstProblem(requests, tree)
      ensures problem.None? ==> targets == Targets(requests)
    {
      hide Targets, FirstProblem;
      targets := [];
      NoRequests(tree);
      for i := 0 to |requests|
        invariant targets == Targets(requests[..i])
        invariant FirstProblem(requests[i..], tree) == FirstProblem(requests, tree)
      {
        var r := requests[i];
        FirstOf(requests, i, tree);
        TargetsSnoc(requests, i);
        if r.Outside? || r.path == [] {
          return Some(Forbidden), [];
        }
        if r.path !in tree {
          return Some(NotFound), [];
        }
        if r.path !in targets {
          targets := targets + [r.path];
        }
      }
      assert requests[..|requests|] == requests && requests[|requests|..] == [];
      problem := None;
    }

    /** Unlink or remove one target. Without `recursive` a directory that still holds something is an error. */
    method RemoveOne(p: Path, kind: Kind, recursive: bool) returns (ok: bool)
      requires p in tree && tree[p] == kind && WellFormed(tree)
      modifies this
      ensures ok <==> recursive || !Busy(p, old(tree))
      ensures tree == if !ok || kind == Special then old(tree) else map q | q in old(tree) && !(p <= q) :: old(tree)[q]
    {
      match kind
      case File =>
        assert forall q :: q in tree && p <= q ==> q == p by {
          forall q | q in tree && p <= q
            ensures q == p
          {
            assert |p| < |q| ==> IsDescendant(q, p);
          }
        }
        tree := tree - {p};
        ok := true;
      case Special => ok := true;
      case Dir =>
        if !recursive && exists q :: q in tree && IsDescendant(q, p) {
          return false;
        }
        tree := map q | q in tree && !(p <= q) :: tree[q];
        ok := true;
    }

    /** Delete the requested paths. A non-recursive deletion stops at the first kept directory that holds something,
        with the kept targets before it gone. */
    method DeletePaths(requests: seq<Request>, recursive: bool) returns (result: Result)
      requires WellFormed(tree)
      modifies this
      ensures WellFormed(tree)
      ensures result.NoPaths? <==> requests == []
      ensures FirstProblem(requests, old(tree)).Some?
              ==> tree == old(tree) && result == FirstProblem(requests, old(tree)).value
      ensures requests != [] && FirstProblem(requests, old(tree)).None? ==>
                var targets := Targets(requests);
                var kept := Outermost(targets, targets, old(tree));
                var n := Removed(kept, old(tree), recursive);
                && result == (if n == |kept| then Deleted(kept) else DirectoryNotEmpty(kept[..n]))
                && tree == Without(old(tree), kept[..n])
                && (n == |kept| ==> tree == Without(old(tree), targets))
    {
      hide Outermost, Without, Covers, Shadowed, WellFormed, NoDup, Antichain, Busy, Removed, Targets, FirstProblem,
           Acceptable;
      NoRequests(tree);
      if requests == [] {
        return NoPaths;
      }
      ghost var t := tree;
      var problem, targets := ResolveAll(requests);
      if problem.Some? {
        return problem.value;
      }
      TargetsExist(requests, t);
      var files := tree;
      var kept := CollapseDeleteTargets(targets, files);
      OutermostIsAntichain(targets, t);
      TargetsFit(requests);
      OutermostNoDup(targets, targets, t);
      var kinds := seq(|kept|, i requires 0 <= i < |kept| => files[kept[i]]);
      assert forall p :: p in kept ==> p in files && p != [];
      assert kept[..0] == [];
      WithoutNothing(t);
      for i := 0 to |kept|
        invariant tree == Without(t, kept[..i]) && WellFormed(tree)
        invariant forall j :: 0 <= j < i ==> recursive || !Busy(kept[j], t)
      {
        TargetStillThere(t, kept, i);
        BusyStays(t, kept, i);
        var ok := RemoveOne(kept[i], kinds[i], recursive);
        if !ok {
          RemovedUpTo(kept, t, recursive, i);
          return DirectoryNotEmpty(kept[..i]);
        }
        OneMoreGone(t, kept, i);
      }
      assert kept[..|kept|] == kept;
      RemovedUpTo(kept, t, recursive, |kept|);
      OutermostRemovesAll(targets, t);
      return Deleted(kept);
    }
  }

  lemma NoRequests(t: Tree)
    ensures Targets([]) == [] && FirstProblem([], t) == None
  {
  }

  lemma FirstOf(requests: seq<Request>, i: nat, t: Tree)
    requires i < |requests|
    ensures FirstProblem(requests[i..], t)
            == if requests[i].Outside? || requests[i].path == [] then Some(Forbidden)
               else if requests[i].path !in t then Some(NotFound)
               else FirstProblem(requests[i + 1..], t)
  {
    assert requests[i..][1..] == requests[i + 1..];
  }

  lemma TargetsExist(requests: seq<Request>, t: Tree)
    requires FirstProblem(requests, t).None?
    ensures forall p :: p in Targets(requests) ==> p in t && p != []
  {
    TargetsFit(requests);
    FirstProblemFits(requests, t);
    forall p | p in Targets(requests) ensures p in t && p != [] {
      var i :| 0 <= i < |requests| && requests[i] == Resolved(p);
      assert Acceptable(requests[i], t);
    }
  }

  lemma OneMoreGone(t: Tree, kept: seq<Path>, i: nat)
    requires WellFormed(t) && i < |kept| && forall p :: p in kept ==> p in t && p != []
    ensures Without(t, kept[..i + 1])
            == if t[kept[i]] == Special then Without(t, kept[..i])
               else map q | q in Without(t, kept[..i]) && !(kept[i] <= q) :: Without(t, kept[..i])[q]
    ensures WellFormed(Without(t, kept[..i + 1]))
  {
    hide Without, WellFormed;
    assert kept[..i + 1] == kept[..i] + [kept[i]];
    WithoutOneMore(t, kept[..i], kept[i]);
    assert forall p :: p in kept[..i + 1] ==> p in kept;
    assert [] !in kept;
    assert [] !in kept[..i + 1];
    WithoutKeepsShape(t, kept[..i + 1]);
  }

  /** A non-recursive deletion can refuse a directory whose content was requested before it: the collapse drops the
      content, and the directory is still busy when its turn comes. */
  lemma NonRecursiveExample()
    ensures var t := SmallTree(); var targets := Targets([Resolved(["d", "x"]), Resolved(["d"])]);
            && WellFormed(t) && Outermost(targets, targets, t) == [["d"]] && Removed([["d"]], t, false) == 0
  {
    TargetsOfTwo(["d", "x"], ["d"]);
    SmallTreeFits();
    CollapseOfTwo();
    RemovedFits([["d"]], SmallTree(), false);
    hide Outermost, Busy, Removed, IsDescendant, Targets, WellFormed;
  }

  lemma TargetsOfTwo(p: Path, q: Path)
    requires p != q
    ensures Targets([Resolved(p), Resolved(q)]) == [p, q]
  {
    var requests := [Resolved(p), Resolved(q)];
    TargetsSnoc(requests, 0);
    TargetsSnoc(requests, 1);
    assert requests[..2] == requests && requests[..0] == [];
  }

  function SmallTree(): (t: Tree) {
    map[[] := Dir, ["d"] := Dir, ["d", "x"] := File]
  }

  lemma SmallTreeFits()
    ensures WellFormed(SmallTree())
  {
    var t := SmallTree();
    forall p, q | p in t && IsDescendant(p, q) ensures q in t && t[q] == Dir {
      assert q == p[..|q|];
      assert |q| == 0 ==> q == [];
      assert |q| == 1 ==> q == [p[0]];
    }
  }

  lemma CollapseOfTwo()
    ensures Outermost([["d", "x"], ["d"]], [["d", "x"], ["d"]], SmallTree()) == [["d"]]
    ensures Busy(["d"], SmallTree())
  {
    var t := SmallTree();
    var none: seq<Path> := [];
    var one: seq<Path> := [["d", "x"]];
    assert ["d", "x"] in t && IsDescendant(["d", "x"], ["d"]);
    OutermostOfNothing(t);
    assert none + [["d", "x"]] == one && one + [["d"]] == [["d", "x"], ["d"]];
    CollapseStep(none, ["d", "x"], t);
    assert Outermost(one, one, t) == one;
    CollapseStep(one, ["d"], t);
    NotBelowNothing(["d"]);
    NotBelowSnoc(none, ["d", "x"], ["d"]);
    assert NotBelow(one, ["d"]) == none;
    assert !LiesIn(["d"], ["d", "x"], t);
    assert none + [["d"]] == [["d"]];
  }

  /** A non-recursive deletion does depend on the order: an empty directory goes only if it comes before a busy one. */
  lemma OrderExample()
    ensures var t: Tree := map[[] := Dir, ["a"] := Dir, ["d"] := Dir, ["d", "x"] := File];
            Removed([["a"], ["d"]], t, false) == 1 && Removed([["d"], ["a"]], t, false) == 0
  {
    var t: Tree := map[[] := Dir, ["a"] := Dir, ["d"] := Dir, ["d", "x"] := File];
    var a, d: Path := ["a"], ["d"];
    assert ["d", "x"] in t && IsDescendant(["d", "x"], d);
    assert !Busy(a, t) by {
      assert forall q :: q in t && |q| > 1 ==> q[0] == "d";
    }
    RemovedUpTo([a, d], t, false, 1);
    RemovedUpTo([d, a], t, false, 0);
  }

  /** A special file on its own is reported deleted and is still there. */
  lemma SpecialFileExample()
    ensures var t: Tree := map[[] := Dir, ["s"] := Special];
            WellFormed(t) && ["s"] in Without(t, [["s"]]) && ["s"] !in Minus(t, [["s"]])
  {
    assert ["s"] in [["s"]];
  }

  /** Nothing removed before a kept target's turn reaches it. */
  lemma TargetStillThere(t: Tree, kept: seq<Path>, i: nat)
    requires WellFormed(t) && i < |kept| && kept[i] in t
    requires Antichain(kept) && NoDup(kept)
    ensures kept[i] in Without(t, kept[..i]) && Without(t, kept[..i])[kept[i]] == t[kept[i]]
  {
    forall j | 0 <= j < i
      ensures !(kept[j] <= kept[i])
    {
      assert kept[j] in kept && kept[i] in kept && kept[j] != kept[i];
      PrefixOrSame(kept[j], kept[i]);
    }
  }

  lemma PrefixOrSame(p: Path, q: Path)
    ensures p <= q ==> p == q || IsDescendant(q, p)
  {
  }

  lemma WithoutNothing(t: Tree)
    ensures Without(t, []) == t
  {
  }

  lemma {:induction false} OutermostNoDup(targets: seq<Path>, requested: seq<Path>, t: Tree)
    requires NoDup(targets)
    ensures NoDup(Outermost(targets, requested, t))
  {
    if targets != [] {
      OutermostNoDup(targets[..|targets| - 1], requested, t);
      assert targets[|targets| - 1] !in targets[..|targets| - 1];
    }
  }

  /** Only the set of requested paths matters. */
  lemma SameRequests(t: Tree, a: seq<Path>, b: seq<Path>)
    requires forall p :: p in a <==> p in b
    ensures Without(t, a) == Without(t, b)
    ensures forall p :: Shadowed(p, a, t) <==> Shadowed(p, b, t)
  {
  }
}
