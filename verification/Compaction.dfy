/**
 The context view (context_api.py): which messages the model still sees after compactions,
 and how estimated token categories are scaled to the actual
 count. */
module Compaction {
  import opened Seqs

  /** What the scan reads of a message: a user message may carry a compaction part with the id its tail starts at,
      and a completed compaction summary is an assistant message naming its parent. Empty ids count as absent. */
  datatype Role = User(compaction: Option<string>) | Summary(parent: string) | Other

  datatype Message = Message(id: string, role: Role)

  /** A later completed summary names the id as its parent. */
  ghost predicate SummarizedAfter(ms: seq<Message>, i: nat, id: string) {
    id != "" && exists j :: i <= j < |ms| && ms[j].role == Summary(id)
  }

  /** A user message with a compaction part, answered by a later completed summary. */
  ghost predicate IsBoundary(ms: seq<Message>, i: nat)
    requires i < |ms|
  {
    ms[i].role.User? && ms[i].role.compaction.Some? && SummarizedAfter(ms, i + 1, ms[i].id)
  }

  ghost predicate IsNewestBoundary(ms: seq<Message>, b: nat)
    requires b < |ms|
  {
    IsBoundary(ms, b) && forall i :: b < i < |ms| ==> !IsBoundary(ms, i)
  }

  /** The declarative boundary: from the newest answered compaction back to its tail start, or to the beginning. */
  ghost predicate IsActiveStart(ms: seq<Message>, start: nat) {
    start <= |ms| &&
    if exists b :: 0 <= b < |ms| && IsNewestBoundary(ms, b) then
      exists b :: 0 <= b < |ms| && IsNewestBoundary(ms, b) && StartFrom(ms, b, ms[b].role.compaction.value, start)
    else start == 0
  }

  /** `start` is the last message up to `b` with the tail's id; without a tail id, `b`; without such a message, 0. */
  ghost predicate StartFrom(ms: seq<Message>, b: nat, tail: string, start: nat)
    requires b < |ms|
  {
    if tail == "" then start == b
    else
      start <= b
      && (forall i :: start < i <= b ==> ms[i].id != tail)
      && (ms[start].id == tail || start == 0)
  }

  /** The visible messages are a contiguous end of the history. */
  ghost predicate IsActive(ms: seq<Message>, visible: seq<Message>) {
    exists start: nat :: start <= |ms| && IsActiveStart(ms, start) && visible == ms[start..]
  }

  /** The reverse scan over messages, collecting what stays visible. */
  method ActiveContextMessages(ms: seq<Message>) returns (result: seq<Message>)
    ensures IsActive(ms, result)
  {
    hide SummarizedAfter;
    NothingAfterEnd(ms);
    result := [];
    var completedParents: set<string> := {};
    var retainUntil := "";
    var i := |ms|;
    ghost var b := |ms|;
    while i > 0
      invariant 0 <= i <= b <= |ms|
      invariant result == ms[i..]
      invariant retainUntil == "" ==> b == |ms| && (forall j :: i <= j < |ms| ==> !IsBoundary(ms, j))
      invariant retainUntil == "" ==> forall p :: p in completedParents <==> SummarizedAfter(ms, i, p)
      invariant retainUntil != "" ==> i <= b < |ms| && IsNewestBoundary(ms, b) && ms[b].role == User(Some(retainUntil))
      invariant retainUntil != "" ==> forall j :: i <= j <= b ==> ms[j].id != retainUntil
    {
      i := i - 1;
      var m := ms[i];
      result := [m] + result;
      assert result == ms[i..];
      if retainUntil != "" {
        if m.id == retainUntil {
          assert IsActiveStart(ms, i);
          return;
        }
        continue;
      }
      if m.role.User? && m.id in completedParents {
        if m.role.compaction.None? {
          SummariesFrom(ms, i);
          continue;
        }
        assert IsNewestBoundary(ms, i);
        var tail := m.role.compaction.value;
        if tail == "" {
          assert IsActiveStart(ms, i);
          return;
        }
        retainUntil, b := tail, i;
        if m.id == retainUntil {
          assert StartFrom(ms, i, tail, i);
          assert IsActiveStart(ms, i);
          return;
        }
        continue;
      }
      SummariesFrom(ms, i);
      if m.role.Summary? && m.role.parent != "" {
        completedParents := completedParents + {m.role.parent};
      }
    }
    if retainUntil != "" {
      assert StartFrom(ms, b, retainUntil, 0);
    }
    assert IsActiveStart(ms, 0);
    assert ms[0..] == ms;
  }

  lemma NothingAfterEnd(ms: seq<Message>)
    ensures forall p :: !SummarizedAfter(ms, |ms|, p)
  {
  }

  /** Which ids are summarized from a position on, one message further back. */
  lemma SummariesFrom(ms: seq<Message>, i: nat)
    requires i < |ms|
    ensures forall id :: SummarizedAfter(ms, i, id)
              <==> SummarizedAfter(ms, i + 1, id) || (id != "" && ms[i].role == Summary(id))
  {
  }

  lemma ActiveStartUnique(ms: seq<Message>, s: nat, t: nat)
    requires IsActiveStart(ms, s) && IsActiveStart(ms, t)
    ensures s == t
  {
    if b :| 0 <= b < |ms| && IsNewestBoundary(ms, b) {
      assert forall c :: 0 <= c < |ms| && IsNewestBoundary(ms, c) ==> c == b;
    }
  }

  /** Boundaries of a suffix are those of the whole, shifted. */
  lemma BoundaryOfSuffix(ms: seq<Message>, start: nat, i: nat)
    requires start <= i < |ms|
    ensures IsBoundary(ms[start..], i - start) <==> IsBoundary(ms, i)
  {
    var suffix := ms[start..];
    assert suffix[i - start] == ms[i];
    forall id: string {:trigger SummarizedAfter(ms, i + 1, id)}
      ensures SummarizedAfter(suffix, i - start + 1, id) <==> SummarizedAfter(ms, i + 1, id)
    {
      if SummarizedAfter(ms, i + 1, id) {
        var j :| i + 1 <= j < |ms| && ms[j].role == Summary(id);
        assert suffix[j - start] == ms[j];
      }
      if SummarizedAfter(suffix, i - start + 1, id) {
        var j :| i - start + 1 <= j < |suffix| && suffix[j].role == Summary(id);
        assert suffix[j] == ms[j + start];
      }
    }
  }

  lemma SuffixStartsAtZero(ms: seq<Message>, start: nat)
    requires IsActiveStart(ms, start)
    ensures IsActiveStart(ms[start..], 0)
  {
    hide SummarizedAfter;
    var suffix := ms[start..];
    if b :| 0 <= b < |ms| && IsNewestBoundary(ms, b) {
      assert forall c :: 0 <= c < |ms| && IsNewestBoundary(ms, c) ==> c == b;
      var tail := ms[b].role.compaction.value;
      assert StartFrom(ms, b, tail, start);
      NewestOfSuffix(ms, start, b);
      assert forall i :: 0 <= i < |suffix| ==> suffix[i] == ms[i + start];
      assert StartFrom(suffix, b - start, tail, 0);
    } else {
      assert suffix == ms;
    }
  }

  /** The boundary is unique, and what is visible after a compaction stays visible: scanning it again keeps all of
      it. */
  lemma ActiveIsIdempotent(ms: seq<Message>, visible: seq<Message>, again: seq<Message>)
    requires IsActive(ms, visible) && IsActive(visible, again)
    ensures again == visible
  {
    hide IsActiveStart;
    var start: nat :| start <= |ms| && IsActiveStart(ms, start) && visible == ms[start..];
    SuffixStartsAtZero(ms, start);
    var second: nat :| second <= |visible| && IsActiveStart(visible, second) && again == visible[second..];
    ActiveStartUnique(visible, 0, second);
  }

  lemma ActiveIsUnique(ms: seq<Message>, a: seq<Message>, b: seq<Message>)
    requires IsActive(ms, a) && IsActive(ms, b)
    ensures a == b
  {
    hide IsActiveStart;
    var s: nat :| s <= |ms| && IsActiveStart(ms, s) && a == ms[s..];
    var t: nat :| t <= |ms| && IsActiveStart(ms, t) && b == ms[t..];
    ActiveStartUnique(ms, s, t);
  }

  lemma NewestOfSuffix(ms: seq<Message>, start: nat, b: nat)
    requires start <= b < |ms| && IsNewestBoundary(ms, b)
    ensures IsNewestBoundary(ms[start..], b - start)
  {
    BoundaryOfSuffix(ms, start, b);
    forall i | b - start < i < |ms[start..]|
      ensures !IsBoundary(ms[start..], i)
    {
      BoundaryOfSuffix(ms, start, i + start);
    }
  }
}
