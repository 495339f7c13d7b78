/**
 Deleting a conversation from a message on (sessions_api.py): the upstream session is forked before
 the message, the fork is checked against the messages that should be left, and only then the
 record is repointed. Other work on the store lands while the upstream calls are
 awaited. */
module ForkMutation {
  import opened Seqs
  import PyText
  import S = Sessions

  datatype Message = Message(id: string, role: string, text: string)

  datatype Signature = Signature(role: string, content: string)

  /** Line endings become line feeds. */
  function UnixLines(s: string): (r: string)
    ensures '\r' !in r
    decreases |s|
  {
    if s == "" then ""
    else if s[0] == '\r' then "\n" + UnixLines(if |s| > 1 && s[1] == '\n' then s[2..] else s[1..])
    else [s[0]] + UnixLines(s[1..])
  }

  function NormalContent(s: string): (r: string) {
    PyText.Strip(UnixLines(s))
  }

  lemma {:induction false} UnixTwice(s: string)
    requires '\r' !in s
    ensures UnixLines(s) == s
    decreases |s|
  {
    if s != "" {
      UnixTwice(s[1..]);
    }
  }

  /** A carriage return, with its line feed or without, is read as one line feed. */
  lemma UnixReads(a: string, b: string)
    ensures UnixLines(a + "\r\n" + b) == UnixLines(a) + "\n" + UnixLines(b)
    ensures (b == "" || b[0] != '\n') ==> UnixLines(a + "\r" + b) == UnixLines(a) + "\n" + UnixLines(b)
  {
    UnixEnds("\r\n", b);
    UnixSplits(a, "\r\n", b);
    if b == "" || b[0] != '\n' {
      UnixEnds("\r", b);
      UnixSplits(a, "\r", b);
    }
  }

  lemma UnixEnds(end: string, b: string)
    requires end == "\r\n" || (end == "\r" && (b == "" || b[0] != '\n'))
    ensures UnixLines(end + b) == "\n" + UnixLines(b)
  {
    assert (end + b)[|end|..] == b;
  }

  lemma {:induction false} UnixSplits(a: string, end: string, b: string)
    requires end != "" && end[0] == '\r' && UnixLines(end + b) == "\n" + UnixLines(b)
    ensures UnixLines(a + end + b) == UnixLines(a) + "\n" + UnixLines(b)
    decreases |a|
  {
    hide UnixLines;
    if a == "" {
      assert "" + end + b == end + b;
      UnixNothing();
      Prefixed(UnixLines(a), "\n", UnixLines(b));
    } else {
      var n := if a[0] == '\r' && |a| > 1 && a[1] == '\n' then 2 else 1;
      var c := if a[0] == '\r' then "\n" else [a[0]];
      UnixSplits(a[n..], end, b);
      UnixStep(a, n, "");
      UnixStep(a, n, end + b);
      Regroup(a, end, b);
      Regroup(a[n..], end, b);
      Regroup(c, UnixLines(a[n..]), "\n" + UnixLines(b));
      Regroup(UnixLines(a[n..]), "\n", UnixLines(b));
      Regroup(c + UnixLines(a[n..]), "\n", UnixLines(b));
    }
  }

  lemma UnixNothing()
    ensures UnixLines("") == ""
  {
  }

  lemma Prefixed(a: string, b: string, c: string)
    requires a == ""
    ensures a + b + c == b + c
  {
  }

  lemma Regroup(a: string, b: string, c: string)
    ensures a + b + c == a + (b + c) && a + "" == a
  {
  }

  lemma UnixStep(a: string, n: nat, more: string)
    requires a != "" && n == if a[0] == '\r' && |a| > 1 && a[1] == '\n' then 2 else 1
    requires more == "" || more[0] != '\n'
    ensures UnixLines(a + more) == (if a[0] == '\r' then "\n" else [a[0]]) + UnixLines(a[n..] + more)
  {
    assert (a + more)[n..] == a[n..] + more;
    assert |a| == 1 && more != "" ==> (a + more)[1] == more[0];
  }

  /** A text without carriage returns is only stripped. */
  lemma PlainContent(left: string, core: string, right: string)
    requires '\r' !in left + core + right && PyText.All(left, PyText.IsSpace) && PyText.All(right, PyText.IsSpace)
    requires core == "" || (!PyText.IsSpace(core[0]) && !PyText.IsSpace(core[|core| - 1]))
    ensures NormalContent(left + core + right) == core
  {
    UnixTwice(left + core + right);
    PyText.TrimIs(left, core, right, PyText.IsSpace);
  }

  /** Normalized texts are in normal form: comparing them again after another round changes nothing. */
  lemma NormalTwice(s: string)
    ensures NormalContent(NormalContent(s)) == NormalContent(s)
  {
    UnixTwice(NormalContent(s));
    PyText.StripTwice(UnixLines(s));
  }

  /** What a reader sees of a conversation: who said what. */
  function Signatures(messages: seq<Message>): (r: seq<Signature>)
    ensures |r| == |messages|
  {
    seq(|messages|, i requires 0 <= i < |messages| => Signature(messages[i].role, NormalContent(messages[i].text)))
  }

  method FindMessageIndex(messages: seq<Message>, id: string) returns (idx: int)
    ensures idx == Index(messages, id)
  {
    for i := 0 to |messages|
      invariant forall j :: 0 <= j < i ==> messages[j].id != id
      invariant Index(messages, id) == -1 || Index(messages, id) >= i
    {
      if messages[i].id == id {
        IndexIs(messages, id, i);
        return i;
      }
    }
    return -1;
  }

  /** The first message with the id. */
  function Index(messages: seq<Message>, id: string): (idx: int)
    ensures -1 <= idx < |messages|
    ensures idx >= 0 ==> messages[idx].id == id && forall j :: 0 <= j < idx ==> messages[j].id != id
    ensures idx < 0 ==> forall j :: 0 <= j < |messages| ==> messages[j].id != id
  {
    if messages == [] then -1
    else if messages[0].id == id then 0
    else
      var rest := Index(messages[1..], id);
      if rest < 0 then -1 else rest + 1
  }

  lemma IndexIs(messages: seq<Message>, id: string, i: nat)
    requires i < |messages| && messages[i].id == id && forall j :: 0 <= j < i ==> messages[j].id != id
    ensures Index(messages, id) == i
  {
  }

  // ---------------------------------------------------------- where to fork

  datatype Candidate = Candidate(id: string, role: string)

  /** The nearest message of the user before `target`, if any. */
  function NearestUser(messages: seq<Message>, target: nat): (r: int)
    requires target <= |messages|
    ensures -1 <= r < target
    ensures r >= 0 ==> messages[r].role == "user"
    ensures forall j :: r < j < target ==> messages[j].role != "user"
  {
    if target == 0 then -1
    else if messages[target - 1].role == "user" then target - 1
    else NearestUser(messages, target - 1)
  }

  function At(messages: seq<Message>, idx: nat): (c: Candidate)
    requires idx < |messages|
  {
    Candidate(messages[idx].id, messages[idx].role)
  }

  function Ids(cs: seq<Candidate>): (r: seq<string>)
    ensures |r| == |cs|
  {
    seq(|cs|, i requires 0 <= i < |cs| => cs[i].id)
  }

  /** Another boundary, unless the index is outside, the message has no id or the id is there already. */
  function WithBoundary(cs: seq<Candidate>, messages: seq<Message>, idx: int): (r: seq<Candidate>) {
    if idx < 0 || idx >= |messages| || messages[idx].id == "" || messages[idx].id in Ids(cs) then cs
    else cs + [At(messages, idx)]
  }

  /** The target, the message before it, and the nearest user message before it. */
  function Candidates(messages: seq<Message>, target: nat): (r: seq<Candidate>)
    requires target < |messages|
  {
    var two := WithBoundary(WithBoundary([], messages, target), messages, target - 1);
    WithBoundary(two, messages, NearestUser(messages, target))
  }

  ghost predicate IsOf(c: Candidate, messages: seq<Message>, idx: nat) {
    idx < |messages| && c.id == messages[idx].id && c.role == messages[idx].role
  }

  /** The target comes first and the message before it next, as far as they have an id of their own. */
  ghost predicate InOrder(cs: seq<Candidate>, messages: seq<Message>, target: nat)
    requires target < |messages|
  {
    var first := if messages[target].id == "" then 0 else 1;
    && (first == 1 ==> cs != [] && IsOf(cs[0], messages, target))
    && (target > 0 && messages[target - 1].id !in {"", messages[target].id} ==>
          |cs| > first && IsOf(cs[first], messages, target - 1))
  }

  /** The boundaries are at most three, have distinct ids, the target's first, and their ids are exactly the ids of
      those three messages, as far as they have one. */
  lemma CandidatesFit(messages: seq<Message>, target: nat)
    requires target < |messages|
    ensures var cs := Candidates(messages, target);
            var near := NearestUser(messages, target);
            && |cs| <= 3 && NoDup(Ids(cs))
            && InOrder(cs, messages, target)
            && (forall c :: c in cs ==> IsOf(c, messages, target) || (target > 0 && IsOf(c, messages, target - 1))
                                        || (near >= 0 && IsOf(c, messages, near)))
            && (forall id :: id in Ids(cs) <==>
                  id != "" && (id == messages[target].id || (target > 0 && id == messages[target - 1].id)
                               || (near >= 0 && id == messages[near].id)))
  {
    CandidateIds(messages, target);
    CandidateMembers(messages, target);
    hide Candidates, NoDup, IsOf, InOrder, Ids;
  }

  lemma CandidateIds(messages: seq<Message>, target: nat)
    requires target < |messages|
    ensures NoDup(Ids(Candidates(messages, target)))
    ensures var near := NearestUser(messages, target);
            forall id :: id in Ids(Candidates(messages, target)) <==>
              id != "" && (id == messages[target].id || (target > 0 && id == messages[target - 1].id)
                           || (near >= 0 && id == messages[near].id))
  {
    var one := WithBoundary([], messages, target);
    var two := WithBoundary(one, messages, target - 1);
    WithBoundaryIds([], messages, target);
    WithBoundaryIds(one, messages, target - 1);
    WithBoundaryIds(two, messages, NearestUser(messages, target));
    hide WithBoundary, NoDup, At;
  }

  lemma CandidateMembers(messages: seq<Message>, target: nat)
    requires target < |messages|
    ensures var cs := Candidates(messages, target);
            var near := NearestUser(messages, target);
            && |cs| <= 3
            && InOrder(cs, messages, target)
            && (forall c :: c in cs ==> IsOf(c, messages, target) || (target > 0 && IsOf(c, messages, target - 1))
                                        || (near >= 0 && IsOf(c, messages, near)))
  {
    hide NearestUser, Ids, InOrder, IsOf, WithBoundary;
    var one := WithBoundary([], messages, target);
    var two := WithBoundary(one, messages, target - 1);
    WithBoundaryAdds([], messages, target);
    WithBoundaryAdds(one, messages, target - 1);
    WithBoundaryAdds(two, messages, NearestUser(messages, target));
    TwoInOrder(messages, target);
    assert |one| <= 1 && |two| <= 2;
  }

  lemma WithBoundaryAdds(cs: seq<Candidate>, messages: seq<Message>, idx: int)
    requires idx < |messages|
    ensures var r := WithBoundary(cs, messages, idx);
            && |cs| <= |r| <= |cs| + 1 && r[..|cs|] == cs
            && forall c :: c in r ==> c in cs || (0 <= idx && IsOf(c, messages, idx))
  {
  }

  lemma TwoInOrder(messages: seq<Message>, target: nat)
    requires target < |messages|
    ensures InOrder(Candidates(messages, target), messages, target)
  {
    hide NearestUser, WithBoundary, IsOf;
    var one := WithBoundary([], messages, target);
    var two := WithBoundary(one, messages, target - 1);
    var all := Candidates(messages, target);
    WithBoundaryAdds(two, messages, NearestUser(messages, target));
    FirstBoundary(messages, target);
    SecondBoundary(messages, target, one, two);
    assert forall i :: 0 <= i < |two| ==> all[i] == all[..|two|][i];
  }

  lemma FirstBoundary(messages: seq<Message>, target: nat)
    requires target < |messages|
    ensures var one := WithBoundary([], messages, target);
            if messages[target].id == "" then one == []
            else |one| == 1 && IsOf(one[0], messages, target)
  {
  }

  lemma SecondBoundary(messages: seq<Message>, target: nat, one: seq<Candidate>, two: seq<Candidate>)
    requires target < |messages| && two == WithBoundary(one, messages, target - 1)
    requires if messages[target].id == "" then one == [] else |one| == 1 && IsOf(one[0], messages, target)
    ensures |two| >= |one| && two[..|one|] == one
    ensures target > 0 && messages[target - 1].id !in {"", messages[target].id} ==>
              |two| == |one| + 1 && IsOf(two[|one|], messages, target - 1)
  {
  }

  lemma WithBoundaryIds(cs: seq<Candidate>, messages: seq<Message>, idx: int)
    requires NoDup(Ids(cs)) && idx < |messages|
    ensures var r := WithBoundary(cs, messages, idx);
            && NoDup(Ids(r))
            && (forall id :: id in Ids(r) <==> id in Ids(cs) || (idx >= 0 && id == messages[idx].id && id != ""))
            && (cs == [] ==> Ids(cs) == [])
  {
    hide NoDup;
    var r := WithBoundary(cs, messages, idx);
    if r != cs {
      assert Ids(r) == Ids(cs) + [messages[idx].id];
      NoDupAppend(Ids(cs), messages[idx].id);
    }
  }

  lemma NoDupAppend(s: seq<string>, x: string)
    requires NoDup(s) && x !in s
    ensures NoDup(s + [x])
  {
  }

  method ForkBoundaryCandidates(messages: seq<Message>, target: nat) returns (cs: seq<Candidate>)
    requires target < |messages|
    ensures cs == Candidates(messages, target)
  {
    cs := WithBoundary([], messages, target);
    cs := WithBoundary(cs, messages, target - 1);
    ghost var two := cs;
    var i := target - 1;
    while i >= 0
      invariant -1 <= i < target && cs == two
      invariant NearestUser(messages, target) == NearestUser(messages, i + 1)
    {
      if messages[i].role == "user" {
        cs := WithBoundary(cs, messages, i);
        return;
      }
      i := i - 1;
    }
  }

  // ------------------------------------------------------------- the upstream

  datatype Call = List(session: string) | Create(title: string) | Fork(session: string, boundary: string)
                | Abort(session: string)

  /** An answer carries the session id found in it, if any, and the messages; a refusal its status. */
  datatype Reply = Answered(session: string, messages: seq<Message>) | Refused(status: int) | Broken

  type Script = nat -> Reply

  datatype Forked = Forked(reply: Reply, calls: seq<Call>)

  /** A fork, and when the session is busy an abort and one more try. */
  function ForkOnce(script: Script, n: nat, session: string, boundary: string): (r: Forked)
    ensures |r.calls| in {1, 2, 3} && (r.reply.Answered? ==> r.reply == script(n + |r.calls| - 1))
  {
    var fork := Call.Fork(session, boundary);
    if script(n) != Refused(409) && script(n) != Refused(423) then Forked(script(n), [fork])
    else if !script(n + 1).Answered? then Forked(script(n + 1), [fork, Abort(session)])
    else Forked(script(n + 2), [fork, Abort(session), fork])
  }

  datatype Verdict = ForkFailed | ListFailed | PrefixMismatch(count: nat) | Matched(count: nat)

  datatype Attempt = Attempt(boundary: string, role: string, verdict: Verdict)

  datatype Tried = Tried(attempt: Attempt, session: string, messages: seq<Message>, calls: seq<Call>)

  /** Fork before one boundary, list the fork, compare. */
  function TryOne(script: Script, n: nat, session: string, wanted: seq<Signature>, c: Candidate): (r: Tried) {
    var f := ForkOnce(script, n, session, c.id);
    if !f.reply.Answered? || f.reply.session == "" then
      Tried(Attempt(c.id, c.role, ForkFailed), "", [], f.calls)
    else
      var listed := script(n + |f.calls|);
      var calls := f.calls + [List(f.reply.session)];
      if !listed.Answered? then Tried(Attempt(c.id, c.role, ListFailed), "", [], calls)
      else if Signatures(listed.messages) == wanted then
        Tried(Attempt(c.id, c.role, Matched(|listed.messages|)), f.reply.session, listed.messages, calls)
      else Tried(Attempt(c.id, c.role, PrefixMismatch(|listed.messages|)), "", [], calls)
  }

  datatype Search = Search(attempts: seq<Attempt>, accepted: Option<(string, seq<Message>)>, calls: seq<Call>)

  /** The candidates in order, until one matches. */
  function TryAll(script: Script, n: nat, session: string, wanted: seq<Signature>, cs: seq<Candidate>): (r: Search)
    decreases |cs|
  {
    if cs == [] then Search([], None, [])
    else
      var t := TryOne(script, n, session, wanted, cs[0]);
      if t.attempt.verdict.Matched? then Search([t.attempt], Some((t.session, t.messages)), t.calls)
      else
        var rest := TryAll(script, n + |t.calls|, session, wanted, cs[1..]);
        Search([t.attempt] + rest.attempts, rest.accepted, t.calls + rest.calls)
  }

  /** The call number `i` of the run listed `session`, and what it answered looks like `wanted`; the call before it
      made the session. */
  ghost predicate ListedAs(script: Script, n: nat, calls: seq<Call>, i: int, session: string, messages: seq<Message>,
                           wanted: seq<Signature>) {
    && 0 < i < |calls| && calls[i] == List(session) && session != ""
    && script(n + i) .Answered? && script(n + i).messages == messages && Signatures(messages) == wanted
    && (calls[i - 1].Fork? || calls[i - 1].Create?)
    && script(n + i - 1).Answered? && script(n + i - 1).session == session
  }

  /** What the attempts of a search over some boundaries come to. */
  ghost predicate AttemptsFit(r: Search, cs: seq<Candidate>, count: nat) {
    var k := |r.attempts|;
    && k <= |cs| && (forall i :: 0 <= i < k ==> r.attempts[i].boundary == cs[i].id)
    && (forall i :: 0 <= i < k - 1 ==> !r.attempts[i].verdict.Matched?)
    && if r.accepted.Some? then k > 0 && r.attempts[k - 1].verdict == Matched(count)
       else k == |cs| && (k > 0 ==> !r.attempts[k - 1].verdict.Matched?)
  }

  /** Only a session that was listed and looks like the wanted prefix is accepted, right after it was listed; every
      earlier attempt failed or differed; and when none is accepted every candidate was tried. */
  lemma {:induction false} SearchIsSound(script: Script, n: nat, session: string, wanted: seq<Signature>,
                                         cs: seq<Candidate>)
    ensures var r := TryAll(script, n, session, wanted, cs);
            && AttemptsFit(r, cs, |wanted|)
            && (r.accepted.Some? ==>
                  ListedAs(script, n, r.calls, |r.calls| - 1, r.accepted.value.0, r.accepted.value.1, wanted))
    decreases |cs|
  {
    hide Signatures, TryOne, ListedAs, AttemptsFit;
    if cs == [] {
      NothingTried(script, n, session, wanted);
    } else {
      var t := TryOne(script, n, session, wanted, cs[0]);
      TryOneIsSound(script, n, session, wanted, cs[0]);
      if t.attempt.verdict.Matched? {
        OneTried(t, cs, |wanted|);
      } else {
        var rest := TryAll(script, n + |t.calls|, session, wanted, cs[1..]);
        SearchIsSound(script, n + |t.calls|, session, wanted, cs[1..]);
        AttemptsShift(t, rest, cs, |wanted|);
        if rest.accepted.Some? {
          ListedLater(script, n, t.calls, rest.calls, rest.accepted.value.0, rest.accepted.value.1, wanted);
        }
      }
    }
  }

  lemma NothingTried(script: Script, n: nat, session: string, wanted: seq<Signature>)
    ensures AttemptsFit(TryAll(script, n, session, wanted, []), [], |wanted|)
    ensures TryAll(script, n, session, wanted, []).accepted.None?
  {
  }

  lemma OneTried(t: Tried, cs: seq<Candidate>, count: nat)
    requires cs != [] && t.attempt.verdict == Matched(count) && t.attempt.boundary == cs[0].id
    ensures AttemptsFit(Search([t.attempt], Some((t.session, t.messages)), t.calls), cs, count)
  {
  }

  lemma AttemptsShift(t: Tried, rest: Search, cs: seq<Candidate>, count: nat)
    requires cs != [] && AttemptsFit(rest, cs[1..], count)
    requires !t.attempt.verdict.Matched? && t.attempt.boundary == cs[0].id
    ensures AttemptsFit(Search([t.attempt] + rest.attempts, rest.accepted, t.calls + rest.calls), cs, count)
  {
    var all := [t.attempt] + rest.attempts;
    assert forall i :: 0 < i < |all| ==> all[i] == rest.attempts[i - 1] && cs[i] == cs[1..][i - 1];
  }

  lemma TryOneIsSound(script: Script, n: nat, session: string, wanted: seq<Signature>, c: Candidate)
    ensures var t := TryOne(script, n, session, wanted, c);
            && t.attempt.boundary == c.id && t.calls != []
            && (t.attempt.verdict.Matched? ==> t.attempt.verdict == Matched(|wanted|)
                                               && ListedAs(script, n, t.calls, |t.calls| - 1, t.session, t.messages,
                                                           wanted))
  {
  }

  lemma ListedLater(script: Script, n: nat, before: seq<Call>, calls: seq<Call>, session: string,
                    messages: seq<Message>, wanted: seq<Signature>)
    requires ListedAs(script, n + |before|, calls, |calls| - 1, session, messages, wanted)
    ensures ListedAs(script, n, before + calls, |before + calls| - 1, session, messages, wanted)
  {
    hide Signatures;
    assert (before + calls)[|before| + |calls| - 1] == calls[|calls| - 1];
    assert (before + calls)[|before| + |calls| - 2] == calls[|calls| - 2];
  }

  // -------------------------------------------------------------- the mutation

  datatype Outcome = NotFound | BadGateway | Conflict(attempts: seq<Attempt>)
                   | Accepted(session: string, messages: seq<Message>)

  datatype Planned = Planned(outcome: Outcome, calls: seq<Call>)

  /** Before the first message nothing is left, and a new session takes the fork's place. */
  function StartOver(script: Script, n: nat, title: string): (r: Planned) {
    if !script(n).Answered? || script(n).session == "" then Planned(BadGateway, [Create(title)])
    else
      var calls := [Create(title), List(script(n).session)];
      if !script(n + 1).Answered? then Planned(BadGateway, calls)
      else if script(n + 1).messages == [] then Planned(Accepted(script(n).session, []), calls)
      else Planned(Conflict([Attempt("", "session_start", PrefixMismatch(|script(n + 1).messages|))]), calls)
  }

  /** A fork whose visible messages are those before the target. */
  function Preserving(script: Script, n: nat, session: string, messages: seq<Message>, target: nat,
                      title: string): (r: Planned)
    requires target < |messages|
  {
    if target == 0 then StartOver(script, n, title)
    else
      var found := TryAll(script, n, session, Signatures(messages[..target]), Candidates(messages, target));
      Planned(if found.accepted.Some? then Accepted(found.accepted.value.0, found.accepted.value.1)
              else Conflict(found.attempts), found.calls)
  }

  /** What the upstream's answers lead to, for a record and a message to delete from. */
  function Plan(script: Script, n: nat, record: S.Record, messageId: string): (r: Planned) {
    var first := [List(record.upstream)];
    match script(n)
    case Refused(status) => Planned(if status == 404 then NotFound else BadGateway, first)
    case Broken => Planned(BadGateway, first)
    case Answered(_, messages) =>
      var idx := Index(messages, messageId);
      if idx < 0 then Planned(NotFound, first)
      else
        var p := Preserving(script, n + 1, record.upstream, messages, idx, record.title);
        Planned(p.outcome, first + p.calls)
  }

  /** Whatever the upstream answers, the only session ever accepted is one that was made and then listed, with visible
      messages exactly those before the first message with the given id; and it was listed by the last call. */
  lemma AcceptedPreservesPrefix(script: Script, n: nat, record: S.Record, messageId: string)
    ensures var p := Plan(script, n, record, messageId);
            p.outcome.Accepted? ==>
              && script(n).Answered?
              && var messages := script(n).messages;
                 var idx := Index(messages, messageId);
                 && 0 <= idx
                 && ListedAs(script, n, p.calls, |p.calls| - 1, p.outcome.session, p.outcome.messages,
                             Signatures(messages[..idx]))
  {
    hide TryAll, Candidates, ListedAs;
    var p := Plan(script, n, record, messageId);
    if p.outcome.Accepted? {
      var messages := script(n).messages;
      var idx := Index(messages, messageId);
      PreservingIsSound(script, n + 1, record.upstream, messages, idx, record.title);
      var q := Preserving(script, n + 1, record.upstream, messages, idx, record.title);
      ListedLater(script, n, [List(record.upstream)], q.calls, q.outcome.session, q.outcome.messages,
                  Signatures(messages[..idx]));
    }
  }

  lemma PreservingIsSound(script: Script, n: nat, session: string, messages: seq<Message>, target: nat, title: string)
    requires target < |messages|
    ensures var p := Preserving(script, n, session, messages, target, title);
            p.outcome.Accepted? ==> ListedAs(script, n, p.calls, |p.calls| - 1, p.outcome.session, p.outcome.messages,
                                             Signatures(messages[..target]))
  {
    hide TryAll, Candidates;
    if target == 0 {
      assert messages[..target] == [];
    } else {
      SearchIsSound(script, n, session, Signatures(messages[..target]), Candidates(messages, target));
    }
  }

  /** A conflict means that no boundary gave the prefix: each was tried, and each failed or differed. */
  lemma ConflictTriedAll(script: Script, n: nat, record: S.Record, messageId: string)
    ensures var p := Plan(script, n, record, messageId);
            p.outcome.Conflict? ==>
              && script(n).Answered?
              && var messages := script(n).messages;
                 var idx := Index(messages, messageId);
                 && 0 <= idx
                 && (forall a :: a in p.outcome.attempts ==> !a.verdict.Matched?)
                 && (idx > 0 ==> |p.outcome.attempts| == |Candidates(messages, idx)|)
  {
    hide TryAll, Candidates, Signatures;
    var p := Plan(script, n, record, messageId);
    if p.outcome.Conflict? {
      var messages := script(n).messages;
      var idx := Index(messages, messageId);
      if idx > 0 {
        SearchIsSound(script, n + 1, record.upstream, Signatures(messages[..idx]), Candidates(messages, idx));
      }
    }
  }

  // ---------------------------------------------------------- awaits and the store

  type Landing = nat -> seq<S.Op>

  /** What lands in the store during the awaits from number `n` up to `m`. */
  function Landed(landing: Landing, n: nat, m: nat): (ops: seq<S.Op>)
    decreases m
  {
    if n >= m then [] else Landed(landing, n, m - 1) + landing(m - 1)
  }

  /** The upstream server and everything else that runs while its answers are awaited. */
  class Upstream {
    const script: Script
    const landing: Landing
    const store: S.SessionStore
    var calls: seq<Call>

    constructor (script: Script, landing: Landing, store: S.SessionStore)
      ensures this.script == script && this.landing == landing && this.store == store && calls == []
    {
      this.script, this.landing, this.store, calls := script, landing, store, [];
    }

    /** The calls since `before` are `made`, and the store is what it was then plus what has landed since. */
    ghost predicate Since(before: seq<Call>, sessions: S.Index, made: seq<Call>)
      reads this, store
    {
      && store.Valid() && calls == before + made
      && store.sessions == S.AppliedAll(sessions, Landed(landing, |before|, |calls|))
    }

    method Await(c: Call, ghost before: seq<Call>, ghost sessions: S.Index, ghost made: seq<Call>) returns (r: Reply)
      requires Since(before, sessions, made)
      modifies this, store
      ensures Since(before, sessions, made + [c])
      ensures r == script(|before| + |made|)
    {
      hide S.AppliedAll;
      S.AppliedAppend(sessions, Landed(landing, |before|, |calls|), landing(|calls|));
      assert before + (made + [c]) == calls + [c];
      store.PerformAll(landing(|calls|));
      r := script(|calls|);
      calls := calls + [c];
    }

    method ForkCandidateWithAbortRetry(session: string, boundary: string, ghost before: seq<Call>,
                                       ghost sessions: S.Index, ghost made: seq<Call>)
      returns (r: Reply)
      requires Since(before, sessions, made)
      modifies this, store
      ensures var f := ForkOnce(script, |before| + |made|, session, boundary);
              r == f.reply && Since(before, sessions, made + f.calls)
    {
      hide Since;
      var fork := Call.Fork(session, boundary);
      r := Await(fork, before, sessions, made);
      if r.Refused? && r.status in {409, 423} {
        r := Await(Abort(session), before, sessions, made + [fork]);
        assert made + [fork] + [Abort(session)] == made + [fork, Abort(session)];
        if r.Answered? {
          r := Await(fork, before, sessions, made + [fork, Abort(session)]);
          assert made + [fork, Abort(session)] + [fork] == made + [fork, Abort(session), fork];
        }
      }
    }

    /** One boundary: fork before it, list the fork and compare its visible messages with the wanted ones. */
    method TryBoundary(session: string, wanted: seq<Signature>, c: Candidate, ghost before: seq<Call>,
                       ghost sessions: S.Index, ghost made: seq<Call>)
      returns (attempt: Attempt, fork: string, messages: seq<Message>)
      requires Since(before, sessions, made)
      modifies this, store
      ensures var t := TryOne(script, |before| + |made|, session, wanted, c);
              && attempt == t.attempt && fork == t.session && messages == t.messages
              && Since(before, sessions, made + t.calls)
    {
      hide Since, ForkOnce, Signatures;
      var reply := ForkCandidateWithAbortRetry(session, c.id, before, sessions, made);
      ghost var f := ForkOnce(script, |before| + |made|, session, c.id);
      if !reply.Answered? || reply.session == "" {
        return Attempt(c.id, c.role, ForkFailed), "", [];
      }
      var listed := Await(List(reply.session), before, sessions, made + f.calls);
      assert made + f.calls + [List(reply.session)] == made + (f.calls + [List(reply.session)]);
      if !listed.Answered? {
        return Attempt(c.id, c.role, ListFailed), "", [];
      }
      if Signatures(listed.messages) == wanted {
        return Attempt(c.id, c.role, Matched(|listed.messages|)), reply.session, listed.messages;
      }
      return Attempt(c.id, c.role, PrefixMismatch(|listed.messages|)), "", [];
    }

    method ForkSessionPreservingPrefix(session: string, messages: seq<Message>, target: nat, title: string,
                                       ghost before: seq<Call>, ghost sessions: S.Index, ghost made: seq<Call>)
      returns (outcome: Outcome)
      requires target < |messages| && Since(before, sessions, made)
      modifies this, store
      ensures var p := Preserving(script, |before| + |made|, session, messages, target, title);
              outcome == p.outcome && Since(before, sessions, made + p.calls)
    {
      hide Since, TryAll, Signatures, Candidates;
      if target == 0 {
        outcome := NewEmptySession(title, before, sessions, made);
        return;
      }
      var wanted := Signatures(messages[..target]);
      var cs := ForkBoundaryCandidates(messages, target);
      outcome := SearchBoundaries(session, wanted, cs, before, sessions, made);
    }

    method SearchBoundaries(session: string, wanted: seq<Signature>, cs: seq<Candidate>,
                            ghost before: seq<Call>, ghost sessions: S.Index, ghost made: seq<Call>)
      returns (outcome: Outcome)
      requires Since(before, sessions, made)
      modifies this, store
      ensures var all := TryAll(script, |before| + |made|, session, wanted, cs);
              && Since(before, sessions, made + all.calls)
              && outcome == if all.accepted.Some? then Accepted(all.accepted.value.0, all.accepted.value.1)
                            else Conflict(all.attempts)
    {
      hide Since, TryOne, Signatures, TryAll, Joined;
      var attempts: seq<Attempt> := [];
      ghost var tried: seq<Call> := [];
      ghost var n0 := |before| + |made|;
      var i := 0;
      SearchStarts(script, n0, session, wanted, cs, made);
      while i < |cs|
        invariant 0 <= i <= |cs| && Since(before, sessions, made + tried)
        invariant TryAll(script, n0, session, wanted, cs)
                  == Joined(attempts, tried, TryAll(script, n0 + |tried|, session, wanted, cs[i..]))
      {
        SearchSteps(script, n0 + |tried|, session, wanted, cs, i, attempts, tried);
        ghost var t := TryOne(script, n0 + |tried|, session, wanted, cs[i]);
        var attempt, fork, listed := TryBoundary(session, wanted, cs[i], before, sessions, made + tried);
        Associates(made, tried, t.calls);
        attempts, tried := attempts + [attempt], tried + t.calls;
        if attempt.verdict.Matched? {
          return Accepted(fork, listed);
        }
        i := i + 1;
      }
      SearchEnds(script, n0 + |tried|, session, wanted, cs[i..], attempts, tried);
      return Conflict(attempts);
    }

    method NewEmptySession(title: string, ghost before: seq<Call>, ghost sessions: S.Index, ghost made: seq<Call>)
      returns (outcome: Outcome)
      requires Since(before, sessions, made)
      modifies this, store
      ensures var p := StartOver(script, |before| + |made|, title);
              outcome == p.outcome && Since(before, sessions, made + p.calls)
    {
      hide Since;
      var created := Await(Create(title), before, sessions, made);
      if !created.Answered? || created.session == "" {
        return BadGateway;
      }
      var listed := Await(List(created.session), before, sessions, made + [Create(title)]);
      assert made + [Create(title)] + [List(created.session)] == made + [Create(title), List(created.session)];
      if !listed.Answered? {
        return BadGateway;
      }
      if Signatures(listed.messages) == [] {
        return Accepted(created.session, []);
      }
      return Conflict([Attempt("", "session_start", PrefixMismatch(|listed.messages|))]);
    }

    /** Delete a conversation from a message on. The record is repointed exactly when the plan accepts a session and the
        record is still there when the plan is done; whatever landed meanwhile is kept, and on every other path that is
        all that happened to the store. */
    method DeleteFromHere(id: string, messageId: string, now: string) returns (r: Result)
      requires store.Valid()
      modifies this, store
      ensures store.Valid() && |old(calls)| <= |calls|
      ensures r == Deletion(script, landing, |old(calls)|, old(store.sessions), id, messageId, now).result
      ensures calls == old(calls) + Deletion(script, landing, |old(calls)|, old(store.sessions), id, messageId,
                                             now).calls
      ensures r.Done? ==> ShowsPrefix(script, |old(calls)|, calls[|old(calls)|..], messageId, r.record)
      ensures store.sessions == Deletion(script, landing, |old(calls)|, old(store.sessions), id, messageId,
                                         now).sessions
    {
      hide Deletion, ShowsPrefix;
      ghost var before, sessions := calls, store.sessions;
      r := ForkAndRepoint(id, messageId, now);
      if r.Done? {
        RepointedToPrefix(script, landing, |before|, sessions, id, messageId, now);
      }
    }

    method ForkAndRepoint(id: string, messageId: string, now: string) returns (r: Result)
      requires store.Valid()
      modifies this, store
      ensures store.Valid()
      ensures var e := Deletion(script, landing, |old(calls)|, old(store.sessions), id, messageId, now);
              r == e.result && calls == old(calls) + e.calls && store.sessions == e.sessions
    {
      hide Preserving, S.AppliedAll, Landed, Signatures;
      ghost var before, sessions := calls, store.sessions;
      if id !in store.sessions || store.sessions[id].deleted {
        assert before + [] == before;
        return Missing;
      }
      var record := store.sessions[id];
      StartsEmpty(before, sessions);
      var reply := Await(List(record.upstream), before, sessions, []);
      assert [] + [List(record.upstream)] == [List(record.upstream)];
      if !reply.Answered? {
        return if reply == Refused(404) then Missing else Unavailable;
      }
      var idx := FindMessageIndex(reply.messages, messageId);
      if idx < 0 {
        return Missing;
      }
      var outcome := ForkSessionPreservingPrefix(record.upstream, reply.messages, idx, record.title, before, sessions,
                                                 [List(record.upstream)]);
      match outcome
      case Accepted(fork, messages) =>
        S.KeepsKeys(sessions, Landed(landing, |before|, |calls|), id);
        var done := store.ReplaceOpencodeSessionAfterMutation(id, fork, |messages|, LastText(messages), now);
        r := if done.Repointed? then Done(done.record) else GoneMeanwhile;
      case Conflict(_) => r := Mismatch;
      case BadGateway => r := Unavailable;
      case NotFound => r := Missing;
    }

    lemma StartsEmpty(before: seq<Call>, sessions: S.Index)
      requires store.Valid() && calls == before && store.sessions == sessions
      ensures Since(before, sessions, [])
    {
    }
  }

  /** A search with attempts and calls made before it. */
  ghost function Joined(attempts: seq<Attempt>, calls: seq<Call>, rest: Search): (r: Search) {
    Search(attempts + rest.attempts, rest.accepted, calls + rest.calls)
  }

  lemma Associates(a: seq<Call>, b: seq<Call>, c: seq<Call>)
    ensures a + b + c == a + (b + c)
  {
  }

  lemma SearchStarts(script: Script, n: nat, session: string, wanted: seq<Signature>, cs: seq<Candidate>,
                     made: seq<Call>)
    ensures made + [] == made
    ensures TryAll(script, n, session, wanted, cs) == Joined([], [], TryAll(script, n, session, wanted, cs[0..]))
  {
    hide TryAll;
    assert cs[0..] == cs;
  }

  lemma SearchSteps(script: Script, n: nat, session: string, wanted: seq<Signature>, cs: seq<Candidate>, i: nat,
                    attempts: seq<Attempt>, calls: seq<Call>)
    requires i < |cs|
    ensures var t := TryOne(script, n, session, wanted, cs[i]);
            Joined(attempts, calls, TryAll(script, n, session, wanted, cs[i..]))
            == if t.attempt.verdict.Matched?
               then Search(attempts + [t.attempt], Some((t.session, t.messages)), calls + t.calls)
               else Joined(attempts + [t.attempt], calls + t.calls,
                           TryAll(script, n + |t.calls|, session, wanted, cs[i + 1..]))
  {
    hide TryOne;
    assert cs[i..][1..] == cs[i + 1..];
    var t := TryOne(script, n, session, wanted, cs[i]);
    var rest := TryAll(script, n + |t.calls|, session, wanted, cs[i + 1..]);
    Associates(calls, t.calls, rest.calls);
    assert attempts + ([t.attempt] + rest.attempts) == attempts + [t.attempt] + rest.attempts;
  }

  lemma SearchEnds(script: Script, n: nat, session: string, wanted: seq<Signature>, cs: seq<Candidate>,
                   attempts: seq<Attempt>, calls: seq<Call>)
    requires cs == []
    ensures Joined(attempts, calls, TryAll(script, n, session, wanted, cs)) == Search(attempts, None, calls)
  {
  }

  function LastText(messages: seq<Message>): (r: string) {
    if messages == [] then "" else messages[|messages| - 1].text
  }

  datatype Result = Done(record: S.Record) | Missing | Unavailable | Mismatch | GoneMeanwhile

  datatype Effect = Effect(result: Result, calls: seq<Call>, sessions: S.Index)

  /** The whole deletion: the plan, what landed meanwhile, and the one write of its own. */
  function Deletion(script: Script, landing: Landing, n: nat, sessions: S.Index, id: string, messageId: string,
                    now: string): (e: Effect) {
    if id !in sessions || sessions[id].deleted then Effect(Missing, [], sessions)
    else
      var p := Plan(script, n, sessions[id], messageId);
      var meanwhile := S.AppliedAll(sessions, Landed(landing, n, n + |p.calls|));
      match p.outcome
      case NotFound => Effect(Missing, p.calls, meanwhile)
      case BadGateway => Effect(Unavailable, p.calls, meanwhile)
      case Conflict(_) => Effect(Mismatch, p.calls, meanwhile)
      case Accepted(fork, messages) =>
        var after := S.Applied(meanwhile, S.Replace(id, fork, |messages|, LastText(messages), now));
        Effect(if id in after && !after[id].deleted then Done(after[id]) else GoneMeanwhile, p.calls, after)
  }

  /** What is known of a session a deletion repoints a record to: it was made for it and listed by its last call, with
      exactly the messages before the first one with the given id. */
  ghost predicate ShowsPrefix(script: Script, n: nat, calls: seq<Call>, messageId: string, record: S.Record) {
    && script(n).Answered? && |calls| > 0 && script(n + |calls| - 1).Answered?
    && var messages := script(n).messages;
       var listed := script(n + |calls| - 1).messages;
       var idx := Index(messages, messageId);
       && 0 <= idx == |listed| == record.messageCount && LooksLike(listed, messages[..idx])
       && record.lastMessage == (if idx == 0 then "" else listed[idx - 1].text)
       && ListedAs(script, n, calls, |calls| - 1, record.upstream, listed, Signatures(messages[..idx]))
  }

  /** A deletion that succeeds has repointed the record to a session that shows exactly the messages before the target,
      whatever the upstream answers and whatever else lands meanwhile, other replacements included. */
  lemma RepointedToPrefix(script: Script, landing: Landing, n: nat, sessions: S.Index, id: string, messageId: string,
                          now: string)
    requires Deletion(script, landing, n, sessions, id, messageId, now).result.Done?
    ensures var e := Deletion(script, landing, n, sessions, id, messageId, now);
            id in e.sessions && e.result.record == e.sessions[id]
            && ShowsPrefix(script, n, e.calls, messageId, e.sessions[id])
  {
    hide Plan, S.AppliedAll, Landed, ListedAs, LooksLike;
    AcceptedPreservesPrefix(script, n, sessions[id], messageId);
    AcceptedIsListed(script, n, sessions[id], messageId);
    AcceptedLooks(script, n, sessions[id], messageId);
  }

  lemma AcceptedLooks(script: Script, n: nat, record: S.Record, messageId: string)
    ensures var p := Plan(script, n, record, messageId);
            p.outcome.Accepted? ==>
              script(n).Answered? && 0 <= Index(script(n).messages, messageId)
              && LooksLike(p.outcome.messages, script(n).messages[..Index(script(n).messages, messageId)])
  {
    hide Plan, LooksLike, Signatures;
    AcceptedPreservesPrefix(script, n, record, messageId);
    var p := Plan(script, n, record, messageId);
    if p.outcome.Accepted? {
      SignaturesLook(p.outcome.messages, script(n).messages[..Index(script(n).messages, messageId)]);
    }
  }

  /** Two lists of messages look the same to a reader: as many, with the same roles and the same texts in the same
      places, up to line ends and white space around a text. */
  ghost predicate LooksLike(a: seq<Message>, b: seq<Message>) {
    |a| == |b|
    && forall i :: 0 <= i < |a| ==>
         a[i].role == b[i].role && PyText.Strip(UnixLines(a[i].text)) == PyText.Strip(UnixLines(b[i].text))
  }

  lemma SignaturesLook(a: seq<Message>, b: seq<Message>)
    ensures Signatures(a) == Signatures(b) <==> LooksLike(a, b)
  {
    hide Signatures, PyText.Strip, UnixLines;
    if |a| == |b| {
      forall i | 0 <= i < |a|
        ensures Signatures(a)[i] == Signatures(b)[i] <==>
                a[i].role == b[i].role && PyText.Strip(UnixLines(a[i].text)) == PyText.Strip(UnixLines(b[i].text))
      {
        SignatureAt(a, i);
        SignatureAt(b, i);
      }
      assert Signatures(a) == Signatures(b) <==> forall i :: 0 <= i < |a| ==> Signatures(a)[i] == Signatures(b)[i];
    }
  }

  lemma SignatureAt(a: seq<Message>, i: nat)
    requires i < |a|
    ensures Signatures(a)[i] == Signature(a[i].role, PyText.Strip(UnixLines(a[i].text)))
  {
    hide PyText.Strip, UnixLines;
  }

  lemma AcceptedIsListed(script: Script, n: nat, record: S.Record, messageId: string)
    ensures var p := Plan(script, n, record, messageId);
            p.outcome.Accepted? ==> |p.calls| > 1 && script(n + |p.calls| - 1).Answered?
                                    && script(n + |p.calls| - 1).messages == p.outcome.messages
                                    && script(n).Answered?
                                    && |p.outcome.messages| == Index(script(n).messages, messageId)
  {
    hide Plan;
    AcceptedPreservesPrefix(script, n, record, messageId);
  }

  /** Every failing path leaves the record's upstream session as it was, if no other replacement of it lands
      meanwhile. */
  lemma FailureKeepsUpstream(script: Script, landing: Landing, n: nat, sessions: S.Index, id: string,
                             messageId: string, now: string)
    requires id in sessions && !Deletion(script, landing, n, sessions, id, messageId, now).result.Done?
    requires forall i: nat, op :: op in landing(i) ==> !(op.Replace? && op.id == id)
    ensures var e := Deletion(script, landing, n, sessions, id, messageId, now);
            id in e.sessions && e.sessions[id].upstream == sessions[id].upstream
  {
    hide Plan, S.AppliedAll, Landed;
    if !sessions[id].deleted {
      var p := Plan(script, n, sessions[id], messageId);
      LandedFrom(landing, n, n + |p.calls|, id);
      S.UpstreamStays(sessions, Landed(landing, n, n + |p.calls|), id);
    }
  }

  lemma {:induction false} LandedFrom(landing: Landing, n: nat, m: nat, id: string)
    requires forall i: nat, op :: op in landing(i) ==> !(op.Replace? && op.id == id)
    ensures forall op :: op in Landed(landing, n, m) ==> !(op.Replace? && op.id == id)
    decreases m
  {
    if n < m {
      LandedFrom(landing, n, m - 1, id);
    }
  }

  /** All that a commit may change: four fields of one record that is there, its name not among them. */
  ghost predicate OnlyCommitted(meanwhile: S.Index, after: S.Index, id: string, done: bool) {
    && after.Keys == meanwhile.Keys && id in meanwhile
    && (forall k :: k in meanwhile && k != id ==> after[k] == meanwhile[k])
    && (if done then !meanwhile[id].deleted else after == meanwhile)
    && var r, s := meanwhile[id], after[id];
       s == r.(upstream := s.upstream, messageCount := s.messageCount, lastMessage := s.lastMessage,
               updatedAt := s.updatedAt)
       && S.DisplayName(s) == S.DisplayName(r)
  }

  /** What the store would hold without the deletion's own commit. */
  function Meanwhile(script: Script, landing: Landing, n: nat, sessions: S.Index, e: Effect): (r: S.Index) {
    S.AppliedAll(sessions, Landed(landing, n, n + |e.calls|))
  }

  lemma CommitChangesLittle(meanwhile: S.Index, id: string, fork: string, count: nat, text: string, now: string)
    requires id in meanwhile
    ensures var after := S.Applied(meanwhile, S.Replace(id, fork, count, text, now));
            id in after && after[id].deleted == meanwhile[id].deleted
                && OnlyCommitted(meanwhile, after, id, !after[id].deleted)
  {
    hide S.CleanName;
  }

  lemma NothingChanges(meanwhile: S.Index, id: string)
    requires id in meanwhile
    ensures OnlyCommitted(meanwhile, meanwhile, id, false)
  {
    hide S.DisplayName;
  }

  /** A rename, a title or a chat that lands during the awaits is kept, and a record deleted meanwhile is not
      repointed. */
  lemma WhatLandsIsKept(script: Script, landing: Landing, n: nat, sessions: S.Index, id: string, messageId: string,
                        now: string)
    requires id in sessions
    ensures var e := Deletion(script, landing, n, sessions, id, messageId, now);
            OnlyCommitted(Meanwhile(script, landing, n, sessions, e), e.sessions, id, e.result.Done?)
  {
    hide Plan, Landed, S.AppliedAll, S.Applied, OnlyCommitted;
    NothingLanded(landing, n, sessions);
    if sessions[id].deleted {
      NothingChanges(sessions, id);
    } else {
      var p := Plan(script, n, sessions[id], messageId);
      var meanwhile := S.AppliedAll(sessions, Landed(landing, n, n + |p.calls|));
      S.KeepsKeys(sessions, Landed(landing, n, n + |p.calls|), id);
      if p.outcome.Accepted? {
        CommitChangesLittle(meanwhile, id, p.outcome.session, |p.outcome.messages|, LastText(p.outcome.messages), now);
      } else {
        NothingChanges(meanwhile, id);
      }
    }
  }

  lemma NothingLanded(landing: Landing, n: nat, sessions: S.Index)
    ensures S.AppliedAll(sessions, Landed(landing, n, n)) == sessions
  {
  }
}
