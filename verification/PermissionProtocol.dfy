/**
 Answering a permission (permissions_api.py): handlers claim the pending permission, await the
 upstream call and then clear or release it, while events of the bus change the same slots.

 A state holds the board, the handlers waiting for the upstream, and two records kept for the proof:
 which responses succeeded and which permissions a slot has held and
 lost. */
module PermissionProtocol {
  import opened Seqs
  import opened PyText
  import opened PendingInput

  /** A permission as a session sees it. */
  datatype Key = Key(session: string, id: string)

  datatype Proto = Proto(board: Board, flying: map<nat, Key>, answered: map<Key, nat>, displaced: set<Key>)

  datatype Decision = Approve | Deny

  /** A request to answer a session's permission, with a body that is a JSON object or not; `sessionRecord` is what the
      session store knows of it. */
  datatype Reply = Reply(session: string, isObject: bool, requestedId: string, decision: string,
                         sessionRecord: Option<string>)

  datatype Move =
    | Bus(event: Event)
    | Respond(handler: nat, reply: Reply)
    | Succeed(handler: nat)
    | Fail(handler: nat)
    | Abandon(handler: nat)    // the waiting handler is cancelled: it neither clears nor releases

  function DecisionOf(text: string): (d: Option<Decision>) {
    var word := Lower(Strip(text));
    if word in {"approve", "approved", "allow", "allowed", "accept", "accepted"} then Some(Approve)
    else if word in {"deny", "denied", "reject", "rejected"} then Some(Deny)
    else None
  }

  ghost predicate Holds(b: Board, k: Key) {
    k.session in b.slots && b.slots[k.session].id == k.id
  }

  /** The permissions pending before a step and not after it. */
  ghost function Lost(before: Board, after: Board): (keys: set<Key>)
    ensures forall k :: k in keys <==> Holds(before, k) && !Holds(after, k)
  {
    set s | s in before.slots && !Holds(after, Key(s, before.slots[s].id)) :: Key(s, before.slots[s].id)
  }

  /** Whether a handler gets as far as the upstream call: every check passes and the claim is won. */
  predicate Accepts(b: Board, r: Reply) {
    var session := Strip(r.session);
    var wanted := Strip(r.requestedId);
    && session != "" && r.isObject && session in b.slots
    && (wanted == "" || wanted == b.slots[session].id)
    && DecisionOf(r.decision).Some?
    && !b.slots[session].claimed
    && (b.slots[session].opencodeSession != "" || r.sessionRecord.Some?)
  }

  /** What the bus is told after a success. */
  function ResolvedEvent(k: Key): (e: Event) {
    Event("permission_resolved", "", false, k.session, k.id, None, "", "")
  }

  /** The steps between two awaits, each of which runs undisturbed. */
  ghost function Next(p: Proto, m: Move): (q: Proto) {
    match m
    case Bus(e) =>
      var board := Observed(p.board, e);
      p.(board := board, displaced := p.displaced + Lost(p.board, board))
    case Respond(h, r) =>
      if h in p.flying || !Accepts(p.board, r) then p
      else
        var session := Strip(r.session);
        var id := p.board.slots[session].id;
        p.(board := Claimed(p.board, session, id), flying := p.flying[h := Key(session, id)])
    case Succeed(h) =>
      if h !in p.flying then p
      else
        var k := p.flying[h];
        var board := Observed(Cleared(p.board, k.session, k.id), ResolvedEvent(k));
        Proto(board, p.flying - {h}, p.answered[k := Answers(p, k) + 1], p.displaced + Lost(p.board, board))
    case Fail(h) =>
      if h !in p.flying then p
      else p.(board := Released(p.board, p.flying[h].session, p.flying[h].id), flying := p.flying - {h})
    case Abandon(h) =>
      p.(flying := p.flying - {h})
  }

  /** How many responses to a permission have succeeded. */
  ghost function Answers(p: Proto, k: Key): (n: nat) {
    if k in p.answered then p.answered[k] else 0
  }

  ghost predicate Flying(p: Proto, k: Key) {
    exists h :: h in p.flying && p.flying[h] == k
  }

  ghost predicate AtMostOnce(p: Proto) {
    && (forall h, g :: h in p.flying && g in p.flying && p.flying[h] == p.flying[g] ==> h == g)
    && (forall k :: Answers(p, k) <= 1)
  }

  ghost predicate Inv(p: Proto) {
    && WellFormed(p.board)
    && AtMostOnce(p)
    && (forall h :: h in p.flying && Holds(p.board, p.flying[h]) ==> p.board.slots[p.flying[h].session].claimed)
    && (forall h :: h in p.flying ==> p.flying[h].session != "" && p.flying[h].id != "" && Answers(p, p.flying[h]) == 0)
    && (forall h :: h in p.flying ==> Strip(p.flying[h].session) == p.flying[h].session)
    && (forall h :: h in p.flying ==> Holds(p.board, p.flying[h]) || p.flying[h] in p.displaced)
    && (forall k :: Answers(p, k) > 0 ==> !Holds(p.board, k) && k in p.displaced && Strip(k.session) == k.session)
  }

  function AnnouncedKey(e: Event): (k: Key)
    requires Announces(e)
  {
    Key(e.sessionId, RequestedId(e.request.value))
  }

  /** A permission that lost its slot is not announced again. */
  ghost predicate NoReannouncement(p: Proto, m: Move) {
    m.Bus? && Announces(m.event) ==> AnnouncedKey(m.event) !in p.displaced
  }

  /** The condition at-most-once really needs: an announcement must not bring back a permission
      that is being answered, or has been. */
  ghost predicate Guarded(p: Proto, m: Move) {
    m.Bus? && Announces(m.event) ==>
      var k := AnnouncedKey(m.event); Holds(p.board, k) || (!Flying(p, k) && Answers(p, k) == 0)
  }

  lemma NoReannouncementGuards(p: Proto, m: Move)
    requires Inv(p) && NoReannouncement(p, m)
    ensures Guarded(p, m)
  {
  }

  // --------------------------------------------------------- every step is safe

  /** Dropping slots, whatever drops them. */
  lemma LosingSlotsKeepsInv(p: Proto, board: Board)
    requires Inv(p) && WellFormed(board)
    requires forall s :: s in board.slots ==> s in p.board.slots && board.slots[s] == p.board.slots[s]
    ensures Inv(p.(board := board, displaced := p.displaced + Lost(p.board, board)))
  {
    hide WellFormed, Strip;
    var q := p.(board := board, displaced := p.displaced + Lost(p.board, board));
    assert forall k :: Answers(q, k) == Answers(p, k);
    assert forall k :: Holds(board, k) ==> Holds(p.board, k);
  }

  /** After an announcement its permission has the slot, claimed only if it was; whoever else has one had it before. */
  lemma AnnouncementHolders(b: Board, e: Event)
    requires WellFormed(b) && Announces(e)
    ensures var t := Observed(b, e); var k := AnnouncedKey(e);
            && WellFormed(t) && Holds(t, k)
            && (forall j :: Holds(t, j) && j != k ==> Holds(b, j) && t.slots[j.session] == b.slots[j.session])
            && (Holds(b, k) ==> t.slots[k.session].claimed == b.slots[k.session].claimed)
  {
    hide Announces, Clears, WellFormed, Observed, Remove, RequestedId;
    AnnouncementFits(b, e);
  }

  /** One permission gets or keeps its slot, and others may lose theirs. */
  lemma TakingSlotKeepsInv(p: Proto, board: Board, k: Key)
    requires Inv(p) && WellFormed(board)
    requires forall j :: Holds(board, j) && j != k ==>
               Holds(p.board, j) && board.slots[j.session] == p.board.slots[j.session]
    requires Holds(p.board, k) || (!Flying(p, k) && Answers(p, k) == 0)
    requires Holds(p.board, k) && Holds(board, k) ==> board.slots[k.session].claimed == p.board.slots[k.session].claimed
    ensures Inv(p.(board := board, displaced := p.displaced + Lost(p.board, board)))
  {
    hide WellFormed, Holds, Strip;
    var q := p.(board := board, displaced := p.displaced + Lost(p.board, board));
    assert forall j :: Answers(q, j) == Answers(p, j);
  }

  lemma AnnouncementKeepsInv(p: Proto, e: Event)
    requires Inv(p) && Announces(e) && Guarded(p, Bus(e))
    ensures Inv(Next(p, Bus(e)))
  {
    BoardFits(p);
    AnnouncementHolders(p.board, e);
    hide Announces, WellFormed, Observed, Holds, Lost, Inv, AnnouncedKey;
    TakingSlotKeepsInv(p, Observed(p.board, e), AnnouncedKey(e));
  }

  lemma BusKeepsInv(p: Proto, e: Event)
    requires Inv(p) && Guarded(p, Bus(e))
    ensures Inv(Next(p, Bus(e)))
  {
    hide Announces, Clears, Cleared, Guarded;
    if Announces(e) {
      AnnouncementKeepsInv(p, e);
    } else {
      ClearedFits(p.board, e.sessionId, if Among(e, RESOLVED_KINDS) then e.permissionId else "");
      LosingSlotsKeepsInv(p, Observed(p.board, e));
    }
  }

  /** Claiming and releasing change only the claim. */
  lemma ClaimFits(b: Board, k: Key)
    requires WellFormed(b)
    ensures WellFormed(Claimed(b, k.session, k.id)) && WellFormed(Released(b, k.session, k.id))
  {
    hide NoDup;
  }

  lemma ClaimKeepsHolders(b: Board, k: Key)
    ensures forall j :: Holds(Claimed(b, k.session, k.id), j) <==> Holds(b, j)
    ensures forall j :: Holds(Released(b, k.session, k.id), j) <==> Holds(b, j)
  {
  }

  lemma RespondKeepsInv(p: Proto, h: nat, r: Reply)
    requires Inv(p)
    ensures Inv(Next(p, Respond(h, r)))
  {
    hide DecisionOf, Strip, WellFormed, Claimed, Inv;
    if h !in p.flying && Accepts(p.board, r) {
      var session := Strip(r.session);
      BoardFits(p);
      SlotIdsArePresent(p.board, session);
      StripTwice(r.session);
      TakeoffKeepsInv(p, h, Key(session, p.board.slots[session].id));
    }
  }

  lemma BoardFits(p: Proto)
    requires Inv(p)
    ensures WellFormed(p.board)
  {
  }

  lemma TakeoffKeepsInv(p: Proto, h: nat, k: Key)
    requires Inv(p) && h !in p.flying && Claimable(p.board, k.session, k.id) && k.session != "" && k.id != ""
    requires Strip(k.session) == k.session
    ensures Inv(p.(board := Claimed(p.board, k.session, k.id), flying := p.flying[h := k]))
  {
    hide WellFormed, Strip;
    ClaimFits(p.board, k);
    ClaimKeepsHolders(p.board, k);
    var q := p.(board := Claimed(p.board, k.session, k.id), flying := p.flying[h := k]);
    assert forall j :: Answers(q, j) == Answers(p, j);
    assert Holds(p.board, k) && Answers(p, k) == 0;
    hide Holds, Answers;
  }

  lemma SlotIdsArePresent(b: Board, session: string)
    requires WellFormed(b) && session in b.slots
    ensures b.slots[session].id != ""
  {
  }

  lemma FailKeepsInv(p: Proto, h: nat)
    requires Inv(p)
    ensures Inv(Next(p, Fail(h)))
  {
    hide WellFormed, Strip, Observed, Cleared, Lost;
    if h in p.flying {
      ClaimFits(p.board, p.flying[h]);
      ClaimKeepsHolders(p.board, p.flying[h]);
    }
    var q := Next(p, Fail(h));
    assert forall k :: Answers(q, k) == Answers(p, k);
    assert forall k :: Holds(q.board, k) <==> Holds(p.board, k);
  }

  lemma AbandonKeepsInv(p: Proto, h: nat)
    requires Inv(p)
    ensures Inv(Next(p, Abandon(h)))
  {
    hide WellFormed, Strip;
    assert forall k :: Answers(Next(p, Abandon(h)), k) == Answers(p, k);
  }

  lemma HandlerKeepsInv(p: Proto, m: Move)
    requires Inv(p) && !m.Bus?
    ensures Inv(Next(p, m))
  {
    hide Inv;
    match m
    case Respond(h, r) => RespondKeepsInv(p, h, r);
    case Succeed(h) =>
      if h in p.flying {
        SuccessKeepsInv(p, h);
      }
    case Fail(h) => FailKeepsInv(p, h);
    case Abandon(h) => AbandonKeepsInv(p, h);
  }

  /** A success clears its permission, and the event it publishes then finds nothing to clear. */
  lemma SuccessClears(b: Board, k: Key)
    requires WellFormed(b) && k.session != "" && k.id != ""
    ensures Observed(Cleared(b, k.session, k.id), ResolvedEvent(k)) == Cleared(b, k.session, k.id)
    ensures !Holds(Cleared(b, k.session, k.id), k)
  {
    ClearedFits(b, k.session, k.id);
  }

  lemma FlyingFits(p: Proto, h: nat)
    requires Inv(p) && h in p.flying
    ensures WellFormed(p.board) && p.flying[h].session != "" && p.flying[h].id != ""
    ensures Strip(p.flying[h].session) == p.flying[h].session
  {
  }

  /** The board and the flight after a success, in two steps: the slot goes, then the answer counts. */
  lemma SuccessSplits(p: Proto, h: nat)
    requires h in p.flying
    requires var k := p.flying[h];
             Observed(Cleared(p.board, k.session, k.id), ResolvedEvent(k)) == Cleared(p.board, k.session, k.id)
    ensures var k := p.flying[h];
            var board := Cleared(p.board, k.session, k.id);
            var q := p.(board := board, displaced := p.displaced + Lost(p.board, board));
            Next(p, Succeed(h)) == q.(flying := q.flying - {h}, answered := q.answered[k := Answers(q, k) + 1])
  {
    hide Cleared, Observed, Lost;
  }

  lemma SuccessKeepsInv(p: Proto, h: nat)
    requires Inv(p) && h in p.flying
    ensures Inv(Next(p, Succeed(h)))
  {
    hide Inv, Next, Cleared, WellFormed, Observed, Holds, Lost;
    var k := p.flying[h];
    FlyingFits(p, h);
    ClearedFits(p.board, k.session, k.id);
    SuccessClears(p.board, k);
    SuccessSplits(p, h);
    var board := Cleared(p.board, k.session, k.id);
    LosingSlotsKeepsInv(p, board);
    AnswerKeepsInv(p.(board := board, displaced := p.displaced + Lost(p.board, board)), h);
  }

  /** Counting the success of a permission that no longer has its slot. */
  lemma AnswerKeepsInv(p: Proto, h: nat)
    requires Inv(p) && h in p.flying && !Holds(p.board, p.flying[h])
    ensures Inv(p.(flying := p.flying - {h}, answered := p.answered[p.flying[h] := Answers(p, p.flying[h]) + 1]))
  {
    hide WellFormed, Holds, Strip;
    var k := p.flying[h];
    var q := p.(flying := p.flying - {h}, answered := p.answered[k := Answers(p, k) + 1]);
    assert forall g :: g in q.flying ==> g in p.flying && p.flying[g] != k;
    assert forall j :: Answers(q, j) == if j == k then 1 else Answers(p, j);
  }

  ghost function Run(p: Proto, moves: seq<Move>): (q: Proto)
    decreases |moves|
  {
    if moves == [] then p else Run(Next(p, moves[0]), moves[1..])
  }

  ghost predicate GuardedRun(p: Proto, moves: seq<Move>)
    decreases |moves|
  {
    moves == [] || (Guarded(p, moves[0]) && GuardedRun(Next(p, moves[0]), moves[1..]))
  }

  /** No permission that lost its slot is announced again, anywhere in the run. */
  ghost predicate NeverReannounced(p: Proto, moves: seq<Move>)
    decreases |moves|
  {
    moves == [] || (NoReannouncement(p, moves[0]) && NeverReannounced(Next(p, moves[0]), moves[1..]))
  }

  lemma {:induction false} GuardedRunIsSafe(p: Proto, moves: seq<Move>)
    requires Inv(p) && GuardedRun(p, moves)
    ensures Inv(Run(p, moves))
    decreases |moves|
  {
    hide Inv, Next, Guarded;
    if moves != [] {
      if moves[0].Bus? {
        BusKeepsInv(p, moves[0].event);
      } else {
        HandlerKeepsInv(p, moves[0]);
      }
      GuardedRunIsSafe(Next(p, moves[0]), moves[1..]);
    }
  }

  ghost function Start(cap: nat): (p: Proto) {
    Proto(Board(cap, [], map[]), map[], map[], {})
  }

  /** Over every interleaving of handlers and bus events in which no displaced permission is announced again,
      at most one response to a permission is in flight and at most one succeeds. */
  lemma {:induction false} AtMostOneResponse(cap: nat, moves: seq<Move>)
    requires cap >= 1 && NeverReannounced(Start(cap), moves)
    ensures AtMostOnce(Run(Start(cap), moves)) && Inv(Run(Start(cap), moves))
  {
    assert Inv(Start(cap));
    NeverReannouncedGuards(Start(cap), moves);
    GuardedRunIsSafe(Start(cap), moves);
  }

  lemma {:induction false} NeverReannouncedGuards(p: Proto, moves: seq<Move>)
    requires Inv(p) && NeverReannounced(p, moves)
    ensures GuardedRun(p, moves)
    decreases |moves|
  {
    hide Inv, Next, Guarded, NoReannouncement;
    if moves != [] {
      NoReannouncementGuards(p, moves[0]);
      if moves[0].Bus? {
        BusKeepsInv(p, moves[0].event);
      } else {
        HandlerKeepsInv(p, moves[0]);
      }
      NeverReannouncedGuards(Next(p, moves[0]), moves[1..]);
    }
  }

  // ------------------------------------------------------- the guard is exact

  ghost predicate HandlersOnly(moves: seq<Move>) {
    forall m :: m in moves ==> !m.Bus?
  }

  lemma {:induction false} HandlersAreGuarded(p: Proto, moves: seq<Move>)
    requires HandlersOnly(moves)
    ensures GuardedRun(p, moves)
    decreases |moves|
  {
    if moves != [] {
      HandlersAreGuarded(Next(p, moves[0]), moves[1..]);
    }
  }

  /** A reply that passes every check as long as the session's permission is unclaimed. */
  function GoodReply(session: string): (r: Reply) {
    Reply(session, true, "", "approve", Some(""))
  }

  lemma ApproveIsADecision()
    ensures DecisionOf("approve") == Some(Approve)
  {
    TrimFixpoint("approve", IsSpace);
    assert Lower("approve") == "approve";
  }

  lemma GoodReplyAccepted(b: Board, session: string)
    requires Strip(session) == session && session != "" && session in b.slots && !b.slots[session].claimed
    ensures Accepts(b, GoodReply(session))
  {
    hide DecisionOf;
    ApproveIsADecision();
    TrimFixpoint("", IsSpace);
  }

  /** A good reply to an unclaimed slot takes off. */
  lemma GoodReplyTakesOff(q: Proto, k: Key, g: nat)
    requires Strip(k.session) == k.session && k.session != "" && g !in q.flying
    requires Holds(q.board, k) && !q.board.slots[k.session].claimed
    ensures Next(q, Respond(g, GoodReply(k.session))).flying == q.flying[g := k]
    ensures Next(q, Respond(g, GoodReply(k.session))).answered == q.answered
  {
    hide Strip, Accepts, Claimed, GoodReply;
    GoodReplyAccepted(q.board, k.session);
    GoodReplySession(k.session);
  }

  /** Handlers strip the session they answer, so a guard can only fail for a session that strips to itself. */
  lemma UnguardedIsStripped(p: Proto, e: Event)
    requires Inv(p) && !Guarded(p, Bus(e))
    ensures Strip(e.sessionId) == e.sessionId
  {
    hide WellFormed, Strip;
  }

  /** After an unguarded announcement any new handler can start a response to the permission. */
  lemma UnguardedIsAccepted(p: Proto, e: Event, h: nat)
    requires Inv(p) && !Guarded(p, Bus(e)) && h !in p.flying
    ensures var k := AnnouncedKey(e); var q := Next(p, Bus(e));
            && (Flying(p, k) || Answers(p, k) > 0)
            && q.flying == p.flying && q.answered == p.answered
            && Next(q, Respond(h, GoodReply(k.session))).flying == q.flying[h := k]
            && Next(q, Respond(h, GoodReply(k.session))).answered == q.answered
  {
    hide WellFormed, Strip, GoodReply, Observed, Accepts, Lost;
    AnnouncementFits(p.board, e);
    UnguardedIsStripped(p, e);
    GoodReplyTakesOff(Next(p, Bus(e)), AnnouncedKey(e), h);
  }

  lemma GoodReplySession(session: string)
    ensures GoodReply(session).session == session
  {
  }

  lemma SuccessCounts(p: Proto, h: nat)
    requires h in p.flying
    ensures Answers(Next(p, Succeed(h)), p.flying[h]) == Answers(p, p.flying[h]) + 1
  {
    hide Observed, Cleared, ResolvedEvent;
  }

  lemma FliesTwice(q: Proto, m: Move, h: nat, k: Key)
    requires h !in q.flying && Flying(q, k) && Next(q, m).flying == q.flying[h := k]
    ensures !AtMostOnce(Run(q, [m]))
  {
    hide Next;
    var r := Next(q, m);
    assert Run(q, [m]) == Run(r, []) == r;
    var g :| g in q.flying && q.flying[g] == k;
    assert r.flying[g] == r.flying[h];
  }

  lemma SucceedsTwice(q: Proto, m: Move, h: nat, k: Key)
    requires Answers(q, k) > 0 && Next(q, m).answered == q.answered && Next(q, m).flying == q.flying[h := k]
    ensures !AtMostOnce(Run(q, [m, Succeed(h)]))
  {
    hide Next;
    var r := Next(q, m);
    assert [m, Succeed(h)][1..] == [Succeed(h)] && [Succeed(h)][1..] == [];
    assert Run(q, [m, Succeed(h)]) == Run(r, [Succeed(h)]) == Run(Next(r, Succeed(h)), []);
    SuccessCounts(r, h);
  }

  /** After an unguarded announcement, handlers alone can answer the permission twice. */
  lemma UnguardedAnswersTwice(p: Proto, e: Event) returns (moves: seq<Move>)
    requires Inv(p) && !Guarded(p, Bus(e))
    ensures HandlersOnly(moves) && !AtMostOnce(Run(Next(p, Bus(e)), moves))
  {
    hide Next, Run, AtMostOnce, Inv, AnnouncedKey, GoodReply;
    var k, q := AnnouncedKey(e), Next(p, Bus(e));
    var h := FreshHandler(p.flying.Keys);
    var m := Respond(h, GoodReply(k.session));
    UnguardedIsAccepted(p, e, h);
    if Flying(p, k) {
      moves := [m];
      FliesTwice(q, m, h, k);
    } else {
      moves := [m, Succeed(h)];
      SucceedsTwice(q, m, h, k);
    }
  }

  lemma {:induction false} FreshHandler(used: set<nat>) returns (h: nat)
    ensures forall i :: i in used ==> i < h
    decreases used
  {
    if used == {} {
      return 0;
    }
    var i :| i in used;
    var rest := used - {i};
    var above := FreshHandler(rest);
    h := if i < above then above else i + 1;
    assert forall j :: j in used ==> j == i || j in rest;
  }

  lemma GuardedStaysSafe(p: Proto, e: Event, moves: seq<Move>)
    requires Inv(p) && Guarded(p, Bus(e)) && HandlersOnly(moves)
    ensures AtMostOnce(Run(Next(p, Bus(e)), moves))
  {
    hide Next, Guarded;
    BusKeepsInv(p, e);
    HandlersAreGuarded(Next(p, Bus(e)), moves);
    GuardedRunIsSafe(Next(p, Bus(e)), moves);
  }

  /** Whatever the handlers do from here, no permission is answered twice. */
  ghost predicate HandlersStaySafe(p: Proto) {
    forall moves :: HandlersOnly(moves) ==> AtMostOnce(Run(p, moves))
  }

  lemma GuardedIsSafe(p: Proto, e: Event)
    requires Inv(p) && Guarded(p, Bus(e))
    ensures HandlersStaySafe(Next(p, Bus(e)))
  {
    forall moves | HandlersOnly(moves)
      ensures AtMostOnce(Run(Next(p, Bus(e)), moves))
    {
      GuardedStaysSafe(p, e, moves);
    }
  }

  /** Whether an event keeps at-most-once is decided by the guard. */
  lemma GuardIsExact(p: Proto, e: Event)
    requires Inv(p)
    ensures Guarded(p, Bus(e)) <==> HandlersStaySafe(Next(p, Bus(e)))
  {
    hide Inv, Next;
    var q := Next(p, Bus(e));
    if Guarded(p, Bus(e)) {
      GuardedIsSafe(p, e);
    } else {
      var moves := UnguardedAnswersTwice(p, e);
      assert HandlersOnly(moves);
      assert !AtMostOnce(Run(q, moves));
      assert HandlersStaySafe(q) ==> AtMostOnce(Run(q, moves));
    }
  }

  /** In every state the run goes through, whatever the handlers do from there is safe. */
  ghost predicate SafeThroughout(p: Proto, moves: seq<Move>)
    decreases |moves|
  {
    HandlersStaySafe(p) && (moves == [] || SafeThroughout(Next(p, moves[0]), moves[1..]))
  }

  lemma InvIsSafe(p: Proto)
    requires Inv(p)
    ensures HandlersStaySafe(p)
  {
    hide Inv;
    forall moves | HandlersOnly(moves) ensures AtMostOnce(Run(p, moves)) {
      HandlersAreGuarded(p, moves);
      GuardedRunIsSafe(p, moves);
      InvIsAtMostOnce(Run(p, moves));
    }
  }

  lemma InvIsAtMostOnce(p: Proto)
    requires Inv(p)
    ensures AtMostOnce(p)
  {
  }

  /** A run is guarded if and only if at-most-once is never at the handlers' mercy: from no state on the way can they
      answer a permission twice. */
  lemma {:induction false} GuardedRunIsExact(p: Proto, moves: seq<Move>)
    requires Inv(p)
    ensures GuardedRun(p, moves) <==> SafeThroughout(p, moves)
    decreases |moves|
  {
    hide Inv, Next, HandlersStaySafe, Guarded;
    InvIsSafe(p);
    if moves != [] {
      var m := moves[0];
      if !m.Bus? {
        HandlerIsGuarded(p, m);
        HandlerKeepsInv(p, m);
        GuardedRunIsExact(Next(p, m), moves[1..]);
      } else {
        GuardIsExact(p, m.event);
        if Guarded(p, m) {
          BusKeepsInv(p, m.event);
          GuardedRunIsExact(Next(p, m), moves[1..]);
        } else {
          UnsafeNow(Next(p, m), moves[1..]);
        }
      }
    }
  }

  lemma HandlerIsGuarded(p: Proto, m: Move)
    requires !m.Bus?
    ensures Guarded(p, m)
  {
  }

  lemma UnsafeNow(p: Proto, moves: seq<Move>)
    requires !HandlersStaySafe(p)
    ensures !SafeThroughout(p, moves)
  {
  }

  lemma FailLands(p: Proto, h: nat)
    requires Inv(p) && h in p.flying && Holds(p.board, p.flying[h])
    ensures var k := p.flying[h]; var q := Next(p, Fail(h));
            Holds(q.board, k) && !q.board.slots[k.session].claimed && q.flying == p.flying - {h} && !Flying(q, k)
  {
    hide WellFormed, Strip, Observed, Cleared;
  }

  /** A failed response leaves the permission, if it is still the pending one, open to the next response. */
  lemma FailureReopens(p: Proto, h: nat, g: nat)
    requires Inv(p) && h in p.flying && Holds(p.board, p.flying[h]) && g !in p.flying
    ensures var k := p.flying[h]; var q := Next(p, Fail(h));
            && !Flying(q, k)
            && Next(q, Respond(g, GoodReply(k.session))).flying == q.flying[g := k]
  {
    hide Inv, Next, Strip, GoodReply, WellFormed;
    FlyingFits(p, h);
    FailLands(p, h);
    GoodReplyTakesOff(Next(p, Fail(h)), p.flying[h], g);
  }

  // --------------------------------------------------------- a failing run

  function Announcement(session: string, id: string): (e: Event) {
    Event("permission.requested", "", false, session, "", Some(Request(id, "", "up")), "", "")
  }

  lemma AnnouncementAnnounces(session: string, id: string)
    requires session != "" && id != ""
    ensures Announces(Announcement(session, id)) && AnnouncedKey(Announcement(session, id)) == Key(session, id)
  {
  }

  lemma TakesSlot(p: Proto, k: Key)
    requires Inv(p) && k.session != "" && k.id != "" && !Flying(p, k) && Answers(p, k) == 0
    ensures var q := Next(p, Bus(Announcement(k.session, k.id)));
            Inv(q) && Holds(q.board, k) && q.flying == p.flying && q.answered == p.answered
    ensures var q := Next(p, Bus(Announcement(k.session, k.id)));
            && (!Holds(p.board, k) ==> !q.board.slots[k.session].claimed)
            && (forall j :: Holds(q.board, j) ==> j == k || Holds(p.board, j))
            && (forall j :: j in q.displaced ==> j in p.displaced || Holds(p.board, j))
  {
    var e := Announcement(k.session, k.id);
    AnnouncementAnnounces(k.session, k.id);
    BoardFits(p);
    AnnouncementFits(p.board, e);
    AnnouncementHolders(p.board, e);
    hide Inv, WellFormed, Observed, Announces, Clears;
    BusKeepsInv(p, e);
  }

  lemma ReplyKeepsHolders(p: Proto, h: nat, r: Reply)
    ensures var q := Next(p, Respond(h, r));
            q.displaced == p.displaced && forall j :: Holds(q.board, j) <==> Holds(p.board, j)
  {
    hide Strip, DecisionOf;
  }

  lemma StartFits(cap: nat)
    requires cap >= 1
    ensures Inv(Start(cap))
  {
  }

  /** The guard can fail: one permission is announced and being answered, another takes its slot, and the first is
      announced again. */
  lemma ReannouncementExample() returns (moves: seq<Move>)
    ensures var p := Run(Start(1), moves); var again := Announcement("s", "x");
            && Inv(p) && GuardedRun(Start(1), moves) && !Guarded(p, Bus(again))
            && !HandlersStaySafe(Next(p, Bus(again)))
  {
    hide Inv, Next, Guarded, GoodReply, Announcement, Run, GuardedRun, NeverReannounced;
    var x, y := Key("s", "x"), Key("s", "y");
    var p := Start(1);
    StartFits(1);
    TakesSlot(p, x);
    var p1 := Next(p, Bus(Announcement("s", "x")));
    StripsToItself();
    GoodReplyTakesOff(p1, x, 0);
    var m := Respond(0, GoodReply("s"));
    HandlerKeepsInv(p1, m);
    var p2 := Next(p1, m);
    TakesSlot(p2, y);
    var p3 := Next(p2, Bus(Announcement("s", "y")));
    moves := [Bus(Announcement("s", "x"))] + ([m] + ([Bus(Announcement("s", "y"))] + []));
    RunStep(p, Bus(Announcement("s", "x")), [m] + ([Bus(Announcement("s", "y"))] + []));
    RunStep(p1, m, [Bus(Announcement("s", "y"))] + []);
    RunStep(p2, Bus(Announcement("s", "y")), []);
    RunOver(p3);
    FreshIsGuarded(p, x);
    HandlerIsGuarded(p1, m);
    FreshIsGuarded(p2, y);
    FlyingIsUnguarded(p3, x);
    GuardIsExact(p3, Announcement("s", "x"));
  }

  lemma StripsToItself()
    ensures Strip("s") == "s" && Strip("t") == "t"
  {
    TrimFixpoint("s", IsSpace);
    TrimFixpoint("t", IsSpace);
  }

  lemma FreshIsGuarded(p: Proto, k: Key)
    requires k.session != "" && k.id != "" && !Flying(p, k) && Answers(p, k) == 0
    ensures Guarded(p, Bus(Announcement(k.session, k.id)))
  {
    AnnouncementAnnounces(k.session, k.id);
  }

  lemma FlyingIsUnguarded(p: Proto, k: Key)
    requires k.session != "" && k.id != "" && Flying(p, k) && !Holds(p.board, k)
    ensures !Guarded(p, Bus(Announcement(k.session, k.id)))
  {
    AnnouncementAnnounces(k.session, k.id);
  }

  lemma RunStep(p: Proto, m: Move, rest: seq<Move>)
    ensures Run(p, [m] + rest) == Run(Next(p, m), rest)
    ensures GuardedRun(p, [m] + rest) <==> Guarded(p, m) && GuardedRun(Next(p, m), rest)
    ensures NeverReannounced(p, [m] + rest) <==> NoReannouncement(p, m) && NeverReannounced(Next(p, m), rest)
  {
    hide Next, Guarded, NoReannouncement;
    assert ([m] + rest)[1..] == rest;
  }

  lemma RunOver(p: Proto)
    ensures Run(p, []) == p && GuardedRun(p, []) && NeverReannounced(p, [])
  {
  }

  // ----------------------------------------------------- a cancelled handler

  /** The pending permission is claimed, and nobody is answering it. */
  ghost predicate Stuck(p: Proto, k: Key) {
    Holds(p.board, k) && p.board.slots[k.session].claimed && !Flying(p, k)
  }

  /** What every run keeps, guarded or not. */
  ghost predicate Tidy(p: Proto) {
    WellFormed(p.board) && forall h :: h in p.flying ==> p.flying[h].session != "" && p.flying[h].id != ""
  }

  lemma CancellingSticks(p: Proto, h: nat)
    requires Inv(p) && h in p.flying && Holds(p.board, p.flying[h])
    ensures Tidy(Next(p, Abandon(h))) && Stuck(Next(p, Abandon(h)), p.flying[h])
  {
    hide WellFormed, Strip;
  }

  lemma NextKeepsTidy(p: Proto, m: Move)
    requires Tidy(p)
    ensures Tidy(Next(p, m))
  {
    hide WellFormed, Observed, Cleared, Strip, DecisionOf, Lost, ResolvedEvent, Claimed, Released;
    match m
    case Bus(e) => ObservedFits(p.board, e);
    case Respond(h, r) =>
      if h !in p.flying && Accepts(p.board, r) {
        SlotIdsArePresent(p.board, Strip(r.session));
        ClaimFits(p.board, Key(Strip(r.session), p.board.slots[Strip(r.session)].id));
      }
    case Succeed(h) =>
      if h in p.flying {
        var k := p.flying[h];
        ClearedFits(p.board, k.session, k.id);
        ObservedFits(Cleared(p.board, k.session, k.id), ResolvedEvent(k));
      }
    case Fail(h) =>
      if h in p.flying {
        ClaimFits(p.board, p.flying[h]);
      }
    case Abandon(h) =>
  }

  lemma EventKeepsClaim(b: Board, e: Event, k: Key)
    requires WellFormed(b) && Holds(b, k) && b.slots[k.session].claimed && Holds(Observed(b, e), k)
    ensures Observed(b, e).slots[k.session].claimed
  {
    hide Announces, Clears, Cleared, WellFormed, Evicted, RequestedId, Remove;
    if Announces(e) {
      AnnouncementFits(b, e);
    } else {
      ClearedFits(b, e.sessionId, if Among(e, RESOLVED_KINDS) then e.permissionId else "");
    }
  }

  /** Whatever happens next, the permission stays stuck or loses its slot. */
  lemma StuckStep(p: Proto, m: Move, k: Key)
    requires Tidy(p) && Stuck(p, k) && Holds(Next(p, m).board, k)
    ensures Stuck(Next(p, m), k)
  {
    hide WellFormed, Observed, Cleared, Strip, DecisionOf, Lost, ResolvedEvent;
    match m
    case Bus(e) => EventKeepsClaim(p.board, e, k);
    case Respond(h, r) =>
    case Succeed(h) =>
      if h in p.flying {
        var j := p.flying[h];
        SuccessClears(p.board, j);
        ClearedFits(p.board, j.session, j.id);
      }
    case Fail(h) =>
    case Abandon(h) =>
  }

  ghost predicate HoldsThroughout(p: Proto, moves: seq<Move>, k: Key)
    decreases |moves|
  {
    Holds(p.board, k) && (moves == [] || HoldsThroughout(Next(p, moves[0]), moves[1..], k))
  }

  lemma {:induction false} StuckWhileHeld(p: Proto, moves: seq<Move>, k: Key)
    requires Tidy(p) && Stuck(p, k) && HoldsThroughout(p, moves, k)
    ensures Stuck(Run(p, moves), k)
    decreases |moves|
  {
    hide Tidy, Stuck, Next, Holds;
    if moves != [] {
      HeldNow(Next(p, moves[0]), moves[1..], k);
      StuckStep(p, moves[0], k);
      NextKeepsTidy(p, moves[0]);
      StuckWhileHeld(Next(p, moves[0]), moves[1..], k);
    }
  }

  lemma HeldNow(p: Proto, moves: seq<Move>, k: Key)
    requires HoldsThroughout(p, moves, k)
    ensures Holds(p.board, k)
  {
  }

  lemma StuckRefuses(p: Proto, k: Key, g: nat, r: Reply)
    requires Stuck(p, k) && Strip(r.session) == k.session
    ensures Next(p, Respond(g, r)) == p
  {
    hide Strip, DecisionOf;
  }

  /** A handler that is cancelled while it waits neither clears nor releases: as long as the permission has its slot no
      reply to the session is accepted again, whatever events and handlers come in between. */
  lemma CancelledIsNeverAnswered(p: Proto, h: nat, moves: seq<Move>, g: nat, r: Reply)
    requires Inv(p) && h in p.flying && Strip(r.session) == p.flying[h].session
    requires HoldsThroughout(Next(p, Abandon(h)), moves, p.flying[h])
    ensures var q := Run(Next(p, Abandon(h)), moves); !Flying(q, p.flying[h]) && Next(q, Respond(g, r)) == q
  {
    var k, a := p.flying[h], Next(p, Abandon(h));
    HeldNow(a, moves, k);
    CancellingSticks(p, h);
    StuckWhileHeld(a, moves, k);
    StuckRefuses(Run(a, moves), k, g, r);
    hide Inv, Strip, Run, Observed, Cleared, WellFormed, Tidy;
  }

  // ------------------------------------------------------------ ids and sessions

  /** Every id in use belongs to the session `home` gives it. */
  ghost predicate AtHome(p: Proto, home: string -> string) {
    && (forall s :: s in p.board.slots ==> home(p.board.slots[s].id) == s)
    && (forall h :: h in p.flying ==> home(p.flying[h].id) == p.flying[h].session)
    && (forall k :: Answers(p, k) > 0 ==> home(k.id) == k.session)
  }

  /** Announcements of an id name its session. */
  ghost predicate AnnouncesAtHome(m: Move, home: string -> string) {
    m.Bus? && Announces(m.event) ==> home(AnnouncedKey(m.event).id) == m.event.sessionId
  }

  lemma EventStaysAtHome(b: Board, e: Event, home: string -> string)
    requires WellFormed(b) && AnnouncesAtHome(Bus(e), home)
    requires forall s :: s in b.slots ==> home(b.slots[s].id) == s
    ensures forall s :: s in Observed(b, e).slots ==> home(Observed(b, e).slots[s].id) == s
  {
    hide Clears, Cleared, WellFormed, Evicted, Remove, RequestedId;
    if Announces(e) {
      AnnouncementFits(b, e);
    } else {
      ClearedFits(b, e.sessionId, if Among(e, RESOLVED_KINDS) then e.permissionId else "");
    }
  }

  lemma NextStaysAtHome(p: Proto, m: Move, home: string -> string)
    requires Tidy(p) && AtHome(p, home) && AnnouncesAtHome(m, home)
    ensures AtHome(Next(p, m), home)
  {
    hide WellFormed, Observed, Cleared, Strip, DecisionOf, Lost;
    match m
    case Bus(e) =>
      EventStaysAtHome(p.board, e, home);
      assert forall k :: Answers(Next(p, m), k) == Answers(p, k);
    case Respond(h, r) => assert forall k :: Answers(Next(p, m), k) == Answers(p, k);
    case Succeed(h) =>
      if h in p.flying {
        SuccessClears(p.board, p.flying[h]);
        ClearedFits(p.board, p.flying[h].session, p.flying[h].id);
        assert forall k :: Answers(Next(p, m), k) > 0 ==> Answers(p, k) > 0 || k == p.flying[h];
      }
    case Fail(h) => assert forall k :: Answers(Next(p, m), k) == Answers(p, k);
    case Abandon(h) => assert forall k :: Answers(Next(p, m), k) == Answers(p, k);
  }

  lemma {:induction false} RunStaysAtHome(p: Proto, moves: seq<Move>, home: string -> string)
    requires Tidy(p) && AtHome(p, home) && forall m :: m in moves ==> AnnouncesAtHome(m, home)
    ensures AtHome(Run(p, moves), home)
    decreases |moves|
  {
    hide Tidy, AtHome, AnnouncesAtHome, Next;
    if moves != [] {
      NextStaysAtHome(p, moves[0], home);
      NextKeepsTidy(p, moves[0]);
      RunStaysAtHome(Next(p, moves[0]), moves[1..], home);
    }
  }

  /** At most one response to a permission id, whatever its session, is in flight or has succeeded. */
  ghost predicate AtMostOncePerId(p: Proto) {
    && (forall h, g :: h in p.flying && g in p.flying && p.flying[h].id == p.flying[g].id ==> h == g)
    && (forall j, k :: Answers(p, j) > 0 && Answers(p, k) > 0 && j.id == k.id ==> j == k)
    && (forall k :: Answers(p, k) <= 1)
    && (forall h, k :: h in p.flying && Answers(p, k) > 0 ==> p.flying[h].id != k.id)
  }

  lemma HomeMakesUnique(p: Proto, home: string -> string)
    requires Inv(p) && AtHome(p, home)
    ensures AtMostOncePerId(p)
  {
    hide WellFormed, Holds, Strip;
  }

  lemma StartIsTidy(cap: nat, home: string -> string)
    requires cap >= 1
    ensures Tidy(Start(cap)) && AtHome(Start(cap), home)
  {
  }

  /** When all announcements of an id name one session, no id is answered twice anywhere. */
  lemma OneAnswerPerId(cap: nat, moves: seq<Move>, home: string -> string)
    requires cap >= 1 && NeverReannounced(Start(cap), moves) && forall m :: m in moves ==> AnnouncesAtHome(m, home)
    ensures AtMostOncePerId(Run(Start(cap), moves))
  {
    hide Inv, Tidy, AtHome, AnnouncesAtHome, Run, NeverReannounced, AtMostOncePerId;
    AtMostOneResponse(cap, moves);
    StartIsTidy(cap, home);
    RunStaysAtHome(Start(cap), moves, home);
    HomeMakesUnique(Run(Start(cap), moves), home);
  }

  /** Announced in two sessions, one id can be answered in both. */
  lemma TwoSessionsExample() returns (moves: seq<Move>)
    ensures NeverReannounced(Start(2), moves) && !AtMostOncePerId(Run(Start(2), moves))
  {
    hide Inv, Next, GoodReply, Announcement, NoReannouncement, Run, NeverReannounced;
    var x, y := Key("s", "x"), Key("t", "x");
    var a, b := Bus(Announcement("s", "x")), Bus(Announcement("t", "x"));
    var m, n := Respond(0, GoodReply("s")), Respond(1, GoodReply("t"));
    var p0 := Start(2);
    var p1, p2 := Next(p0, a), Next(Next(p0, a), m);
    var p3 := Next(p2, b);
    StartFits(2);
    StripsToItself();
    NotYetDisplaced(p0, x);
    TakesSlot(p0, x);
    GoodReplyTakesOff(p1, x, 0);
    HandlerKeepsInv(p1, m);
    ReplyKeepsHolders(p1, 0, GoodReply("s"));
    NotYetDisplaced(p2, y);
    TakesSlot(p2, y);
    GoodReplyTakesOff(p3, y, 1);
    HandlersAnnounceNothing(p1, m);
    HandlersAnnounceNothing(p3, n);
    moves := [a] + ([m] + ([b] + ([n] + [])));
    RunStep(p0, a, [m] + ([b] + ([n] + [])));
    RunStep(p1, m, [b] + ([n] + []));
    RunStep(p2, b, [n] + []);
    RunStep(p3, n, []);
    RunOver(Next(p3, n));
    assert Next(p3, n).flying[0] == x && Next(p3, n).flying[1] == y;
  }

  lemma NotYetDisplaced(p: Proto, k: Key)
    requires k.session != "" && k.id != "" && k !in p.displaced
    ensures NoReannouncement(p, Bus(Announcement(k.session, k.id)))
  {
    AnnouncementAnnounces(k.session, k.id);
  }

  lemma HandlersAnnounceNothing(p: Proto, m: Move)
    requires !m.Bus?
    ensures NoReannouncement(p, m)
  {
  }

  // -------------------------------------------------- the handler's own steps

  datatype Started = Refused(status: nat) | Waiting(key: Key, opencodeSession: string, response: string)

  function ResponseFor(d: Decision, always: bool): (r: string) {
    match d
    case Deny => "reject"
    case Approve => if always then "always" else "once"
  }

  /** A value of the body that may ask for a standing approval. */
  datatype Said = NotSaid | Truth(b: bool) | Word(text: string) | Number(n: int)

  /** Only an explicit yes counts; anything unrecognised approves once. */
  predicate SaysYes(v: Said) {
    match v
    case NotSaid => false
    case Truth(b) => b
    case Word(text) => Lower(Strip(text)) in {"true", "yes", "on", "1"}
    case Number(n) => n == 1
  }

  /** `true`, the number one or one of four words. */
  ghost predicate IsYes(v: Said) {
    v == Truth(true) || v == Number(1) || (v.Word? && Lower(Strip(v.text)) in ["1", "on", "yes", "true"])
  }

  /** What the upstream is told for a decision: its word decides, and for an approval whether a standing one was asked
      for. */
  ghost predicate AnswersDecision(decision: string, always: Said, remember: Said, response: string) {
    var word := Lower(Strip(decision));
    var standing := IsYes(always) || IsYes(remember);
    && (ApproveWord(word) || DenyWord(word))
    && (response == "reject" <==> DenyWord(word))
    && (response == "always" <==> ApproveWord(word) && standing)
    && (response == "once" <==> ApproveWord(word) && !standing)
  }

  predicate ApproveWord(word: string) {
    word in ["approve", "approved", "allow", "allowed", "accept", "accepted"]
  }

  predicate DenyWord(word: string) {
    word in ["deny", "denied", "reject", "rejected"]
  }

  lemma WordsDecide(decision: string)
    ensures DecisionOf(decision) == Some(Approve) <==> ApproveWord(Lower(Strip(decision)))
    ensures DecisionOf(decision) == Some(Deny) <==> DenyWord(Lower(Strip(decision)))
  {
    hide Strip, Lower;
  }

  lemma ResponsesDiffer()
    ensures "reject" != "always" && "reject" != "once" && "always" != "once"
  {
    assert "reject"[0] != "always"[0] && "reject"[0] != "once"[0] && "always"[0] != "once"[0];
  }

  lemma ResponseAnswers(decision: string, always: Said, remember: Said)
    ensures DecisionOf(decision).Some? ==>
              AnswersDecision(decision, always, remember,
                              ResponseFor(DecisionOf(decision).value, SaysYes(always) || SaysYes(remember)))
    ensures DecisionOf(decision).None? <==> !ApproveWord(Lower(Strip(decision))) && !DenyWord(Lower(Strip(decision)))
  {
    hide Strip, Lower, SaysYes, IsYes, DecisionOf, ApproveWord, DenyWord;
    YesIsYes(always);
    YesIsYes(remember);
    WordsDecide(decision);
    ResponsesDiffer();
  }

  lemma YesIsYes(v: Said)
    ensures SaysYes(v) <==> IsYes(v)
  {
    hide Strip, Lower;
  }

  /** The status of a refused reply: the first check that fails decides. */
  function Refusal(b: Board, r: Reply): (status: nat) {
    var session := Strip(r.session);
    var wanted := Strip(r.requestedId);
    if session == "" || !r.isObject then 400
    else if session !in b.slots || (wanted != "" && wanted != b.slots[session].id) then 409
    else if DecisionOf(r.decision).None? then 400
    else if b.slots[session].claimed then 409
    else 404
  }

  /** The handler up to its upstream call: the checks, the claim and the session lookup. */
  method RespondStart(store: PendingInputStore, r: Reply, always: Said, remember: Said) returns (out: Started)
    requires store.Unshared()
    modifies store, store.pending.Values
    ensures store.Unshared()
    ensures out.Waiting? <==> Accepts(old(store.Slots()), r)
    ensures out.Waiting? ==> out.key.session == Strip(r.session)
                             && store.Slots() == Claimed(old(store.Slots()), out.key.session, out.key.id)
                             && Holds(old(store.Slots()), out.key)
                             && AnswersDecision(r.decision, always, remember, out.response)
                             && var slot := old(store.Slots()).slots[out.key.session];
                                out.opencodeSession == if slot.opencodeSession != "" then slot.opencodeSession
                                                       else r.sessionRecord.value
    ensures out.Refused? ==> store.Slots() == old(store.Slots()) && out.status == Refusal(old(store.Slots()), r)
    ensures Strip(r.session) != "" && r.isObject && Strip(r.session) in old(store.Slots()).slots
            && Strip(r.requestedId) == ""
            && !ApproveWord(Lower(Strip(r.decision))) && !DenyWord(Lower(Strip(r.decision)))
            ==> out == Refused(400)
  {
    hide DecisionOf, Strip, Lower, AnswersDecision, ResponseFor, SaysYes, ApproveWord, DenyWord;
    ResponseAnswers(r.decision, always, remember);
    var session := Strip(r.session);
    if session == "" {
      return Refused(400);
    }
    if !r.isObject {
      return Refused(400);
    }
    if session !in store.pending {
      return Refused(409);
    }
    var pending := store.pending[session];
    var requested := Strip(r.requestedId);
    if requested != "" && requested != pending.permissionId {
      return Refused(409);
    }
    var decision := DecisionOf(r.decision);
    if decision.None? {
      return Refused(400);
    }
    ghost var before := store.Slots();
    var won := store.Claim(session, pending.permissionId);
    if !won {
      return Refused(409);
    }
    var opencodeSession := pending.opencodeSessionId;
    if opencodeSession == "" {
      if r.sessionRecord.None? {
        store.Release(session, pending.permissionId);
        assert store.Slots().slots == before.slots;
        return Refused(404);
      }
      opencodeSession := r.sessionRecord.value;
    }
    return Waiting(Key(session, pending.permissionId), opencodeSession,
                   ResponseFor(decision.value, SaysYes(always) || SaysYes(remember)));
  }

  /** The handler after the upstream call succeeded: clear, then publish the resolution. */
  method RespondSucceeded(store: PendingInputStore, k: Key) returns (told: Event)
    requires store.Unshared()
    modifies store
    ensures store.Unshared()
    ensures Named(told, ["permission.resolved", "permission_resolved"]) && !told.replayed
            && told.sessionId == k.session && told.permissionId == k.id
    ensures store.Slots() == Observed(Cleared(old(store.Slots()), k.session, k.id), ResolvedEvent(k))
    ensures old(WellFormed(store.Slots())) && k.session != "" && k.id != "" ==>
              && !Holds(store.Slots(), k)
              && store.Slots().slots == if old(Holds(store.Slots(), k)) then old(store.Slots()).slots - {k.session}
                                        else old(store.Slots()).slots
  {
    if WellFormed(store.Slots()) && k.session != "" && k.id != "" {
      SuccessClears(store.Slots(), k);
    }
    store.Clear(k.session, k.id);
    told := ResolvedEvent(k);
    store.ObserveEvent(told);
  }

  /** The handler after the upstream call failed. */
  method RespondFailed(store: PendingInputStore, k: Key)
    requires store.Unshared()
    modifies store.pending.Values
    ensures store.Unshared() && store.Slots() == Released(old(store.Slots()), k.session, k.id)
  {
    store.Release(k.session, k.id);
  }
}
