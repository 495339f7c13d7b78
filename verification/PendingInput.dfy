/**
 The pending-permission store (pending_input.py): per session, the latest permission still
 waiting for an answer and whether a response has claimed
 it. */
module PendingInput {
  import opened Seqs

  /** One pending permission, as a value. */
  datatype Slot = Slot(id: string, opencodeSession: string, requestId: string, claimed: bool)

  /** The permission a `permission.requested` event carries; the id is the first present of two fields. */
  datatype Request = Request(permissionId: string, requestId: string, opencodeSession: string)

  datatype Event = Event(kind: string, legacyKind: string, replayed: bool, sessionId: string, permissionId: string,
                         request: Option<Request>, opencodeSession: string, requestId: string)

  const RECORD_KINDS := {"permission.requested", "permission_request"}
  const RESOLVED_KINDS := {"permission.resolved", "permission_resolved"}
  const RUN_ENDED_KINDS := {"chat.completed", "chat.failed"}

  /** `slots` with their key order, least recently announced session first. */
  datatype Board = Board(cap: nat, order: seq<string>, slots: map<string, Slot>)

  predicate Among(e: Event, kinds: set<string>) {
    (e.kind != "" && e.kind in kinds) || (e.legacyKind != "" && e.legacyKind in kinds)
  }

  function RequestedId(r: Request): (id: string) {
    if r.permissionId != "" then r.permissionId else r.requestId
  }

  predicate Clears(e: Event) {
    !e.replayed && e.sessionId != "" && Among(e, RESOLVED_KINDS + RUN_ENDED_KINDS)
  }

  /** Whether the event makes its permission the pending one of its session. */
  predicate Announces(e: Event) {
    && !e.replayed && e.sessionId != "" && !Clears(e) && Among(e, RECORD_KINDS)
    && e.request.Some? && RequestedId(e.request.value) != ""
  }

  /** Without a permission id whatever is pending goes; with one, only that permission. */
  function Cleared(b: Board, session: string, id: string): (r: Board) {
    if session !in b.slots || (id != "" && b.slots[session].id != id) then b
    else b.(order := Remove(b.order, session), slots := b.slots - {session})
  }

  /** Forget the oldest sessions until the cap holds. */
  function Evicted(b: Board): (r: Board)
    decreases |b.order|
  {
    if |b.order| <= b.cap then b
    else Evicted(b.(order := b.order[1..], slots := b.slots - {b.order[0]}))
  }

  /** A repeated announcement of the pending permission keeps its claim; any other starts unclaimed. */
  function AnnouncedSlot(b: Board, e: Event): (s: Slot)
    requires Announces(e)
  {
    var r := e.request.value;
    var id := RequestedId(r);
    Slot(id, if e.opencodeSession != "" then e.opencodeSession else r.opencodeSession, e.requestId,
         e.sessionId in b.slots && b.slots[e.sessionId].id == id && b.slots[e.sessionId].claimed)
  }

  function Recorded(b: Board, e: Event): (r: Board)
    requires Announces(e)
  {
    b.(order := Remove(b.order, e.sessionId) + [e.sessionId], slots := b.slots[e.sessionId := AnnouncedSlot(b, e)])
  }

  function Observed(b: Board, e: Event): (r: Board) {
    if Clears(e) then Cleared(b, e.sessionId, if Among(e, RESOLVED_KINDS) then e.permissionId else "")
    else if !Announces(e) then b
    else Evicted(Recorded(b, e))
  }

  predicate Claimable(b: Board, session: string, id: string) {
    session in b.slots && b.slots[session].id == id && !b.slots[session].claimed
  }

  function Claimed(b: Board, session: string, id: string): (r: Board) {
    if Claimable(b, session, id) then b.(slots := b.slots[session := b.slots[session].(claimed := true)]) else b
  }

  function Released(b: Board, session: string, id: string): (r: Board) {
    if session in b.slots && b.slots[session].id == id
    then b.(slots := b.slots[session := b.slots[session].(claimed := false)])
    else b
  }

  ghost predicate WellFormed(b: Board) {
    && b.cap >= 1 && NoDup(b.order) && |b.order| <= b.cap
    && (forall s :: s in b.order <==> s in b.slots)
    && (forall s :: s in b.slots ==> b.slots[s].id != "")
  }

  lemma ClearedFits(b: Board, session: string, id: string)
    requires WellFormed(b)
    ensures var t := Cleared(b, session, id);
            && WellFormed(t)
            && (forall s :: s in t.slots ==> s in b.slots && t.slots[s] == b.slots[s])
            && (forall s :: s in b.slots && s !in t.slots ==> s == session)
            && (session in t.slots ==> id != "" && t.slots[session].id != id)
  {
    RemoveKeepsRest(b.order, session);
    RemoveLength(b.order, session);
  }

  /** With one session too many, the oldest one goes and nothing else changes. */
  lemma EvictedFits(b: Board)
    requires b.cap >= 1 && NoDup(b.order) && |b.order| <= b.cap + 1 && (forall s :: s in b.order <==> s in b.slots)
    ensures var t := Evicted(b);
            && NoDup(t.order) && |t.order| <= b.cap && t.cap == b.cap
            && (forall s :: s in t.order <==> s in t.slots)
            && (forall s :: s in t.slots ==> s in b.slots && t.slots[s] == b.slots[s])
            && (forall s :: s in b.slots && s !in t.slots ==> |b.order| > b.cap && s == b.order[0])
  {
    if |b.order| > b.cap {
      assert b.order == [b.order[0]] + b.order[1..];
      assert b.order[0] !in b.order[1..];
      assert Evicted(b) == b.(order := b.order[1..], slots := b.slots - {b.order[0]});
    }
  }

  lemma RecordedFits(b: Board, e: Event)
    requires WellFormed(b) && Announces(e)
    ensures var t := Recorded(b, e);
            && t.cap >= 1 && NoDup(t.order) && |t.order| <= t.cap + 1 && (forall s :: s in t.order <==> s in t.slots)
  {
    hide Remove, AnnouncedSlot;
    RemoveKeepsRest(b.order, e.sessionId);
    RemoveLength(b.order, e.sessionId);
    var d, t := Remove(b.order, e.sessionId), Recorded(b, e);
    assert t.order[|d|] == e.sessionId;
    assert forall s :: s in t.order <==> s in d || s == e.sessionId;
  }

  /** After an announcement its permission is the pending one of its session; of the others at most the session
      announced longest ago is forgotten, and the rest are as they were. */
  lemma AnnouncementFits(b: Board, e: Event)
    requires WellFormed(b) && Announces(e)
    ensures var t := Observed(b, e); var others := Remove(b.order, e.sessionId);
            && WellFormed(t)
            && e.sessionId in t.slots && t.slots[e.sessionId] == AnnouncedSlot(b, e)
            && (forall s :: s in t.slots && s != e.sessionId ==> s in b.slots && t.slots[s] == b.slots[s])
            && (forall s :: s in b.slots && s !in t.slots ==> others != [] && s == others[0])
  {
    hide Clears, RequestedId, Evicted, NoDup, Remove;
    RemoveKeepsRest(b.order, e.sessionId);
    RemoveLength(b.order, e.sessionId);
    RecordedFits(b, e);
    EvictedFits(Recorded(b, e));
  }

  // ------------------------------------------------------------ what events do

  predicate Named(e: Event, names: seq<string>) {
    e.kind in names || e.legacyKind in names
  }

  /** What an event does to the pending permissions: a resolution ends the one it names, or without an id whichever is
      pending; the end of the run ends whichever is pending; an announcement makes its permission the pending one, with
      the first id it carries; and everything else, replays and events without a session included, does nothing. */
  ghost predicate EventDoes(b: Board, e: Event, t: Board) {
    if e.replayed || e.sessionId == "" then t == b
    else if Named(e, ["permission.resolved", "permission_resolved"]) then
      t.slots == if e.sessionId in b.slots && e.permissionId in ["", b.slots[e.sessionId].id]
                 then b.slots - {e.sessionId} else b.slots
    else if Named(e, ["chat.completed", "chat.failed"]) then t.slots == b.slots - {e.sessionId}
    else if !Named(e, ["permission.requested", "permission_request"]) || e.request == None then t == b
    else
      var r := e.request.value;
      var id := if r.permissionId == "" then r.requestId else r.permissionId;
      if id == "" then t == b
      else
        && e.sessionId in t.slots
        && (forall s :: s in t.slots && s != e.sessionId ==> s in b.slots && t.slots[s] == b.slots[s])
        && var slot := t.slots[e.sessionId];
           && slot.id == id && slot.requestId == e.requestId
           && slot.opencodeSession == (if e.opencodeSession == "" then r.opencodeSession else e.opencodeSession)
           && slot.claimed == (e.sessionId in b.slots && b.slots[e.sessionId].id == id
                               && b.slots[e.sessionId].claimed)
  }

  lemma KindsAre(e: Event)
    ensures Among(e, RESOLVED_KINDS) <==> Named(e, ["permission.resolved", "permission_resolved"])
    ensures Among(e, RUN_ENDED_KINDS) <==> Named(e, ["chat.completed", "chat.failed"])
    ensures Among(e, RECORD_KINDS) <==> Named(e, ["permission.requested", "permission_request"])
    ensures Among(e, RESOLVED_KINDS + RUN_ENDED_KINDS) <==> Among(e, RESOLVED_KINDS) || Among(e, RUN_ENDED_KINDS)
  {
  }

  lemma ObservedDoes(b: Board, e: Event)
    requires WellFormed(b)
    ensures EventDoes(b, e, Observed(b, e))
  {
    KindsAre(e);
    if Announces(e) {
      AnnouncementFits(b, e);
    }
    hide Among, Named, Remove, WellFormed, Evicted, Recorded;
  }

  lemma ObservedFits(b: Board, e: Event)
    requires WellFormed(b)
    ensures WellFormed(Observed(b, e))
  {
    hide Announces, Clears, Cleared, WellFormed, Evicted;
    if Announces(e) {
      AnnouncementFits(b, e);
    } else {
      ClearedFits(b, e.sessionId, if Among(e, RESOLVED_KINDS) then e.permissionId else "");
    }
  }

  // --------------------------------------------------------------- the store

  /** A stored permission; `claimed` is flipped on the object. */
  class PendingPermission {
    const permissionId: string
    const opencodeSessionId: string
    const requestId: string
    var claimed: bool

    constructor (slot: Slot)
      ensures Value() == slot
    {
      permissionId, opencodeSessionId, requestId := slot.id, slot.opencodeSession, slot.requestId;
      claimed := slot.claimed;
    }

    function Value(): (s: Slot)
      reads this
    {
      Slot(permissionId, opencodeSessionId, requestId, claimed)
    }
  }

  class PendingInputStore {
    const maxSessions: nat
    var order: seq<string>
    var pending: map<string, PendingPermission>

    /** Every session has a permission object of its own. */
    ghost predicate Unshared()
      reads this
    {
      forall s, t :: s in pending && t in pending && s != t ==> pending[s] != pending[t]
    }

    ghost function Slots(): (b: Board)
      reads this, pending.Values
    {
      Board(maxSessions, order, map s | s in pending :: pending[s].Value())
    }

    constructor (cap: int)
      ensures Unshared() && Slots() == Board(if cap < 1 then 1 else cap, [], map[])
    {
      maxSessions := if cap < 1 then 1 else cap;
      order, pending := [], map[];
    }

    /** Update the state from one runtime event. */
    method ObserveEvent(e: Event)
      requires Unshared()
      modifies this`order, this`pending
      ensures Unshared() && Slots() == Observed(old(Slots()), e)
      ensures old(WellFormed(Slots())) ==> EventDoes(old(Slots()), e, Slots()) && WellFormed(Slots())
      ensures forall p :: p in pending.Values ==> p in old(pending.Values) || fresh(p)
    {
      hide WellFormed, Observed, EventDoes;
      ghost var before := Slots();
      TakeEvent(e);
      if WellFormed(before) {
        ObservedDoes(before, e);
        ObservedFits(before, e);
      }
    }

    method TakeEvent(e: Event)
      requires Unshared()
      modifies this`order, this`pending
      ensures Unshared() && Slots() == Observed(old(Slots()), e)
      ensures forall p :: p in pending.Values ==> p in old(pending.Values) || fresh(p)
    {
      if Clears(e) {
        Clear(e.sessionId, if Among(e, RESOLVED_KINDS) then e.permissionId else "");
        return;
      }
      if !Announces(e) {
        return;
      }
      var r := e.request.value;
      var id := RequestedId(r);
      var claimed := e.sessionId in pending && pending[e.sessionId].permissionId == id && pending[e.sessionId].claimed;
      var upstream := if e.opencodeSession != "" then e.opencodeSession else r.opencodeSession;
      var slot := Slot(id, upstream, e.requestId, claimed);
      assert slot == AnnouncedSlot(Slots(), e);
      Put(e.sessionId, slot);
      Evict();
    }

    /** Make a permission the pending one of its session, as the newest. */
    method Put(session: string, slot: Slot)
      requires Unshared()
      modifies this`order, this`pending
      ensures Unshared()
      ensures Slots() == old(Slots()).(order := Remove(old(order), session) + [session],
                                       slots := old(Slots()).slots[session := slot])
      ensures forall p :: p in pending.Values ==> p in old(pending.Values) || fresh(p)
    {
      var entry := new PendingPermission(slot);
      pending := pending[session := entry];
      order := Remove(order, session) + [session];
      assert Slots().slots == old(Slots()).slots[session := slot];
    }

    /** Forget the oldest sessions until the cap holds. */
    method Evict()
      requires Unshared()
      modifies this`order, this`pending
      ensures Unshared() && Slots() == Evicted(old(Slots()))
      ensures pending.Values <= old(pending.Values)
    {
      hide PendingPermission.Value;
      while |order| > maxSessions
        invariant Unshared() && Evicted(Slots()) == Evicted(old(Slots()))
        invariant pending.Values <= old(pending.Values)
        decreases |order|
      {
        ghost var s0 := Slots();
        pending := pending - {order[0]};
        order := order[1..];
        assert Slots().slots == s0.slots - {s0.order[0]};
      }
    }

    /** Take exclusive ownership of one pending request. */
    method Claim(session: string, id: string) returns (won: bool)
      requires Unshared()
      modifies pending.Values
      ensures Unshared() && Slots() == Claimed(old(Slots()), session, id)
      ensures won <==> Claimable(old(Slots()), session, id)
    {
      if session !in pending || pending[session].permissionId != id {
        return false;
      }
      if pending[session].claimed {
        return false;
      }
      pending[session].claimed := true;
      return true;
    }

    method Release(session: string, id: string)
      requires Unshared()
      modifies pending.Values
      ensures Unshared() && Slots() == Released(old(Slots()), session, id)
    {
      if session in pending && pending[session].permissionId == id {
        pending[session].claimed := false;
      }
    }

    /** Forget a session's permission; an id that is given must match. */
    method Clear(session: string, id: string)
      requires Unshared()
      modifies this`order, this`pending
      ensures Unshared() && Slots() == Cleared(old(Slots()), session, id)
      ensures pending.Values <= old(pending.Values)
    {
      if session !in pending {
        return;
      }
      if id != "" && pending[session].permissionId != id {
        return;
      }
      pending := pending - {session};
      order := Remove(order, session);
    }
  }
}
