/**
 The two token managers (copilot_plugin_auth.py, ai_platform_proxy.py): a cached token that is
 refreshed by one exchange at a time. They differ in the margin they refresh
 with. */
module TokenCache {
  import opened Seqs

  datatype Provider = Copilot | AiPlatform

  /** How many seconds a cached token must have left. */
  function RefreshMargin(p: Provider): (seconds: int) {
    match p
    case Copilot => 300
    case AiPlatform => 5
  }

  /** A token, known by the number of the exchange it came from. */
  datatype Token = Token(exchange: nat, expiresAt: int)

  /** The manager's two fields. */
  datatype Cache = Cache(token: Option<Token>, fingerprint: Option<string>)

  /** How a manager reads credentials and how early it refreshes. */
  datatype Config = Config(fingerprint: string -> string, provider: Provider)

  datatype Outcome = CredentialMissing | Cached(token: Token) | Proceed

  predicate CacheValid(cfg: Config, c: Cache, credential: string, now: int) {
    c.token.Some? && c.fingerprint == Some(cfg.fingerprint(credential))
        && c.token.value.expiresAt - now >= RefreshMargin(cfg.provider)
  }

  /** When a cached token may be handed out: it was obtained under this credential, and has five minutes left with
      Copilot, five seconds with the AI platform. */
  ghost predicate Serves(cfg: Config, c: Cache, credential: string, now: int) {
    && c.token.Some? && c.fingerprint == Some(cfg.fingerprint(credential))
    && EnoughLeft(cfg.provider, c.token.value, now)
  }

  ghost predicate EnoughLeft(p: Provider, t: Token, now: int) {
    t.expiresAt >= now + if p == Copilot then 300 else 5
  }

  /** What a check answers. */
  ghost predicate Answers(cfg: Config, c: Cache, credential: Option<string>, now: int, out: Outcome) {
    match out
    case CredentialMissing => credential == None
    case Cached(token) => credential.Some? && Serves(cfg, c, credential.value, now) && c.token == Some(token)
    case Proceed => credential.Some? && !Serves(cfg, c, credential.value, now)
  }

  /** The check before the lock is taken; `Proceed` means waiting for it. */
  function BeforeLock(cfg: Config, c: Cache, credential: Option<string>, now: int): (r: Outcome) {
    if credential.None? then CredentialMissing
    else if CacheValid(cfg, c, credential.value, now) then Cached(c.token.value)
    else Proceed
  }

  /** The same check under the lock, where a missing credential empties the cache; `Proceed` means exchanging. */
  function UnderLock(cfg: Config, c: Cache, credential: Option<string>, now: int): (r: (Cache, Outcome)) {
    (if credential.None? then Cache(None, None) else c, BeforeLock(cfg, c, credential, now))
  }

  function Refreshed(cfg: Config, credential: string, token: Token): (c: Cache) {
    Cache(Some(token), Some(cfg.fingerprint(credential)))
  }

  // ------------------------------------------------------------ interleavings

  datatype Phase = Waiting | Exchanging(credential: string)

  /** What a call returned: `read` is a credential the call read itself. */
  datatype Return = Return(call: nat, token: Token, read: string, fromCache: bool, now: int)

  /** `exchanges` lists the fingerprint each finished exchange was made under; `seen` what each call has read. */
  datatype Sys = Sys(credential: Option<string>, cache: Cache, calls: map<nat, Phase>, begun: set<nat>,
                     seen: set<(nat, string)>, exchanges: seq<string>, returned: seq<Return>)

  datatype Move =
    | SetCredential(credential: Option<string>)
    | Begin(call: nat, now: int)
    | Acquire(call: nat, now: int)
    | ExchangeDone(call: nat, expiresAt: int)
    | ExchangeFailed(call: nat)
    | Cancel(call: nat)

  ghost predicate LockHeld(s: Sys) {
    exists c :: c in s.calls && s.calls[c].Exchanging?
  }

  ghost function Next(cfg: Config, s: Sys, m: Move): (t: Sys) {
    match m
    case SetCredential(credential) => s.(credential := credential)
    case Begin(c, now) =>
      if c in s.begun then s
      else
        var t := s.(begun := s.begun + {c}, seen := ReadBy(s, c));
        (match BeforeLock(cfg, s.cache, s.credential, now)
         case CredentialMissing => t
         case Cached(token) => t.(returned := s.returned + [Return(c, token, s.credential.value, true, now)])
         case Proceed => t.(calls := s.calls[c := Waiting]))
    case Acquire(c, now) =>
      if c !in s.calls || s.calls[c] != Waiting || LockHeld(s) then s
      else
        var after := UnderLock(cfg, s.cache, s.credential, now);
        var t := s.(cache := after.0, seen := ReadBy(s, c));
        (match after.1
         case CredentialMissing => t.(calls := s.calls - {c})
         case Cached(token) =>
           t.(calls := s.calls - {c}, returned := s.returned + [Return(c, token, s.credential.value, true, now)])
         case Proceed => t.(calls := s.calls[c := Exchanging(s.credential.value)]))
    case ExchangeDone(c, expiresAt) =>
      if c !in s.calls || !s.calls[c].Exchanging? then s
      else
        var read := s.calls[c].credential;
        var token := Token(|s.exchanges|, expiresAt);
        s.(cache := Refreshed(cfg, read, token), calls := s.calls - {c},
           exchanges := s.exchanges + [cfg.fingerprint(read)],
           returned := s.returned + [Return(c, token, read, false, 0)])
    case ExchangeFailed(c) => if c in s.calls && s.calls[c].Exchanging? then s.(calls := s.calls - {c}) else s
    case Cancel(c) => s.(calls := s.calls - {c})
  }

  ghost function ReadBy(s: Sys, c: nat): (r: set<(nat, string)>) {
    if s.credential.Some? then s.seen + {(c, s.credential.value)} else s.seen
  }

  ghost predicate AtMostOneExchange(s: Sys) {
    forall c, d :: c in s.calls && d in s.calls && s.calls[c].Exchanging? && s.calls[d].Exchanging? ==> c == d
  }

  /** A returned token was obtained under the fingerprint of a credential its call read, and if it came
      from the cache it had the refresh margin left. */
  ghost predicate SoundReturn(cfg: Config, s: Sys, r: Return) {
    && r.token.exchange < |s.exchanges|
    && s.exchanges[r.token.exchange] == cfg.fingerprint(r.read)
    && (r.call, r.read) in s.seen
    && (r.fromCache ==> EnoughLeft(cfg.provider, r.token, r.now))
  }

  ghost predicate Inv(cfg: Config, s: Sys) {
    && AtMostOneExchange(s)
    && (forall c :: c in s.calls ==> c in s.begun)
    && (forall c :: c in s.calls && s.calls[c].Exchanging? ==> (c, s.calls[c].credential) in s.seen)
    && (s.cache.token.Some? ==> s.cache.token.value.exchange < |s.exchanges|
                                && s.cache.fingerprint == Some(s.exchanges[s.cache.token.value.exchange]))
    && (forall i :: 0 <= i < |s.returned| ==> SoundReturn(cfg, s, s.returned[i]))
  }

  /** Returns stay sound while exchanges and readings are only added. */
  lemma ReturnsStay(cfg: Config, s: Sys, t: Sys)
    requires s.exchanges <= t.exchanges && s.seen <= t.seen
    requires forall i :: 0 <= i < |s.returned| ==> SoundReturn(cfg, s, s.returned[i])
    ensures forall i :: 0 <= i < |s.returned| ==> SoundReturn(cfg, t, s.returned[i])
  {
  }

  lemma CheckKeepsInv(cfg: Config, s: Sys, m: Move)
    requires Inv(cfg, s) && (m.Begin? || m.Acquire?)
    ensures Inv(cfg, Next(cfg, s, m))
  {
    hide SoundReturn;
    ReturnsStay(cfg, s, Next(cfg, s, m));
    if s.credential.Some? {
      CachedIsSound(cfg, s, m.call, m.now);
    }
  }

  /** A token from a valid cache is a sound return for whoever reads the credential now. */
  lemma CachedIsSound(cfg: Config, s: Sys, call: nat, now: int)
    requires Inv(cfg, s) && s.credential.Some?
    ensures BeforeLock(cfg, s.cache, s.credential, now).Cached? ==>
              forall t: Sys :: t.exchanges == s.exchanges && t.seen == ReadBy(s, call) ==>
                SoundReturn(cfg, t, Return(call, s.cache.token.value, s.credential.value, true, now))
  {
  }

  lemma ExchangeKeepsInv(cfg: Config, s: Sys, m: Move)
    requires Inv(cfg, s) && m.ExchangeDone?
    ensures Inv(cfg, Next(cfg, s, m))
  {
    ReturnsStay(cfg, s, Next(cfg, s, m));
  }

  lemma NextKeepsInv(cfg: Config, s: Sys, m: Move)
    requires Inv(cfg, s)
    ensures Inv(cfg, Next(cfg, s, m))
  {
    if m.Begin? || m.Acquire? {
      CheckKeepsInv(cfg, s, m);
    } else if m.ExchangeDone? {
      ExchangeKeepsInv(cfg, s, m);
    } else {
      hide BeforeLock, UnderLock, Refreshed, LockHeld;
      ReturnsStay(cfg, s, Next(cfg, s, m));
    }
  }

  ghost function Run(cfg: Config, s: Sys, moves: seq<Move>): (t: Sys)
    decreases |moves|
  {
    if moves == [] then s else Run(cfg, Next(cfg, s, moves[0]), moves[1..])
  }

  ghost function Start(credential: Option<string>): (s: Sys) {
    Sys(credential, Cache(None, None), map[], {}, {}, [], [])
  }

  /** Over all interleavings of calls, failures, cancellations and credential changes: at most one exchange is in
      flight, and every returned token is sound. */
  lemma {:induction false} TokensAreSound(cfg: Config, s: Sys, moves: seq<Move>)
    requires Inv(cfg, s)
    ensures Inv(cfg, Run(cfg, s, moves))
    decreases |moves|
  {
    hide Inv, Next;
    if moves != [] {
      NextKeepsInv(cfg, s, moves[0]);
      TokensAreSound(cfg, Next(cfg, s, moves[0]), moves[1..]);
    }
  }

  lemma StartIsSound(cfg: Config, credential: Option<string>, horizon: int)
    ensures Inv(cfg, Start(credential))
    ensures credential.Some? ==> Settled(cfg, Start(credential), horizon)
  {
  }

  // -------------------------------------------------------------- single flight

  /** The credential stays as it is, all clock readings are at most `horizon`, and every token obtained
      outlives it by the margin. */
  ghost predicate Steady(cfg: Config, m: Move, horizon: int) {
    && !m.SetCredential?
    && (m.Begin? || m.Acquire? ==> m.now <= horizon)
    && (m.ExchangeDone? ==> EnoughLeft(cfg.provider, Token(0, m.expiresAt), horizon))
  }

  /** Nothing was exchanged yet, or the cache serves every call and nobody exchanges. */
  ghost predicate Settled(cfg: Config, s: Sys, horizon: int) {
    && s.credential.Some? && |s.exchanges| <= 1
    && (forall c :: c in s.calls && s.calls[c].Exchanging? ==> s.calls[c].credential == s.credential.value)
    && AtMostOneExchange(s)
    && (|s.exchanges| == 1 ==> Serves(cfg, s.cache, s.credential.value, horizon) && !LockHeld(s))
  }

  lemma SteadyKeepsSettled(cfg: Config, s: Sys, m: Move, horizon: int)
    requires Settled(cfg, s, horizon) && Steady(cfg, m, horizon)
    ensures Settled(cfg, Next(cfg, s, m), horizon)
  {
    if m.Acquire? {
      AcquireKeepsSettled(cfg, s, m, horizon);
    } else {
      hide UnderLock;
    }
  }

  lemma AcquireKeepsSettled(cfg: Config, s: Sys, m: Move, horizon: int)
    requires Settled(cfg, s, horizon) && Steady(cfg, m, horizon) && m.Acquire?
    ensures Settled(cfg, Next(cfg, s, m), horizon)
  {
    var t := Next(cfg, s, m);
    assert forall c :: c in t.calls && c in s.calls && t.calls[c].Exchanging? && !s.calls[c].Exchanging? ==>
                         m == Acquire(c, m.now);
  }

  /** However many calls overlap, one exchange serves them all while the credential and the token last. */
  lemma {:induction false} SingleFlight(cfg: Config, s: Sys, moves: seq<Move>, horizon: int)
    requires Settled(cfg, s, horizon) && forall m :: m in moves ==> Steady(cfg, m, horizon)
    ensures Settled(cfg, Run(cfg, s, moves), horizon) && |Run(cfg, s, moves).exchanges| <= 1
    decreases |moves|
  {
    hide Next, Steady, Serves, LockHeld, AtMostOneExchange;
    if moves != [] {
      SteadyKeepsSettled(cfg, s, moves[0], horizon);
      SingleFlight(cfg, Next(cfg, s, moves[0]), moves[1..], horizon);
    }
  }

  // ---------------------------------------------------------------- the manager

  /** The manager between its awaits: the segments of get_token that run undisturbed. */
  class TokenManager {
    const cfg: Config
    var cached: Option<Token>
    var cachedFingerprint: Option<string>

    constructor (cfg: Config)
      ensures this.cfg == cfg && Now() == Cache(None, None)
    {
      this.cfg := cfg;
      cached, cachedFingerprint := None, None;
    }

    function Now(): (c: Cache)
      reads this
    {
      Cache(cached, cachedFingerprint)
    }

    method GetTokenBeforeLock(credential: Option<string>, now: int) returns (out: Outcome)
      ensures out == BeforeLock(cfg, Now(), credential, now) && Answers(cfg, Now(), credential, now, out)
    {
      if credential.None? {
        return CredentialMissing;
      }
      if CacheValid(cfg, Now(), credential.value, now) {
        return Cached(cached.value);
      }
      return Proceed;
    }

    method GetTokenUnderLock(credential: Option<string>, now: int) returns (out: Outcome)
      modifies this
      ensures (Now(), out) == UnderLock(cfg, old(Now()), credential, now)
      ensures Answers(cfg, old(Now()), credential, now, out)
      ensures Now() == if credential == None then Cache(None, None) else old(Now())
    {
      if credential.None? {
        cached := None;
        cachedFingerprint := None;
        return CredentialMissing;
      }
      if CacheValid(cfg, Now(), credential.value, now) {
        return Cached(cached.value);
      }
      return Proceed;
    }

    method ExchangeFinished(credential: string, token: Token)
      modifies this
      ensures Now() == Refreshed(cfg, credential, token) && cached == Some(token)
      ensures cachedFingerprint == Some(cfg.fingerprint(credential))
    {
      cached := Some(token);
      cachedFingerprint := Some(cfg.fingerprint(credential));
    }
  }
}
