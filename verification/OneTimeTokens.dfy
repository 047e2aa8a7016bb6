/**
 OAuth states and WebAuthn challenges over whole runs: a token is accepted at most once, only in the
 session that issued it, and only while it is the latest issued there.
 */
module OneTimeTokens {
  import opened Wrappers
  import opened Platform
  import opened Vault
  import opened UnlockKeyStore
  import opened Auth
  import opened AuthRuns

  /** Registration and device login share the challenge field. */
  datatype Kind = OAuthState | Challenge

  function TokenOf(s: Session, kind: Kind): Option<string> {
    if kind.OAuthState? then s.oauthState else s.currentWebauthnChallenge
  }

  predicate Offers(req: Request, kind: Kind) {
    if kind.OAuthState? then req.GoogleStart? else req.RegisterOptions? || req.AuthenticateOptions?
  }

  function Offered(req: Request): string {
    match req
    case GoogleStart(state) => state
    case RegisterOptions(challenge) => challenge
    case AuthenticateOptions(challenge) => challenge
    case _ => ""
  }

  predicate Checks(req: Request, kind: Kind) {
    if kind.OAuthState? then req.GoogleCallback? else req.Register? || req.Authenticate?
  }

  function Presented(req: Request): string {
    match req
    case GoogleCallback(state, _) => state
    case Register(_, reply) => reply.challenge
    case Authenticate(reply, _) => reply.challenge
    case _ => ""
  }

  /** The request comes as far as comparing its token with the session's. */
  predicate Compares(s: Session, slot: Slot, now: int, req: Request, kind: Kind) {
    Checks(req, kind) && (BehindUnlockedGuard(req) ==> GuardPasses(s, slot, now)) && TokenOf(s, kind) != Some("")
  }

  /** The comparison succeeds; a WebAuthn answer must also be genuine and from a known device. */
  predicate AcceptsToken(db: Db, s: Session, slot: Slot, now: int, req: Request, kind: Kind) {
    Compares(s, slot, now, req, kind) && TokenOf(s, kind) == Some(Presented(req)) &&
    (req.Register? ==> req.reply.genuine) &&
    (req.Authenticate? ==> req.reply.genuine && Registered(db.devices, req.reply.credentialId))
  }

  /** An OAuth state is used up by the callback that matches it, a challenge by any answer. */
  predicate UsesUp(db: Db, s: Session, slot: Slot, now: int, req: Request, kind: Kind) {
    req.Logout? ||
    (if kind.OAuthState? then AcceptsToken(db, s, slot, now, req, kind) else Compares(s, slot, now, req, kind))
  }

  predicate Issues(p: Platform, db: Db, s: Session, slot: Slot, now: int, req: Request, kind: Kind) {
    Offers(req, kind) && Handle(p, db, s, slot, now, req).response.Answer?
  }

  /** What one request does to the session's token. */
  lemma RequestToken(p: Platform, db: Db, s: Session, slot: Slot, now: int, req: Request, kind: Kind)
    ensures TokenOf(Handle(p, db, s, slot, now, req).session, kind) ==
              if Issues(p, db, s, slot, now, req, kind) then Some(Offered(req))
              else if UsesUp(db, s, slot, now, req, kind) then None
              else TokenOf(s, kind)
  {
    hide Reencrypt, CreateRow, UpdateRow, RemoveRow, ReadRow, ExportFile, OpenFile, ImportEntries;
  }

  /** Acceptance as the caller sees it: a callback is accepted unless it is rejected, and what a
      refused WebAuthn answer leaves behind is the tables as they were. */
  lemma AcceptanceShows(p: Platform, db: Db, s: Session, slot: Slot, now: int, req: Request)
    ensures req.GoogleCallback? ==>
              (AcceptsToken(db, s, slot, now, req, OAuthState) <==>
                 Handle(p, db, s, slot, now, req).response != Failed(Rejected))
    ensures (req.Register? || req.Authenticate?) && !AcceptsToken(db, s, slot, now, req, Challenge) ==>
              var out := Handle(p, db, s, slot, now, req);
              out.response.Failed? && out.db == db && out.session.userId == s.userId &&
              (out.session.unlocked ==> s.unlocked)
  {
  }

  // ---------------------------------------------------------------------------------
  // Whole runs
  // ---------------------------------------------------------------------------------

  predicate IssuedAt(p: Platform, es: seq<Event>, k: nat, kind: Kind)
    requires k < |es|
  {
    es[k].Call? &&
    var w := At(p, es, k);
    Issues(p, w.db, SessionOf(w, es[k].sid), SlotOf(w.store, es[k].sid), w.now + es[k].elapsed, es[k].req, kind)
  }

  predicate UsedUpAt(p: Platform, es: seq<Event>, k: nat, kind: Kind)
    requires k < |es|
  {
    es[k].Call? &&
    var w := At(p, es, k);
    UsesUp(w.db, SessionOf(w, es[k].sid), SlotOf(w.store, es[k].sid), w.now + es[k].elapsed, es[k].req, kind)
  }

  predicate AcceptedAt(p: Platform, es: seq<Event>, k: nat, kind: Kind)
    requires k < |es|
  {
    es[k].Call? &&
    var w := At(p, es, k);
    AcceptsToken(w.db, SessionOf(w, es[k].sid), SlotOf(w.store, es[k].sid), w.now + es[k].elapsed, es[k].req, kind)
  }

  predicate Replaces(p: Platform, es: seq<Event>, k: nat, sid: string, kind: Kind)
    requires k < |es|
  {
    By(es, k, sid) && (IssuedAt(p, es, k, kind) || UsedUpAt(p, es, k, kind))
  }

  /** The token issued at i is the latest of this session, and has not been used since. */
  predicate Outstanding(p: Platform, es: seq<Event>, i: nat, n: nat, sid: string, kind: Kind)
    requires n <= |es|
  {
    i < n && By(es, i, sid) && IssuedAt(p, es, i, kind) && forall k :: i < k < n ==> !Replaces(p, es, k, sid, kind)
  }

  function TokenAt(p: Platform, es: seq<Event>, n: nat, sid: string, kind: Kind): Option<string>
    requires n <= |es|
  {
    TokenOf(SessionOf(At(p, es, n), sid), kind)
  }

  lemma TokenStep(p: Platform, es: seq<Event>, k: nat, sid: string, kind: Kind)
    requires k < |es|
    ensures TokenAt(p, es, k + 1, sid, kind) ==
              if By(es, k, sid) && IssuedAt(p, es, k, kind) then Some(Offered(es[k].req))
              else if By(es, k, sid) && UsedUpAt(p, es, k, kind) then None
              else TokenAt(p, es, k, sid, kind)
  {
    hide Handle, UsesUp, Issues;
    if es[k].Call? {
      var w := At(p, es, k);
      StepSlots(p, w, es[k].elapsed, es[k].sid, es[k].req, sid);
      RequestToken(p, w.db, SessionOf(w, es[k].sid), SlotOf(w.store, es[k].sid), w.now + es[k].elapsed, es[k].req,
                   kind);
    }
  }

  lemma {:induction false} OutstandingIsHeld(p: Platform, es: seq<Event>, i: nat, n: nat, sid: string, kind: Kind)
    requires n <= |es| && Outstanding(p, es, i, n, sid, kind)
    ensures TokenAt(p, es, n, sid, kind) == Some(Offered(es[i].req))
    decreases n
  {
    hide TokenAt, IssuedAt, UsedUpAt;
    TokenStep(p, es, n - 1, sid, kind);
    if i < n - 1 {
      OutstandingIsHeld(p, es, i, n - 1, sid, kind);
      assert !Replaces(p, es, n - 1, sid, kind);
    }
  }

  lemma {:induction false} HeldIsOutstanding(p: Platform, es: seq<Event>, n: nat, sid: string,
      kind: Kind) returns (i: nat)
    requires n <= |es| && TokenAt(p, es, n, sid, kind).Some?
    ensures Outstanding(p, es, i, n, sid, kind)
    decreases n
  {
    hide IssuedAt, UsedUpAt;
    TokenStep(p, es, n - 1, sid, kind);
    if By(es, n - 1, sid) && IssuedAt(p, es, n - 1, kind) {
      return n - 1;
    }
    i := HeldIsOutstanding(p, es, n - 1, sid, kind);
  }

  /** A session holds a token exactly when that token is outstanding in it. */
  lemma HeldExactlyOutstanding(p: Platform, es: seq<Event>, n: nat, sid: string, kind: Kind, token: string)
    requires n <= |es|
    ensures TokenAt(p, es, n, sid, kind) == Some(token) <==>
              exists i: nat :: Outstanding(p, es, i, n, sid, kind) && Offered(es[i].req) == token
  {
    hide TokenAt, IssuedAt, UsedUpAt;
    if TokenAt(p, es, n, sid, kind) == Some(token) {
      var i := HeldIsOutstanding(p, es, n, sid, kind);
      OutstandingIsHeld(p, es, i, n, sid, kind);
    }
    if i: nat :| Outstanding(p, es, i, n, sid, kind) && Offered(es[i].req) == token {
      OutstandingIsHeld(p, es, i, n, sid, kind);
    }
  }

  /** Whatever is accepted was the latest token issued in the same session, not used since. */
  lemma AcceptedIsOutstanding(p: Platform, es: seq<Event>, n: nat, kind: Kind)
    requires n < |es| && AcceptedAt(p, es, n, kind)
    ensures exists i: nat :: Outstanding(p, es, i, n, es[n].sid, kind) && Offered(es[i].req) == Presented(es[n].req)
  {
    HeldExactlyOutstanding(p, es, n, es[n].sid, kind, Presented(es[n].req));
  }

  /** No value is issued twice. */
  predicate FreshTokens(p: Platform, es: seq<Event>, kind: Kind) {
    forall i: nat, j: nat :: i < j < |es| && IssuedAt(p, es, i, kind) && IssuedAt(p, es, j, kind) ==>
      Offered(es[i].req) != Offered(es[j].req)
  }

  lemma AcceptedEndsIt(p: Platform, es: seq<Event>, i: nat, m: nat, n: nat, kind: Kind)
    requires m < n < |es| && AcceptedAt(p, es, m, kind) && Outstanding(p, es, i, m, es[m].sid, kind)
    ensures !Outstanding(p, es, i, n, es[m].sid, kind)
  {
    AcceptanceUsesUp(p, es, m, kind);
    assert Replaces(p, es, m, es[m].sid, kind);
  }

  /** With fresh values, no token is accepted twice, in whatever session and by whatever route. */
  lemma AcceptedOnce(p: Platform, es: seq<Event>, m: nat, n: nat, kind: Kind)
    requires m < n < |es| && FreshTokens(p, es, kind)
    requires AcceptedAt(p, es, m, kind) && AcceptedAt(p, es, n, kind)
    ensures Presented(es[m].req) != Presented(es[n].req)
  {
    hide IssuedAt;
    AcceptedIsOutstanding(p, es, m, kind);
    AcceptedIsOutstanding(p, es, n, kind);
    var i: nat :| Outstanding(p, es, i, m, es[m].sid, kind) && Offered(es[i].req) == Presented(es[m].req);
    var j: nat :| Outstanding(p, es, j, n, es[n].sid, kind) && Offered(es[j].req) == Presented(es[n].req);
    AcceptedEndsIt(p, es, i, m, n, kind);
  }

  lemma AcceptanceUsesUp(p: Platform, es: seq<Event>, m: nat, kind: Kind)
    requires m < |es| && AcceptedAt(p, es, m, kind)
    ensures UsedUpAt(p, es, m, kind)
  {
  }

  /** With fresh values, a token is accepted only in the session it was issued to. */
  lemma AcceptedWhereIssued(p: Platform, es: seq<Event>, i: nat, n: nat, kind: Kind)
    requires i < |es| && n < |es| && FreshTokens(p, es, kind)
    requires IssuedAt(p, es, i, kind) && AcceptedAt(p, es, n, kind) && Offered(es[i].req) == Presented(es[n].req)
    ensures Outstanding(p, es, i, n, es[n].sid, kind) && es[i].sid == es[n].sid
  {
    hide IssuedAt;
    AcceptedIsOutstanding(p, es, n, kind);
    var j: nat :| Outstanding(p, es, j, n, es[n].sid, kind) && Offered(es[j].req) == Presented(es[n].req);
    assert i == j;
  }
}
