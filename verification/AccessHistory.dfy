/** Access as a matter of history: what must have happened in a session for the guard to pass. */
module AccessHistory {
  import opened Wrappers
  import opened Platform
  import opened Vault
  import opened UnlockKeyStore
  import opened Auth
  import opened AuthRuns
  import opened VaultRefinement
  import opened VaultRuns

  // ---------------------------------------------------------------------------------
  // The history, told from the requests and their answers alone
  // ---------------------------------------------------------------------------------

  predicate MayGrant(req: Request) {
    req.SetupMasterPassword? || req.Unlock? || req.ChangeMasterPassword? || req.Authenticate?
  }

  function KeyFor(p: Platform, db: Db, userId: Option<Id>, password: string, now: int): Slot {
    if userId.None? || userId.value >= |db.users| then None
    else Filled(UserKey(p, db.users[userId.value], password), db.users[userId.value].autoLockMinutes, now)
  }

  /** The key a request grants when it is answered, with its limit. */
  function Granted(p: Platform, db: Db, s: Session, now: int, req: Request): Slot {
    match req
    case SetupMasterPassword(password, salt, _) => Filled(p.derive(password, salt), DEFAULT_AUTO_LOCK_MINUTES, now)
    case Unlock(password) => KeyFor(p, db, s.userId, password, now)
    case Authenticate(reply, password) =>
      var device := FindCredential(db.devices, reply.credentialId);
      KeyFor(p, db, if device.Some? then Some(device.value.userId) else None, password, now)
    case ChangeMasterPassword(_, newPassword, salt, _, _) =>
      if s.userId.None? || s.userId.value >= |db.users| then None
      else Filled(p.derive(newPassword, salt), db.users[s.userId.value].autoLockMinutes, now)
    case _ => None
  }

  predicate Touches(req: Request) {
    BehindUnlockedGuard(req) || req.Me?
  }

  /** Lock, logout, and a Google login as an existing user. */
  predicate Locks(db: Db, req: Request, response: Response) {
    req.Lock? || req.Logout? ||
    (req.GoogleCallback? && response.Answer? && req.profile.Some? && FindUser(db.users, req.profile.value.sub).Some?)
  }

  function Relimit(entry: UnlockEntry, req: Request, response: Response): UnlockEntry {
    if req.SetAutoLock? && response.Answer? then entry.(autoLockMinutes := req.minutes) else entry
  }

  /** What the history of a session says it holds, from one request to the next. */
  function Next(p: Platform, db: Db, s: Session, now: int, req: Request, response: Response, held: Slot): Slot {
    if MayGrant(req) && response.Answer? then Granted(p, db, s, now, req)
    else if held.None? || Locks(db, req, response) then None
    else if Touches(req) then
      if Expired(held.value, now) then None else Some(Relimit(held.value.(lastActivityAt := now), req, response))
    else held
  }

  // ---------------------------------------------------------------------------------
  // One request
  // ---------------------------------------------------------------------------------

  /** The entry an unlocked session has in the store. */
  function Holds(s: Session, slot: Slot): Slot {
    if s.unlocked then slot else None
  }

  lemma GrantHolds(p: Platform, db: Db, s: Session, slot: Slot, now: int, req: Request)
    requires MayGrant(req) && Handle(p, db, s, slot, now, req).response.Answer?
    ensures var out := Handle(p, db, s, slot, now, req);
            Holds(out.session, out.slot) == Granted(p, db, s, now, req) &&
            Granted(p, db, s, now, req).Some? && Granted(p, db, s, now, req).value.lastActivityAt == now
  {
    hide Reencrypt;
  }

  lemma GuardedHolds(p: Platform, db: Db, s: Session, slot: Slot, now: int, req: Request)
    requires (s.unlocked ==> s.userId.Some?) && BehindUnlockedGuard(req)
    requires MayGrant(req) ==> Handle(p, db, s, slot, now, req).response.Failed?
    ensures var out := Handle(p, db, s, slot, now, req);
            Holds(out.session, out.slot) == Next(p, db, s, now, req, out.response, Holds(s, slot))
  {
    hide Reencrypt, Granted, CreateRow, UpdateRow, RemoveRow, ReadRow, ExportFile, OpenFile, ImportEntries;
  }

  lemma OpenHolds(p: Platform, db: Db, s: Session, slot: Slot, now: int, req: Request)
    requires (s.unlocked ==> s.userId.Some?) && !BehindUnlockedGuard(req)
    requires MayGrant(req) ==> Handle(p, db, s, slot, now, req).response.Failed?
    ensures var out := Handle(p, db, s, slot, now, req);
            Holds(out.session, out.slot) == Next(p, db, s, now, req, out.response, Holds(s, slot))
  {
    hide Serve, Granted;
  }

  lemma RequestHolds(p: Platform, db: Db, s: Session, slot: Slot, now: int, req: Request)
    requires s.unlocked ==> s.userId.Some?
    ensures var out := Handle(p, db, s, slot, now, req);
            Holds(out.session, out.slot) == Next(p, db, s, now, req, out.response, Holds(s, slot)) &&
            (out.session.unlocked ==> out.session.userId.Some?)
  {
    hide Handle, Granted, Locks, Holds;
    StaysLoggedIn(p, db, s, slot, now, req);
    if MayGrant(req) && Handle(p, db, s, slot, now, req).response.Answer? {
      GrantHolds(p, db, s, slot, now, req);
    } else if BehindUnlockedGuard(req) {
      GuardedHolds(p, db, s, slot, now, req);
    } else {
      OpenHolds(p, db, s, slot, now, req);
    }
  }

  // ---------------------------------------------------------------------------------
  // Whole runs
  // ---------------------------------------------------------------------------------

  function TimeOf(p: Platform, es: seq<Event>, k: nat): int
    requires k < |es|
  {
    At(p, es, k).now + es[k].elapsed
  }

  predicate GrantAt(p: Platform, es: seq<Event>, k: nat, sid: string)
    requires k < |es|
  {
    By(es, k, sid) && MayGrant(es[k].req) && ResponseAt(p, es, k).Answer?
  }

  function GrantedAt(p: Platform, es: seq<Event>, k: nat): Slot
    requires k < |es| && es[k].Call?
  {
    Granted(p, At(p, es, k).db, SessionOf(At(p, es, k), es[k].sid), TimeOf(p, es, k), es[k].req)
  }

  /** When the session was last used, from its grant g up to event n. */
  function LastUse(p: Platform, es: seq<Event>, g: nat, n: nat, sid: string): int
    requires g < n <= |es|
  {
    if n - 1 == g || (By(es, n - 1, sid) && Touches(es[n - 1].req)) then TimeOf(p, es, n - 1)
    else LastUse(p, es, g, n - 1, sid)
  }

  /** The idle limit in force: the granted one, or the last one set in this session since. */
  function LimitInForce(p: Platform, es: seq<Event>, g: nat, n: nat, sid: string): int
    requires g < n <= |es| && es[g].Call?
  {
    if n - 1 == g then (if GrantedAt(p, es, g).Some? then GrantedAt(p, es, g).value.autoLockMinutes else 0)
    else if By(es, n - 1, sid) && es[n - 1].req.SetAutoLock? && ResponseAt(p, es, n - 1).Answer?
      then es[n - 1].req.minutes
    else LimitInForce(p, es, g, n - 1, sid)
  }

  predicate WithinLimit(p: Platform, es: seq<Event>, g: nat, n: nat, sid: string, now: int)
    requires g < n <= |es| && es[g].Call?
  {
    now - LastUse(p, es, g, n, sid) <= LimitInForce(p, es, g, n, sid) * 60_000
  }

  /** Event k ends the access granted at g: a restart, a newer grant, a lock, logout or login as an
      existing user, or a use that comes later than the limit in force allows. */
  predicate Ends(p: Platform, es: seq<Event>, g: nat, k: nat, sid: string)
    requires g < k < |es| && es[g].Call?
  {
    es[k].Restart? ||
    (By(es, k, sid) &&
     (GrantAt(p, es, k, sid) || Locks(At(p, es, k).db, es[k].req, ResponseAt(p, es, k)) ||
      (Touches(es[k].req) && !WithinLimit(p, es, g, k, sid, TimeOf(p, es, k)))))
  }

  predicate Unbroken(p: Platform, es: seq<Event>, g: nat, n: nat, sid: string)
    requires n <= |es|
  {
    g < n && GrantAt(p, es, g, sid) && forall k :: g < k < n ==> !Ends(p, es, g, k, sid)
  }

  function HeldAt(p: Platform, es: seq<Event>, n: nat, sid: string): Slot
    requires n <= |es|
  {
    Holds(SessionOf(At(p, es, n), sid), SlotOf(At(p, es, n).store, sid))
  }

  lemma {:induction false} UnlockedIsLoggedIn(p: Platform, es: seq<Event>, n: nat, sid: string)
    requires n <= |es|
    ensures SessionOf(At(p, es, n), sid).unlocked ==> SessionOf(At(p, es, n), sid).userId.Some?
  {
    hide Handle, Next;
    if n > 0 {
      UnlockedIsLoggedIn(p, es, n - 1, sid);
      var w := At(p, es, n - 1);
      match es[n - 1]
      case Restart(_) =>
      case Call(elapsed, caller, req) =>
        StepSlots(p, w, elapsed, caller, req, sid);
        if caller == sid {
          RequestHolds(p, w.db, SessionOf(w, sid), SlotOf(w.store, sid), w.now + elapsed, req);
        }
    }
  }

  /** What a session holds changes only by a restart and by its own requests. */
  lemma HeldStep(p: Platform, es: seq<Event>, k: nat, sid: string)
    requires k < |es|
    ensures es[k].Restart? ==> HeldAt(p, es, k + 1, sid) == None
    ensures es[k].Call? && es[k].sid != sid ==> HeldAt(p, es, k + 1, sid) == HeldAt(p, es, k, sid)
    ensures By(es, k, sid) ==>
              HeldAt(p, es, k + 1, sid) ==
              Next(p, At(p, es, k).db, SessionOf(At(p, es, k), sid), TimeOf(p, es, k), es[k].req,
                   ResponseAt(p, es, k), HeldAt(p, es, k, sid))
    ensures GrantAt(p, es, k, sid) ==>
              HeldAt(p, es, k + 1, sid) == GrantedAt(p, es, k) && GrantedAt(p, es, k).Some? &&
              GrantedAt(p, es, k).value.lastActivityAt == TimeOf(p, es, k)
  {
    hide Handle, Next, Granted;
    var w := At(p, es, k);
    UnlockedIsLoggedIn(p, es, k, sid);
    if es[k].Call? {
      StepSlots(p, w, es[k].elapsed, es[k].sid, es[k].req, sid);
      if es[k].sid == sid {
        RequestHolds(p, w.db, SessionOf(w, sid), SlotOf(w.store, sid), TimeOf(p, es, k), es[k].req);
        if GrantAt(p, es, k, sid) {
          GrantHolds(p, w.db, SessionOf(w, sid), SlotOf(w.store, sid), TimeOf(p, es, k), es[k].req);
        }
      }
    }
  }

  ghost predicate HeldSince(p: Platform, es: seq<Event>, g: nat, n: nat, sid: string)
    requires g < n <= |es| && es[g].Call?
  {
    GrantedAt(p, es, g).Some? &&
    HeldAt(p, es, n, sid) ==
      Some(UnlockEntry(GrantedAt(p, es, g).value.key, LimitInForce(p, es, g, n, sid), LastUse(p, es, g, n, sid)))
  }

  lemma {:induction false} UnbrokenIsHeld(p: Platform, es: seq<Event>, g: nat, n: nat, sid: string)
    requires n <= |es| && Unbroken(p, es, g, n, sid)
    ensures HeldSince(p, es, g, n, sid)
    decreases n
  {
    hide At, Granted, Locks, ResponseAt, Holds;
    HeldStep(p, es, n - 1, sid);
    if g < n - 1 {
      UnbrokenIsHeld(p, es, g, n - 1, sid);
      assert !Ends(p, es, g, n - 1, sid);
    }
  }

  lemma NothingHeldYet(p: Platform, es: seq<Event>, sid: string)
    ensures HeldAt(p, es, 0, sid) == None
  {
  }

  lemma {:induction false} HeldIsUnbroken(p: Platform, es: seq<Event>, n: nat, sid: string) returns (g: nat)
    requires n <= |es| && HeldAt(p, es, n, sid).Some?
    ensures Unbroken(p, es, g, n, sid)
    decreases n
  {
    hide Granted, Locks, ResponseAt, HeldAt, At, LastUse, LimitInForce;
    NothingHeldYet(p, es, sid);
    HeldStep(p, es, n - 1, sid);
    if GrantAt(p, es, n - 1, sid) {
      return n - 1;
    }
    g := HeldIsUnbroken(p, es, n - 1, sid);
    UnbrokenIsHeld(p, es, g, n - 1, sid);
    assert !Ends(p, es, g, n - 1, sid);
  }

  /** The guard passes for a session exactly when some earlier setup, unlock, change or device login
      of that session is unbroken and the session was used recently enough; it then hands over the
      key granted there. */
  lemma AccessIsHistory(p: Platform, es: seq<Event>, n: nat, sid: string, now: int)
    requires n <= |es|
    ensures var w := At(p, es, n);
            GuardPasses(SessionOf(w, sid), SlotOf(w.store, sid), now) <==>
              exists g :: Unbroken(p, es, g, n, sid) && WithinLimit(p, es, g, n, sid, now)
    ensures var w := At(p, es, n);
            forall g :: Unbroken(p, es, g, n, sid) && WithinLimit(p, es, g, n, sid, now) ==>
              GrantedAt(p, es, g).Some? && TouchedKey(SlotOf(w.store, sid), now) == Some(GrantedAt(p, es, g).value.key)
  {
    hide At, Granted, Ends, LimitInForce, LastUse;
    var w := At(p, es, n);
    UnlockedIsLoggedIn(p, es, n, sid);
    if GuardPasses(SessionOf(w, sid), SlotOf(w.store, sid), now) {
      var g := HeldIsUnbroken(p, es, n, sid);
      UnbrokenIsHeld(p, es, g, n, sid);
      assert WithinLimit(p, es, g, n, sid, now);
    }
    forall g | Unbroken(p, es, g, n, sid) && WithinLimit(p, es, g, n, sid, now)
      ensures GuardPasses(SessionOf(w, sid), SlotOf(w.store, sid), now)
      ensures GrantedAt(p, es, g).Some? && TouchedKey(SlotOf(w.store, sid), now) == Some(GrantedAt(p, es, g).value.key)
    {
      UnbrokenIsHeld(p, es, g, n, sid);
    }
  }

  /** In disciplined runs the key handed over is the session user's current key. */
  lemma GuardHandsCurrentKey(p: Platform, es: seq<Event>, n: nat, sid: string, elapsed: nat)
    requires Lawful(p) && n <= |es|
    requires forall i :: 0 <= i < n ==> Disciplined(p, At(p, es, i), es[i])
    ensures var w, sh := At(p, es, n), ShadowAt(p, es, n);
            var s, slot := SessionOf(w, sid), SlotOf(w.store, sid);
            |w.db.users| == |sh.passwords| &&
            (GuardPasses(s, slot, w.now + elapsed) ==>
              s.userId.value < |w.db.users| &&
              TouchedKey(slot, w.now + elapsed) == Some(CurrentKey(p, w.db, sh, s.userId.value)))
  {
    hide At, ShadowAt, TablesShow;
    VaultRefines(p, es, n);
    TablesSized(p, At(p, es, n).db, ShadowAt(p, es, n));
    LaterRight(p, At(p, es, n), ShadowAt(p, es, n), sid, At(p, es, n).now + elapsed);
  }
}
