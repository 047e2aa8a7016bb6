/**
 The vault refinement over whole runs: which events keep it, and exactly which break it.
 */
module VaultRuns {
  import opened Wrappers
  import opened Platform
  import opened Vault
  import opened Backup
  import opened UnlockKeyStore
  import opened Auth
  import opened AuthRuns
  import opened VaultRefinement

  function EventEffect(p: Platform, w: World, e: Event): Effect {
    if e.Restart? then Nothing
    else EffectOf(p, w.db, SessionOf(w, e.sid), SlotOf(w.store, e.sid), w.now + e.elapsed, e.req)
  }

  /** The plain vault and the current passwords after the first n events. */
  function ShadowAt(p: Platform, es: seq<Event>, n: nat): Shadow
    requires n <= |es|
  {
    if n == 0 then NOTHING_YET else Shadowed(ShadowAt(p, es, n - 1), EventEffect(p, At(p, es, n - 1), es[n - 1]))
  }

  ghost predicate SessionsRight(p: Platform, w: World, sh: Shadow)
    requires |w.db.users| == |sh.passwords|
  {
    forall sid :: SessionRight(p, w.db, sh, SessionOf(w, sid), SlotOf(w.store, sid), w.now)
  }

  ghost predicate Refines(p: Platform, w: World, sh: Shadow) {
    TablesShow(p, w.db, sh) && SessionsRight(p, w, sh)
  }

  predicate OpenFor(w: World, sid: string, now: int, userId: Option<Id>) {
    SessionOf(w, sid).userId == userId && Open(SessionOf(w, sid), SlotOf(w.store, sid), now)
  }

  /** The master-password change that the guard and the checks let through. */
  predicate Accepts(p: Platform, db: Db, s: Session, slot: Slot, now: int, req: Request) {
    req.ChangeMasterPassword? && GuardPasses(s, slot, now) && s.userId.value < |db.users| &&
    p.verify(req.currentPassword, db.users[s.userId.value].masterPasswordHash) &&
    |req.newPassword| >= 8
  }

  predicate AcceptsChange(p: Platform, w: World, e: Event) {
    e.Call? && Accepts(p, w.db, SessionOf(w, e.sid), SlotOf(w.store, e.sid), w.now + e.elapsed, e.req)
  }

  /** An accepted change while another session of the same user is open. */
  ghost predicate Strands(p: Platform, w: World, e: Event) {
    AcceptsChange(p, w, e) && AnotherOpen(w, e.sid, w.now + e.elapsed, SessionOf(w, e.sid).userId)
  }

  ghost predicate AnotherOpen(w: World, sid: string, now: int, userId: Option<Id>) {
    exists other :: other != sid && OpenFor(w, other, now, userId)
  }

  predicate RebindsSession(p: Platform, w: World, e: Event) {
    e.Call? && Rebinds(p, w.db, SessionOf(w, e.sid), SlotOf(w.store, e.sid), w.now + e.elapsed, e.req)
  }

  ghost predicate Disciplined(p: Platform, w: World, e: Event) {
    !Strands(p, w, e) && !RebindsSession(p, w, e)
  }

  // ---------------------------------------------------------------------------------
  // The sessions that did not make the request
  // ---------------------------------------------------------------------------------

  /** User v has the same key before and after. */
  predicate KeyKept(p: Platform, db: Db, sh: Shadow, after: Db, shAfter: Shadow, v: Id)
    requires |db.users| == |sh.passwords|
  {
    v < |db.users| ==>
      v < |after.users| && v < |shAfter.passwords| &&
      UserKey(p, after.users[v], shAfter.passwords[v]) == UserKey(p, db.users[v], sh.passwords[v])
  }

  lemma OtherSessionRight(p: Platform, db: Db, sh: Shadow, after: Db, shAfter: Shadow, s: Session, slot: Slot,
      now: int, later: int)
    requires |db.users| == |sh.passwords| && |after.users| == |shAfter.passwords| && |db.users| <= |after.users| &&
             now <= later
    requires SessionRight(p, db, sh, s, slot, now)
    requires Open(s, slot, later) && s.userId.Some? ==> KeyKept(p, db, sh, after, shAfter, s.userId.value)
    ensures SessionRight(p, after, shAfter, s, slot, later)
  {
  }

  lemma TablesSized(p: Platform, db: Db, sh: Shadow)
    requires TablesShow(p, db, sh)
    ensures |db.users| == |sh.passwords|
  {
  }

  lemma ReadersKeepTables(p: Platform, db: Db, s: Session, slot: Slot, now: int, req: Request)
    requires KeepsTables(req)
    ensures Handle(p, db, s, slot, now, req).db == db
  {
  }

  lemma ChangedKeyOnly(p: Platform, db: Db, sh: Shadow, s: Session, slot: Slot, now: int, req: Request, v: Id)
    requires |db.users| == |sh.passwords| && req.ChangeMasterPassword?
    requires Handle(p, db, s, slot, now, req).response.Answer? ==> s.userId != Some(v)
    ensures var out, after := Handle(p, db, s, slot, now, req), Shadowed(sh, EffectOf(p, db, s, slot, now, req));
            KeyKept(p, db, sh, out.db, after, v)
  {
    hide Reencrypt;
  }

  /** Whatever is requested, the keys of the users who do not change their password stay. */
  lemma OtherKeysKept(p: Platform, db: Db, sh: Shadow, s: Session, slot: Slot, now: int, req: Request, v: Id)
    requires Lawful(p) && TablesShow(p, db, sh) && SessionRight(p, db, sh, s, slot, now)
    requires req.ChangeMasterPassword? && Handle(p, db, s, slot, now, req).response.Answer? ==> s.userId != Some(v)
    ensures |db.users| == |sh.passwords|
    ensures var out, after := Handle(p, db, s, slot, now, req), Shadowed(sh, EffectOf(p, db, s, slot, now, req));
            KeyKept(p, db, sh, out.db, after, v)
  {
    TablesSized(p, db, sh);
    hide TablesShow, Serve;
    if req.ChangeMasterPassword? {
      ChangedKeyOnly(p, db, sh, s, slot, now, req, v);
    } else if BehindUnlockedGuard(req) && !GuardPasses(s, slot, now) {
      RefusedKeeps(p, db, sh, s, slot, now, req);
    } else if ChangesAccounts(req) {
      AccountRequestsRefine(p, db, sh, s, slot, now, req);
    } else if DeviceRequest(req) {
      DeviceRequestsRefine(p, db, sh, s, slot, now, req);
    } else if KeepsTables(req) {
      ReadersKeepTables(p, db, s, slot, now, req);
    } else if req.SetAutoLock? {
      LimitRefines(p, db, sh, s, slot, now, req);
    } else if Handle(p, db, s, slot, now, req).response.Failed? {
      RefusedKeeps(p, db, sh, s, slot, now, req);
    } else {
      SetupRefines(p, db, sh, s, slot, now, req);
    }
  }

  // ---------------------------------------------------------------------------------
  // One event
  // ---------------------------------------------------------------------------------

  /** Once the checks pass, the re-encryption cannot fail: every row of the user opens. */
  lemma AcceptedIsAnswered(p: Platform, db: Db, sh: Shadow, s: Session, slot: Slot, now: int, req: Request)
    requires Lawful(p) && TablesShow(p, db, sh) && SessionRight(p, db, sh, s, slot, now)
    ensures Accepts(p, db, s, slot, now, req) <==>
              req.ChangeMasterPassword? && Handle(p, db, s, slot, now, req).response.Answer?
  {
    if Accepts(p, db, s, slot, now, req) {
      var u := s.userId.value;
      GuardHandsOverCurrentKey(p, db, sh, s, slot, now, req);
      assert req.currentPassword == sh.passwords[u];
      ReencryptedShow(p, CurrentKeys(p, db.users, sh.passwords), db, sh.vault, u, p.derive(req.newPassword, req.salt),
                      req.draw, db.users, db.devices);
    }
    hide AccountsShow, Lawful, HashesMatch, Reencrypt;
  }

  lemma OthersStayRight(p: Platform, w: World, sh: Shadow, e: Event, other: string)
    requires Lawful(p) && Refines(p, w, sh) && e.Call? && other != e.sid && !Strands(p, w, e)
    requires TablesShow(p, Step(p, w, e).db, Shadowed(sh, EventEffect(p, w, e)))
    ensures var after, shAfter := Step(p, w, e), Shadowed(sh, EventEffect(p, w, e));
            |after.db.users| == |shAfter.passwords| &&
            SessionRight(p, after.db, shAfter, SessionOf(after, other), SlotOf(after.store, other), after.now)
  {
    hide TablesShow, Handle, Shadowed, EffectOf, Accepts, KeyKept, Live, SlotOf, WithSlot, Lawful;
    var now := w.now + e.elapsed;
    var caller, slot := SessionOf(w, e.sid), SlotOf(w.store, e.sid);
    var after, shAfter := Step(p, w, e), Shadowed(sh, EventEffect(p, w, e));
    var s := SessionOf(w, other);
    TablesSized(p, w.db, sh);
    StepSlots(p, w, e.elapsed, e.sid, e.req, other);
    assert SessionRight(p, w.db, sh, s, SlotOf(w.store, other), w.now);
    LaterRight(p, w, sh, e.sid, now);
    AcceptedIsAnswered(p, w.db, sh, caller, slot, now, e.req);
    TablesSized(p, after.db, shAfter);
    UsersOnlyGrow(p, w.db, caller, slot, now, e.req);
    if Open(s, SlotOf(w.store, other), now) && s.userId.Some? {
      assert OpenFor(w, other, now, s.userId);
      OtherKeysKept(p, w.db, sh, caller, slot, now, e.req, s.userId.value);
    }
    OtherSessionRight(p, w.db, sh, after.db, shAfter, s, SlotOf(w.store, other), w.now, now);
  }

  lemma UsersOnlyGrow(p: Platform, db: Db, s: Session, slot: Slot, now: int, req: Request)
    ensures |db.users| <= |Handle(p, db, s, slot, now, req).db.users|
  {
  }

  lemma LaterRight(p: Platform, w: World, sh: Shadow, sid: string, later: int)
    requires |w.db.users| == |sh.passwords| && SessionsRight(p, w, sh) && w.now <= later
    ensures SessionRight(p, w.db, sh, SessionOf(w, sid), SlotOf(w.store, sid), later)
  {
    assert SessionRight(p, w.db, sh, SessionOf(w, sid), SlotOf(w.store, sid), w.now);
    OtherSessionRight(p, w.db, sh, w.db, sh, SessionOf(w, sid), SlotOf(w.store, sid), w.now, later);
  }

  lemma StepRefines(p: Platform, w: World, sh: Shadow, e: Event)
    requires Lawful(p) && Refines(p, w, sh) && Disciplined(p, w, e)
    ensures Refines(p, Step(p, w, e), Shadowed(sh, EventEffect(p, w, e)))
  {
    var now := w.now + e.elapsed;
    var after, shAfter := Step(p, w, e), Shadowed(sh, EventEffect(p, w, e));
    hide TablesShow, SessionRight, Handle, Shadowed, EffectOf, Strands, Rebinds;
    TablesSized(p, w.db, sh);
    match e
    case Restart(_) =>
      RestartRight(p, w, sh, e);
    case Call(elapsed, sid, req) =>
      LaterRight(p, w, sh, sid, now);
      RequestRefines(p, w.db, sh, SessionOf(w, sid), SlotOf(w.store, sid), now, req);
      TablesSized(p, after.db, shAfter);
      forall other
        ensures SessionRight(p, after.db, shAfter, SessionOf(after, other), SlotOf(after.store, other), after.now)
      {
        StepSlots(p, w, elapsed, sid, req, other);
        if other != sid {
          OthersStayRight(p, w, sh, e, other);
        }
      }
  }

  lemma RestartRight(p: Platform, w: World, sh: Shadow, e: Event)
    requires Refines(p, w, sh) && e.Restart?
    ensures Refines(p, Step(p, w, e), Shadowed(sh, EventEffect(p, w, e)))
  {
    forall sid
      ensures SessionRight(p, w.db, sh, SessionOf(Step(p, w, e), sid), SlotOf(Step(p, w, e).store, sid),
                           w.now + e.elapsed)
    {
      assert SessionRight(p, w.db, sh, SessionOf(w, sid), SlotOf(w.store, sid), w.now);
    }
  }

  // ---------------------------------------------------------------------------------
  // Exactly which events break it
  // ---------------------------------------------------------------------------------

  ghost function CurrentKey(p: Platform, db: Db, sh: Shadow, u: Id): Bytes
    requires u < |db.users| == |sh.passwords|
  {
    UserKey(p, db.users[u], sh.passwords[u])
  }

  /** No two users share a key, and a new master password brings a new key. */
  ghost predicate KeysDiffer(p: Platform, w: World, sh: Shadow, e: Event)
    requires |w.db.users| == |sh.passwords|
  {
    (forall u, v :: 0 <= u < v < |w.db.users| ==> CurrentKey(p, w.db, sh, u) != CurrentKey(p, w.db, sh, v)) &&
    (AcceptsChange(p, w, e) ==>
      p.derive(e.req.newPassword, e.req.salt) != CurrentKey(p, w.db, sh, SessionOf(w, e.sid).userId.value))
  }

  lemma ChangedKey(p: Platform, db: Db, sh: Shadow, s: Session, slot: Slot, now: int, req: Request)
    requires |db.users| == |sh.passwords| && Accepts(p, db, s, slot, now, req)
    requires Handle(p, db, s, slot, now, req).response.Answer?
    ensures var out, after := Handle(p, db, s, slot, now, req), Shadowed(sh, EffectOf(p, db, s, slot, now, req));
            |out.db.users| == |after.passwords| == |db.users| &&
            CurrentKey(p, out.db, after, s.userId.value) == p.derive(req.newPassword, req.salt)
  {
    hide Reencrypt;
  }

  lemma StrandedNotRight(p: Platform, w: World, sh: Shadow, e: Event)
    requires Lawful(p) && Refines(p, w, sh) && KeysDiffer(p, w, sh, e) && Strands(p, w, e)
    ensures !Refines(p, Step(p, w, e), Shadowed(sh, EventEffect(p, w, e)))
  {
    hide TablesShow, Handle, Shadowed, EffectOf, Lawful;
    TablesSized(p, w.db, sh);
    var now, u := w.now + e.elapsed, SessionOf(w, e.sid).userId;
    var after, shAfter := Step(p, w, e), Shadowed(sh, EventEffect(p, w, e));
    var other :| other != e.sid && OpenFor(w, other, now, u);
    LaterRight(p, w, sh, e.sid, now);
    LaterRight(p, w, sh, other, now);
    AcceptedIsAnswered(p, w.db, sh, SessionOf(w, e.sid), SlotOf(w.store, e.sid), now, e.req);
    ChangedKey(p, w.db, sh, SessionOf(w, e.sid), SlotOf(w.store, e.sid), now, e.req);
    StepSlots(p, w, e.elapsed, e.sid, e.req, other);
    assert CurrentKey(p, after.db, shAfter, u.value) != CurrentKey(p, w.db, sh, u.value);
    assert !SessionRight(p, after.db, shAfter, SessionOf(after, other), SlotOf(after.store, other), after.now);
  }

  lemma ReboundSession(p: Platform, db: Db, sh: Shadow, s: Session, slot: Slot, now: int, req: Request)
    requires TablesShow(p, db, sh) && Rebinds(p, db, s, slot, now, req)
    ensures var out := Handle(p, db, s, slot, now, req);
            out.db == db && out.slot == slot && out.session.unlocked && out.session.userId.Some? &&
            out.session.userId != s.userId && out.session.userId.value < |db.users| &&
            Shadowed(sh, EffectOf(p, db, s, slot, now, req)) == sh
  {
    assert FindCredential(db.devices, req.reply.credentialId).value in db.devices;
    hide HashesMatch, AccountsShow;
  }

  lemma ReboundNotRight(p: Platform, w: World, sh: Shadow, e: Event)
    requires Refines(p, w, sh) && KeysDiffer(p, w, sh, e) && RebindsSession(p, w, e)
    ensures !Refines(p, Step(p, w, e), Shadowed(sh, EventEffect(p, w, e)))
  {
    hide TablesShow, Handle, Shadowed, EffectOf;
    TablesSized(p, w.db, sh);
    var now, s, slot := w.now + e.elapsed, SessionOf(w, e.sid), SlotOf(w.store, e.sid);
    var after, shAfter := Step(p, w, e), Shadowed(sh, EventEffect(p, w, e));
    LaterRight(p, w, sh, e.sid, now);
    ReboundSession(p, w.db, sh, s, slot, now, e.req);
    StepSlots(p, w, e.elapsed, e.sid, e.req, e.sid);
    var u, v := s.userId.value, SessionOf(after, e.sid).userId.value;
    assert CurrentKey(p, w.db, sh, u) != CurrentKey(p, w.db, sh, v);
    assert !SessionRight(p, after.db, shAfter, SessionOf(after, e.sid), SlotOf(after.store, e.sid), after.now);
  }

  /** An event keeps the refinement exactly when it is no master-password change that leaves another
      session of the user open, and no rebinding of an open session to another user. */
  lemma StepRefinesExactly(p: Platform, w: World, sh: Shadow, e: Event)
    requires Lawful(p) && Refines(p, w, sh) && KeysDiffer(p, w, sh, e)
    ensures Refines(p, Step(p, w, e), Shadowed(sh, EventEffect(p, w, e))) <==>
              !Strands(p, w, e) && !RebindsSession(p, w, e)
  {
    hide Refines, Step, Shadowed, EventEffect, Strands, RebindsSession, KeysDiffer;
    if Strands(p, w, e) {
      StrandedNotRight(p, w, sh, e);
    } else if RebindsSession(p, w, e) {
      ReboundNotRight(p, w, sh, e);
    } else {
      StepRefines(p, w, sh, e);
    }
  }

  /** A session that is open under another key than its user's writes what nobody can read: after one
      `create`, no plain vault is behind the tables, and the user's own key does not open the row. */
  lemma WrongKeyWriteLost(p: Platform, db: Db, sh: Shadow, s: Session, slot: Slot, now: int, e: Entry, draw: nat)
    requires Lawful(p) && WrongKeyFails(p) && TablesShow(p, db, sh) && GuardPasses(s, slot, now)
    requires s.userId.value < |db.users| &&
             TouchedKey(slot, now) != Some(UserKey(p, db.users[s.userId.value], sh.passwords[s.userId.value]))
    requires EntryKey(s.userId.value, e) !in sh.vault
    ensures var out, u := Handle(p, db, s, slot, now, CreateAccount(e, draw)), s.userId.value;
            out.response == Answer(Done) &&
            (forall v :: !TablesShow(p, out.db, sh.(vault := v))) &&
            ReadRow(p, out.db.accounts, u, db.nextId, UserKey(p, db.users[u], sh.passwords[u])) == Err(CannotDecrypt)
  {
    var u, key := s.userId.value, TouchedKey(slot, now).value;
    var keys := CurrentKeys(p, db.users, sh.passwords);
    var out := Handle(p, db, s, slot, now, CreateAccount(e, draw));
    forall i | 0 <= i < |db.accounts|
      ensures KeyOf(db.accounts[i]) != EntryKey(u, e)
    {
      assert Shown(p, keys, db.accounts[i], sh.vault);
    }
    var row := NewRow(p, db.nextId, u, key, e, draw);
    assert out.db.accounts == db.accounts + [row];
    assert p.open(key, row.encryptedPassword) == Some(e.password);
    assert p.open(keys[u], row.encryptedPassword) == None;
    assert out.db.accounts[|db.accounts|] == row;
    forall v
      ensures !TablesShow(p, out.db, sh.(vault := v))
    {
      assert !Shown(p, keys, out.db.accounts[|db.accounts|], v);
    }
  }

  // ---------------------------------------------------------------------------------
  // Whole runs
  // ---------------------------------------------------------------------------------

  /** The refinement, over every disciplined run from the empty server. */
  lemma {:induction false} VaultRefines(p: Platform, es: seq<Event>, n: nat)
    requires Lawful(p) && n <= |es|
    requires forall i :: 0 <= i < n ==> Disciplined(p, At(p, es, i), es[i])
    ensures Refines(p, At(p, es, n), ShadowAt(p, es, n))
  {
    hide Refines, Disciplined, Step, EventEffect, Shadowed;
    if n == 0 {
      NothingYetShown(p);
    } else {
      VaultRefines(p, es, n - 1);
      StepRefines(p, At(p, es, n - 1), ShadowAt(p, es, n - 1), es[n - 1]);
    }
  }

  lemma NothingYetShown(p: Platform)
    ensures Refines(p, INITIAL, NOTHING_YET)
  {
  }

  /** What the refinement gives a reader of the tables: each row opens under its owner's current
      password and salt to the last password written for it, and the rows are exactly the entries. */
  lemma RowsOpen(p: Platform, w: World, sh: Shadow)
    requires Refines(p, w, sh)
    ensures |w.db.users| == |sh.passwords|
    ensures forall i :: 0 <= i < |w.db.accounts| ==>
              var r := w.db.accounts[i];
              r.userId < |w.db.users| && KeyOf(r) in sh.vault &&
              p.open(p.derive(sh.passwords[r.userId], w.db.users[r.userId].masterKdfSalt), r.encryptedPassword) ==
                Some(sh.vault[KeyOf(r)].password)
    ensures forall key :: key in sh.vault <==> Taken(w.db.accounts, key)
    ensures KeysUnique(w.db.accounts)
  {
    forall i | 0 <= i < |w.db.accounts|
      ensures var r := w.db.accounts[i];
              Shown(p, CurrentKeys(p, w.db.users, sh.passwords), r, sh.vault)
    {
    }
  }

  /** What the plain vault answers to a request that passed the guard. */
  ghost predicate AnswersVault(p: Platform, db: Db, sh: Shadow, u: Id, req: Request, response: Response) {
    match req
    case GetAccount(id) =>
      var i := Find(db.accounts, u, id);
      if i.None? then response == Failed(Missing)
      else KeyOf(db.accounts[i.value]) in sh.vault && response == Answer(Secret(sh.vault[KeyOf(db.accounts[i.value])]))
    case CreateAccount(e, _) => response == (if EntryKey(u, e) in sh.vault then Failed(Duplicate) else Answer(Done))
    case UpdateAccount(id, patch, _) =>
      var i := Find(db.accounts, u, id);
      if i.None? then response == Failed(Missing) else
      var key := KeyOf(db.accounts[i.value]);
      key in sh.vault &&
      var target := EntryKey(u, PatchedEntry(sh.vault[key], patch));
      response == (if target != key && target in sh.vault then Failed(Duplicate) else Answer(Done))
    case RemoveAccount(id) => response == (if Find(db.accounts, u, id).None? then Failed(Missing) else Answer(Done))
    case ExportAccounts(exportPassword, _, _) =>
      response.Answer? && response.payload.File? &&
      (forall i :: 0 <= i < |RowsOf(db.accounts, u)| ==> KeyOf(RowsOf(db.accounts, u)[i]) in sh.vault) &&
      OpenFile(p, exportPassword, response.payload.file) == Ok(EntriesIn(sh.vault, RowsOf(db.accounts, u)))
    case ImportAccounts(exportPassword, file, _, faultAt) =>
      (match OpenFile(p, exportPassword, file)
       case Err(e) => response == Failed(FromError(e))
       case Ok(entries) =>
         var reached := Reached(entries, faultAt);
         var imported := |InsertAll(sh.vault, u, reached)| - |sh.vault|;
         0 <= imported <= |reached| &&
         response ==
           (if |reached| < |entries| then Failed(Unexpected) else Answer(Counts(imported, |reached| - imported))))
    case _ => true
  }

  lemma AnswersFromVault(p: Platform, w: World, sh: Shadow, elapsed: nat, sid: string, req: Request)
    requires Lawful(p) && JsonRoundTrips(p) && Refines(p, w, sh)
    requires BehindUnlockedGuard(req) && GuardPasses(SessionOf(w, sid), SlotOf(w.store, sid), w.now + elapsed)
    ensures AnswersVault(p, w.db, sh, SessionOf(w, sid).userId.value, req, Answered(p, w, elapsed, sid, req).response)
  {
    LaterRight(p, w, sh, sid, w.now + elapsed);
    GuardHandsOverCurrentKey(p, w.db, sh, SessionOf(w, sid), SlotOf(w.store, sid), w.now + elapsed, req);
    ServedFromVault(p, w.db, sh, SessionOf(w, sid), Touched(SlotOf(w.store, sid), w.now + elapsed), w.now + elapsed,
                    SessionOf(w, sid).userId.value, req);
    hide Serve, AnswersVault, TablesShow, SessionRight, CurrentKeys;
  }

  lemma ServedFromVault(p: Platform, db: Db, sh: Shadow, s: Session, slot: Slot, now: int, u: Id, req: Request)
    requires Lawful(p) && JsonRoundTrips(p) && TablesShow(p, db, sh) && u < |db.users| && BehindUnlockedGuard(req)
    ensures AnswersVault(p, db, sh, u, req,
                         Serve(p, db, s, slot, now, u, CurrentKeys(p, db.users, sh.passwords)[u], req).response)
  {
    var keys := CurrentKeys(p, db.users, sh.passwords);
    if req.ExportAccounts? || req.ImportAccounts? {
      FilesFromVault(p, keys, db, sh, s, slot, now, u, req);
    } else {
      RowsFromVault(p, keys, db, sh, s, slot, now, u, req);
    }
    hide Serve, AnswersVault, AccountsShow, HashesMatch, DevicesOwned;
  }

  lemma FilesFromVault(p: Platform, keys: map<Id, Bytes>, db: Db, sh: Shadow, s: Session, slot: Slot, now: int, u: Id,
      req: Request)
    requires Lawful(p) && JsonRoundTrips(p) && AccountsShow(p, keys, db, sh.vault) && u in keys
    requires req.ExportAccounts? || req.ImportAccounts?
    ensures AnswersVault(p, db, sh, u, req, Serve(p, db, s, slot, now, u, keys[u], req).response)
  {
    if req.ExportAccounts? {
      ExportShowsVault(p, keys, db.accounts, sh.vault, u, req.exportPassword, req.salt, req.draw);
    } else if OpenFile(p, req.exportPassword, req.file).Ok? {
      var reached := Reached(OpenFile(p, req.exportPassword, req.file).value, req.faultAt);
      ImportCounts(p, keys, db.accounts, sh.vault, db.nextId, u, reached, req.draw);
    }
    hide Represents, WellFormed, Lawful, ImportEntries, JsonRoundTrips, OpenFile, ExportFile, EntriesIn, InsertAll,
        RowsOf;
  }

  lemma RowsFromVault(p: Platform, keys: map<Id, Bytes>, db: Db, sh: Shadow, s: Session, slot: Slot, now: int, u: Id,
      req: Request)
    requires Lawful(p) && AccountsShow(p, keys, db, sh.vault) && u in keys
    requires BehindUnlockedGuard(req) && !req.ExportAccounts? && !req.ImportAccounts?
    ensures AnswersVault(p, db, sh, u, req, Serve(p, db, s, slot, now, u, keys[u], req).response)
  {
    var found := if req.GetAccount? || req.UpdateAccount? || req.RemoveAccount? then Find(db.accounts, u, req.id)
                 else None;
    if req.GetAccount? && found.Some? {
      ReadRefines(p, keys, db.accounts, sh.vault, u, req.id);
    } else if req.CreateAccount? {
      CreateRefines(p, keys, db.accounts, sh.vault, db.nextId, u, req.entry, req.draw);
    } else if req.UpdateAccount? && found.Some? {
      UpdateRefines(p, keys, db.accounts, sh.vault, db.nextId, u, req.id, req.patch, req.draw);
    }
    hide Represents, WellFormed, Lawful, ImportEntries;
  }
}
