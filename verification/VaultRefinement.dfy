/**
 The refinement: over every serial run, the ciphertext tables behave as a plain map from
 (user, url, login) to entry, and every unlocked session holds its user's current key.
 */
module VaultRefinement {
  import opened Wrappers
  import opened Platform
  import opened Vault
  import opened Backup
  import opened UnlockKeyStore
  import opened Auth

  /** What the tables stand for: each user's current master password, and the plain vault. */
  datatype Shadow = Shadow(passwords: seq<string>, vault: Plain)

  const NOTHING_YET := Shadow([], map[])

  /** What a request does to the shadow. */
  datatype Effect =
    | Nothing
    | NewUser(password: string)
    | NewPassword(userId: Id, password: string)
    | Creates(userId: Id, entry: Entry)
    | Updates(key: VaultKey, patch: Patch)
    | Removes(key: VaultKey)
    | Imports(userId: Id, entries: seq<Entry>)

  function EffectOf(p: Platform, db: Db, s: Session, slot: Slot, now: int, req: Request): Effect {
    if BehindUnlockedGuard(req) && !GuardPasses(s, slot, now) then Nothing else
    match req
    case SetupMasterPassword(password, _, _) =>
      if Handle(p, db, s, slot, now, req).response.Answer? then NewUser(password) else Nothing
    case ChangeMasterPassword(_, newPassword, _, _, _) =>
      if Handle(p, db, s, slot, now, req).response.Answer? then NewPassword(s.userId.value, newPassword) else Nothing
    case _ => if ChangesAccounts(req) then AccountsEffect(p, db, s.userId.value, req) else Nothing
  }

  predicate ChangesAccounts(req: Request) {
    req.CreateAccount? || req.UpdateAccount? || req.RemoveAccount? || req.ImportAccounts?
  }

  function AccountsEffect(p: Platform, db: Db, userId: Id, req: Request): Effect
    requires ChangesAccounts(req)
  {
    match req
    case CreateAccount(e, _) => Creates(userId, e)
    case UpdateAccount(id, patch, _) =>
      var i := Find(db.accounts, userId, id);
      if i.Some? then Updates(KeyOf(db.accounts[i.value]), patch) else Nothing
    case RemoveAccount(id) =>
      var i := Find(db.accounts, userId, id);
      if i.Some? then Removes(KeyOf(db.accounts[i.value])) else Nothing
    case ImportAccounts(exportPassword, file, _, faultAt) =>
      var content := OpenFile(p, exportPassword, file);
      if content.Ok? then Imports(userId, Reached(content.value, faultAt)) else Nothing
  }

  /** The plain semantics: no ciphertext, no keys. */
  function Shadowed(sh: Shadow, effect: Effect): Shadow {
    match effect
    case Nothing => sh
    case NewUser(password) => sh.(passwords := sh.passwords + [password])
    case NewPassword(userId, password) =>
      if userId < |sh.passwords| then sh.(passwords := sh.passwords[userId := password]) else sh
    case Creates(userId, e) => sh.(vault := Insert(sh.vault, userId, e))
    case Updates(key, patch) => sh.(vault := Change(sh.vault, key, patch))
    case Removes(key) => sh.(vault := sh.vault - {key})
    case Imports(userId, entries) => sh.(vault := InsertAll(sh.vault, userId, entries))
  }

  /** The key each user's current password and salt derive. */
  ghost function CurrentKeys(p: Platform, users: seq<User>, passwords: seq<string>): map<Id, Bytes>
    requires |users| == |passwords|
  {
    map u: nat | u < |users| :: UserKey(p, users[u], passwords[u])
  }

  ghost predicate HashesMatch(p: Platform, users: seq<User>, passwords: seq<string>) {
    |users| == |passwords| &&
    forall u, attempt :: 0 <= u < |users| ==>
      (p.verify(attempt, users[u].masterPasswordHash) <==> attempt == passwords[u])
  }

  ghost predicate TablesShow(p: Platform, db: Db, sh: Shadow) {
    HashesMatch(p, db.users, sh.passwords) &&
    AccountsShow(p, CurrentKeys(p, db.users, sh.passwords), db, sh.vault) &&
    DevicesOwned(db.devices, |db.users|)
  }

  ghost predicate AccountsShow(p: Platform, keys: map<Id, Bytes>, db: Db, v: Plain) {
    WellFormed(db.accounts, db.nextId) && Represents(p, keys, db.accounts, v)
  }

  ghost predicate DevicesOwned(devices: seq<Device>, users: nat) {
    forall d :: d in devices ==> d.userId < users
  }

  /** The session can pass the guard at this time or later, unless it expires first. */
  predicate Open(s: Session, slot: Slot, now: int) {
    s.unlocked && Live(slot, now).Some?
  }

  ghost predicate SessionRight(p: Platform, db: Db, sh: Shadow, s: Session, slot: Slot, now: int)
    requires |db.users| == |sh.passwords|
  {
    (s.unlocked ==> s.userId.Some?) && (s.userId.Some? ==> s.userId.value < |db.users|) &&
    (Open(s, slot, now) ==> slot.value.key == UserKey(p, db.users[s.userId.value], sh.passwords[s.userId.value]))
  }

  /** Binding a session that is open for one user to another user's device, with a wrong password. */
  predicate Rebinds(p: Platform, db: Db, s: Session, slot: Slot, now: int, req: Request) {
    req.Authenticate? && s.currentWebauthnChallenge.Some? && s.currentWebauthnChallenge.value != "" &&
    Accepted(req.reply, s.currentWebauthnChallenge.value) &&
    var device := FindCredential(db.devices, req.reply.credentialId);
    device.Some? && s.userId != Some(device.value.userId) && Open(s, slot, now) &&
    !(device.value.userId < |db.users| && p.verify(req.password, db.users[device.value.userId].masterPasswordHash))
  }

  // ---------------------------------------------------------------------------------
  // One request, its own session
  // ---------------------------------------------------------------------------------

  lemma MoreKeys(p: Platform, keys: map<Id, Bytes>, more: map<Id, Bytes>, rows: seq<Row>, v: Plain)
    requires Represents(p, keys, rows, v)
    requires forall u :: u in keys ==> u in more && more[u] == keys[u]
    ensures Represents(p, more, rows, v)
  {
    forall i | 0 <= i < |rows|
      ensures Shown(p, more, rows[i], v)
    {
      assert Shown(p, keys, rows[i], v);
    }
  }

  /** Nothing but the accounts table, and the ids handed out, differs. */
  predicate OnlyAccountsDiffer(before: Db, after: Db) {
    after.users == before.users && after.devices == before.devices
  }

  lemma CreateShows(p: Platform, keys: map<Id, Bytes>, db: Db, v: Plain, s: Session, slot: Slot, u: Id, e: Entry,
      draw: nat)
    requires RoundTrips(p) && AccountsShow(p, keys, db, v) && u in keys
    ensures var out := AccountsOutcome(db, s, slot, CreateRow(p, db.accounts, db.nextId, u, keys[u], e, draw), 1);
            AccountsShow(p, keys, out.db, Insert(v, u, e)) && OnlyAccountsDiffer(db, out.db) &&
            (out.response == Failed(Duplicate) <==> EntryKey(u, e) in v)
  {
    CreateRefines(p, keys, db.accounts, v, db.nextId, u, e, draw);
    hide Represents, WellFormed;
  }

  lemma UpdateShows(p: Platform, keys: map<Id, Bytes>, db: Db, v: Plain, s: Session, slot: Slot, u: Id, id: Id,
      patch: Patch, draw: nat)
    requires RoundTrips(p) && AccountsShow(p, keys, db, v) && u in keys
    ensures var out := AccountsOutcome(db, s, slot, UpdateRow(p, db.accounts, u, id, keys[u], patch, draw), 0);
            var i := Find(db.accounts, u, id);
            AccountsShow(p, keys, out.db, if i.Some? then Change(v, KeyOf(db.accounts[i.value]), patch) else v) &&
            OnlyAccountsDiffer(db, out.db)
  {
    if Find(db.accounts, u, id).Some? {
      UpdateRefines(p, keys, db.accounts, v, db.nextId, u, id, patch, draw);
    }
    hide Represents, WellFormed;
  }

  lemma RemoveShows(p: Platform, keys: map<Id, Bytes>, db: Db, v: Plain, s: Session, slot: Slot, u: Id, id: Id)
    requires AccountsShow(p, keys, db, v)
    ensures var out := AccountsOutcome(db, s, slot, RemoveRow(db.accounts, u, id), 0);
            var i := Find(db.accounts, u, id);
            AccountsShow(p, keys, out.db, if i.Some? then v - {KeyOf(db.accounts[i.value])} else v) &&
            OnlyAccountsDiffer(db, out.db)
  {
    if Find(db.accounts, u, id).Some? {
      RemoveRefines(p, keys, db.accounts, v, db.nextId, u, id);
    }
    hide Represents, WellFormed;
  }

  lemma ImportShows(p: Platform, keys: map<Id, Bytes>, db: Db, v: Plain, u: Id, entries: seq<Entry>, draw: nat)
    requires RoundTrips(p) && AccountsShow(p, keys, db, v) && u in keys
    ensures var r := ImportEntries(p, db.accounts, db.nextId, u, keys[u], entries, draw);
            AccountsShow(p, keys, db.(accounts := r.rows, nextId := r.nextId), InsertAll(v, u, entries))
  {
    ImportRefines(p, keys, db.accounts, v, db.nextId, u, entries, draw);
  }

  /** Past the guard, the handler runs for the session's user with that user's current key. */
  lemma GuardHandsOverCurrentKey(p: Platform, db: Db, sh: Shadow, s: Session, slot: Slot, now: int, req: Request)
    requires |db.users| == |sh.passwords| && SessionRight(p, db, sh, s, slot, now)
    requires BehindUnlockedGuard(req) && GuardPasses(s, slot, now)
    ensures var keys := CurrentKeys(p, db.users, sh.passwords);
            s.userId.value in keys && TouchedKey(slot, now) == Some(keys[s.userId.value]) &&
            Handle(p, db, s, slot, now, req) ==
              Serve(p, db, s, Touched(slot, now), now, s.userId.value, keys[s.userId.value], req)
  {
    hide Serve;
  }

  lemma ServeShows(p: Platform, keys: map<Id, Bytes>, db: Db, sh: Shadow, s: Session, slot: Slot, now: int, u: Id,
      req: Request)
    requires RoundTrips(p) && AccountsShow(p, keys, db, sh.vault) && u in keys && ChangesAccounts(req)
    ensures var out, after := Serve(p, db, s, slot, now, u, keys[u], req), Shadowed(sh, AccountsEffect(p, db, u, req));
            AccountsShow(p, keys, out.db, after.vault) && after.passwords == sh.passwords &&
            OnlyAccountsDiffer(db, out.db) &&
            out.session == s && out.slot == slot
  {
    hide AccountsShow, CreateRow, UpdateRow, RemoveRow, ImportEntries, OpenFile, Insert, Change, InsertAll, RoundTrips;
    match req
    case CreateAccount(e, draw) => CreateShows(p, keys, db, sh.vault, s, slot, u, e, draw);
    case UpdateAccount(id, patch, draw) => UpdateShows(p, keys, db, sh.vault, s, slot, u, id, patch, draw);
    case RemoveAccount(id) => RemoveShows(p, keys, db, sh.vault, s, slot, u, id);
    case ImportAccounts(exportPassword, file, draw, faultAt) =>
      var r := OpenFile(p, exportPassword, file);
      if r.Ok? {
        ImportShows(p, keys, db, sh.vault, u, Reached(r.value, faultAt), draw);
      }
  }

  lemma AccountRequestsRefine(p: Platform, db: Db, sh: Shadow, s: Session, slot: Slot, now: int, req: Request)
    requires Lawful(p) && TablesShow(p, db, sh) && SessionRight(p, db, sh, s, slot, now)
    requires ChangesAccounts(req) && GuardPasses(s, slot, now)
    ensures var out := Handle(p, db, s, slot, now, req);
            TablesShow(p, out.db, Shadowed(sh, EffectOf(p, db, s, slot, now, req))) && OnlyAccountsDiffer(db, out.db) &&
            Shadowed(sh, EffectOf(p, db, s, slot, now, req)).passwords == sh.passwords &&
            out.session == s && out.slot == Touched(slot, now)
  {
    GuardHandsOverCurrentKey(p, db, sh, s, slot, now, req);
    ServeShows(p, CurrentKeys(p, db.users, sh.passwords), db, sh, s, Touched(slot, now), now, s.userId.value, req);
    hide AccountsShow, DevicesOwned, HashesMatch, Serve, AccountsEffect, Shadowed, CurrentKeys, Handle, SessionRight;
  }

  lemma SetupRefines(p: Platform, db: Db, sh: Shadow, s: Session, slot: Slot, now: int, req: Request)
    requires Lawful(p) && TablesShow(p, db, sh) && SessionRight(p, db, sh, s, slot, now)
    requires req.SetupMasterPassword? && Handle(p, db, s, slot, now, req).response.Answer?
    ensures var out, after := Handle(p, db, s, slot, now, req), Shadowed(sh, EffectOf(p, db, s, slot, now, req));
            TablesShow(p, out.db, after) && SessionRight(p, out.db, after, out.session, out.slot, now) &&
            db.users < out.db.users && sh.passwords < after.passwords
  {
    var out := Handle(p, db, s, slot, now, req);
    var after := Shadowed(sh, EffectOf(p, db, s, slot, now, req));
    assert after.passwords == sh.passwords + [req.password] && out.db.users == db.users + [out.db.users[|db.users|]];
    forall attempt
      ensures p.verify(attempt, p.hash(req.password, req.hashDraw)) <==> attempt == req.password
    {
    }
    MoreKeys(p, CurrentKeys(p, db.users, sh.passwords), CurrentKeys(p, out.db.users, after.passwords), db.accounts,
             sh.vault);
  }

  lemma ReencryptedShow(p: Platform, keys: map<Id, Bytes>, db: Db, v: Plain, u: Id, newKey: Bytes, draw: nat,
      users: seq<User>, devices: seq<Device>)
    requires RoundTrips(p) && AccountsShow(p, keys, db, v) && u in keys
    ensures var r := Reencrypt(p, db.accounts, Snapshot(db.accounts, u), keys[u], newKey, draw);
            r.Some? && AccountsShow(p, keys[u := newKey], Db(users, r.value, devices, db.nextId), v)
  {
    ChangeKeepsVault(p, keys, db.accounts, v, u, newKey, draw);
    hide Represents;
  }

  lemma ChangedUsersShow(p: Platform, users: seq<User>, passwords: seq<string>, u: Id, password: string, salt: string,
      hashDraw: nat)
    requires Lawful(p) && HashesMatch(p, users, passwords) && u < |users|
    ensures var after := users[u := users[u].(masterPasswordHash := p.hash(password, hashDraw), masterKdfSalt := salt)];
            HashesMatch(p, after, passwords[u := password]) &&
            CurrentKeys(p, after, passwords[u := password]) ==
              CurrentKeys(p, users, passwords)[u := p.derive(password, salt)]
  {
    var after := users[u := users[u].(masterPasswordHash := p.hash(password, hashDraw), masterKdfSalt := salt)];
    forall v, attempt | 0 <= v < |after|
      ensures p.verify(attempt, after[v].masterPasswordHash) <==> attempt == passwords[u := password][v]
    {
      assert p.verify(attempt, p.hash(password, hashDraw)) <==> attempt == password;
    }
  }

  lemma ChangeRefines(p: Platform, db: Db, sh: Shadow, s: Session, slot: Slot, now: int, req: Request)
    requires Lawful(p) && TablesShow(p, db, sh) && SessionRight(p, db, sh, s, slot, now)
    requires req.ChangeMasterPassword? && GuardPasses(s, slot, now) && Handle(p, db, s, slot, now, req).response.Answer?
    ensures var out, after := Handle(p, db, s, slot, now, req), Shadowed(sh, EffectOf(p, db, s, slot, now, req));
            TablesShow(p, out.db, after) && SessionRight(p, out.db, after, out.session, out.slot, now)
  {
    var u := s.userId.value;
    GuardHandsOverCurrentKey(p, db, sh, s, slot, now, req);
    assert p.verify(req.currentPassword, db.users[u].masterPasswordHash);
    assert req.currentPassword == sh.passwords[u];
    DevicesSplit(db.devices, u);
    ReencryptedShow(p, CurrentKeys(p, db.users, sh.passwords), db, sh.vault, u, p.derive(req.newPassword, req.salt),
                    req.draw,
                    Handle(p, db, s, slot, now, req).db.users, DevicesNotOf(db.devices, u));
    ChangedUsersShow(p, db.users, sh.passwords, u, req.newPassword, req.salt, req.hashDraw);
    hide AccountsShow, HashesMatch, Reencrypt, Lawful, CurrentKeys;
  }

  lemma LimitRefines(p: Platform, db: Db, sh: Shadow, s: Session, slot: Slot, now: int, req: Request)
    requires Lawful(p) && TablesShow(p, db, sh) && SessionRight(p, db, sh, s, slot, now)
    requires req.SetAutoLock? && GuardPasses(s, slot, now)
    ensures var out := Handle(p, db, s, slot, now, req);
            TablesShow(p, out.db, sh) && SessionRight(p, out.db, sh, out.session, out.slot, now) &&
            |out.db.users| == |db.users| && forall v :: 0 <= v < |db.users| ==>
              SameSecrets(db.users[v], out.db.users[v])
  {
    var out := Handle(p, db, s, slot, now, req);
    assert CurrentKeys(p, out.db.users, sh.passwords) == CurrentKeys(p, db.users, sh.passwords);
  }

  predicate SameSecrets(before: User, after: User) {
    after.masterPasswordHash == before.masterPasswordHash && after.masterKdfSalt == before.masterKdfSalt
  }

  predicate DeviceRequest(req: Request) {
    req.Register? || req.RemoveDevice?
  }

  lemma DeviceRequestsRefine(p: Platform, db: Db, sh: Shadow, s: Session, slot: Slot, now: int, req: Request)
    requires TablesShow(p, db, sh) && SessionRight(p, db, sh, s, slot, now)
    requires DeviceRequest(req) && GuardPasses(s, slot, now)
    ensures var out := Handle(p, db, s, slot, now, req);
            TablesShow(p, out.db, sh) && out.db.users == db.users &&
            SessionRight(p, out.db, sh, out.session, out.slot, now)
  {
    var out := Handle(p, db, s, slot, now, req);
    IdsStillBelow(db.accounts, db.nextId, out.db.nextId);
  }

  lemma IdsStillBelow(rows: seq<Row>, nextId: Id, later: Id)
    requires WellFormed(rows, nextId) && nextId <= later
    ensures WellFormed(rows, later)
  {
  }

  /** Requests that only read the tables, or only change the caller's session. */
  predicate KeepsTables(req: Request) {
    !(ChangesAccounts(req) || DeviceRequest(req) || req.SetupMasterPassword? || req.ChangeMasterPassword? ||
      req.SetAutoLock?)
  }

  lemma SessionRequestsKeep(p: Platform, db: Db, sh: Shadow, s: Session, slot: Slot, now: int, req: Request)
    requires Lawful(p) && TablesShow(p, db, sh) && SessionRight(p, db, sh, s, slot, now)
    requires KeepsTables(req) && !Rebinds(p, db, s, slot, now, req)
    ensures var out := Handle(p, db, s, slot, now, req);
            out.db == db && SessionRight(p, db, sh, out.session, out.slot, now)
  {
    var out := Handle(p, db, s, slot, now, req);
    if req.Authenticate? {
      var device := FindCredential(db.devices, req.reply.credentialId);
      if device.Some? {
        assert device.value in db.devices;
      }
    }
  }

  lemma RefusedKeeps(p: Platform, db: Db, sh: Shadow, s: Session, slot: Slot, now: int, req: Request)
    requires TablesShow(p, db, sh) && SessionRight(p, db, sh, s, slot, now)
    requires (BehindUnlockedGuard(req) && !GuardPasses(s, slot, now)) ||
             (!KeepsTables(req) && !ChangesAccounts(req) && Handle(p, db, s, slot, now, req).response.Failed?)
    ensures var out := Handle(p, db, s, slot, now, req);
            (DeviceRequest(req) || out.db == db) && SessionRight(p, db, sh, out.session, out.slot, now) &&
            (BehindUnlockedGuard(req) && !GuardPasses(s, slot, now) ==> out.db == db)
  {
  }

  /** A request keeps the refinement for the session that makes it, unless it rebinds. */
  lemma RequestRefines(p: Platform, db: Db, sh: Shadow, s: Session, slot: Slot, now: int, req: Request)
    requires Lawful(p) && TablesShow(p, db, sh) && SessionRight(p, db, sh, s, slot, now)
    requires !Rebinds(p, db, s, slot, now, req)
    ensures var out, after := Handle(p, db, s, slot, now, req), Shadowed(sh, EffectOf(p, db, s, slot, now, req));
            TablesShow(p, out.db, after) && SessionRight(p, out.db, after, out.session, out.slot, now)
  {
    hide TablesShow, Serve;
    if BehindUnlockedGuard(req) && !GuardPasses(s, slot, now) {
      RefusedKeeps(p, db, sh, s, slot, now, req);
    } else if ChangesAccounts(req) {
      AccountRequestsRefine(p, db, sh, s, slot, now, req);
    } else if DeviceRequest(req) {
      DeviceRequestsRefine(p, db, sh, s, slot, now, req);
    } else if KeepsTables(req) {
      SessionRequestsKeep(p, db, sh, s, slot, now, req);
    } else if req.SetAutoLock? {
      LimitRefines(p, db, sh, s, slot, now, req);
    } else if Handle(p, db, s, slot, now, req).response.Failed? {
      RefusedKeeps(p, db, sh, s, slot, now, req);
    } else if req.SetupMasterPassword? {
      SetupRefines(p, db, sh, s, slot, now, req);
    } else {
      ChangeRefines(p, db, sh, s, slot, now, req);
    }
  }
}
