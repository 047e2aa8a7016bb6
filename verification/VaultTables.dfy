/**
 Exactly which events break the tables: the plain map stays behind them until a session that holds
 another key than its user's stores a password.
 */
module VaultTables {
  import opened Wrappers
  import opened Platform
  import opened Vault
  import opened Backup
  import opened UnlockKeyStore
  import opened Auth
  import opened AuthRuns
  import opened VaultRefinement
  import opened VaultRuns

  // ---------------------------------------------------------------------------------
  // Requests that store a password
  // ---------------------------------------------------------------------------------

  function PatchedKey(r: Row, patch: Patch): VaultKey {
    VaultKey(r.userId, Given(patch.urlOrAppName, r.urlOrAppName), Given(patch.loginId, r.loginId))
  }

  predicate AnyFree(rows: seq<Row>, userId: Id, entries: seq<Entry>) {
    exists i :: 0 <= i < |entries| && !Taken(rows, EntryKey(userId, entries[i]))
  }

  /** The request encrypts a password and stores it: a create or an imported entry whose key is free, an
      update with a password that meets no conflict. */
  predicate Seals(p: Platform, db: Db, userId: Id, req: Request)
    requires ChangesAccounts(req)
  {
    match req
    case CreateAccount(e, _) => !Taken(db.accounts, EntryKey(userId, e))
    case UpdateAccount(id, patch, _) =>
      var i := Find(db.accounts, userId, id);
      i.Some? && patch.password.Some? && patch.password.value != "" &&
      !TakenByOther(db.accounts, i.value, PatchedKey(db.accounts[i.value], patch))
    case RemoveAccount(_) => false
    case ImportAccounts(exportPassword, file, _, faultAt) =>
      var content := OpenFile(p, exportPassword, file);
      content.Ok? && AnyFree(db.accounts, userId, Reached(content.value, faultAt))
  }

  /** A request that stores no password does the same under every key. */
  lemma UnsealedSame(p: Platform, db: Db, s: Session, slot: Slot, now: int, u: Id, key: Bytes, other: Bytes,
      req: Request)
    requires ChangesAccounts(req) && !Seals(p, db, u, req)
    ensures Serve(p, db, s, slot, now, u, key, req) == Serve(p, db, s, slot, now, u, other, req)
  {
    if req.ImportAccounts? && OpenFile(p, req.exportPassword, req.file).Ok? {
      var reached := Reached(OpenFile(p, req.exportPassword, req.file).value, req.faultAt);
      TakenEntriesSkipped(p, db.accounts, db.nextId, u, key, reached, req.draw);
      TakenEntriesSkipped(p, db.accounts, db.nextId, u, other, reached, req.draw);
    }
    hide Taken, TakenByOther, ImportEntries, OpenFile, Reached;
  }

  // ---------------------------------------------------------------------------------
  // What a stored password leaves in the table
  // ---------------------------------------------------------------------------------

  ghost predicate RowUnder(p: Platform, rows: seq<Row>, userId: Id, key: Bytes) {
    exists i :: 0 <= i < |rows| && rows[i].userId == userId && p.open(key, rows[i].encryptedPassword).Some?
  }

  lemma {:induction false} ImportGrows(p: Platform, rows: seq<Row>, nextId: Id, userId: Id, key: Bytes,
      entries: seq<Entry>, draw: nat)
    requires WellFormed(rows, nextId)
    ensures var r := ImportEntries(p, rows, nextId, userId, key, entries, draw);
            rows <= r.rows && WellFormed(r.rows, r.nextId)
    decreases |entries|
  {
    if entries != [] {
      CreateWellFormed(p, rows, nextId, userId, key, entries[0], draw);
      hide WellFormed, Taken;
      match CreateRow(p, rows, nextId, userId, key, entries[0], draw)
      case Ok(next) => ImportGrows(p, next, nextId + 1, userId, key, entries[1..], draw + 1);
      case Err(_) => ImportGrows(p, rows, nextId, userId, key, entries[1..], draw + 1);
    }
  }

  lemma CreateWellFormed(p: Platform, rows: seq<Row>, nextId: Id, userId: Id, key: Bytes, e: Entry, draw: nat)
    requires WellFormed(rows, nextId)
    ensures var r := CreateRow(p, rows, nextId, userId, key, e, draw);
            r.Ok? ==> WellFormed(r.value, nextId + 1)
  {
  }

  lemma UpdateWellFormed(p: Platform, rows: seq<Row>, nextId: Id, userId: Id, id: Id, key: Bytes, patch: Patch,
      draw: nat)
    requires WellFormed(rows, nextId)
    ensures var r := UpdateRow(p, rows, userId, id, key, patch, draw);
            r.Ok? ==> WellFormed(r.value, nextId)
  {
    var i := Find(rows, userId, id);
    if i.Some? {
      var row := PatchedRow(p, rows[i.value], key, patch, draw);
      if !TakenByOther(rows, i.value, KeyOf(row)) {
        forall k | 0 <= k < |rows| && k != i.value
          ensures KeyOf(rows[k]) != KeyOf(row)
        {
        }
      }
    }
  }

  lemma {:induction false} ImportSeals(p: Platform, rows: seq<Row>, nextId: Id, userId: Id, key: Bytes,
      entries: seq<Entry>, draw: nat)
    requires RoundTrips(p) && WellFormed(rows, nextId) && AnyFree(rows, userId, entries)
    ensures RowUnder(p, ImportEntries(p, rows, nextId, userId, key, entries, draw).rows, userId, key)
    decreases |entries|
  {
    var i :| 0 <= i < |entries| && !Taken(rows, EntryKey(userId, entries[i]));
    if !Taken(rows, EntryKey(userId, entries[0])) {
      CreateSeals(p, rows, nextId, userId, key, entries[0], draw);
      var next := CreateRow(p, rows, nextId, userId, key, entries[0], draw).value;
      CreateWellFormed(p, rows, nextId, userId, key, entries[0], draw);
      ImportGrows(p, next, nextId + 1, userId, key, entries[1..], draw + 1);
      RowStays(p, next, ImportEntries(p, next, nextId + 1, userId, key, entries[1..], draw + 1).rows, userId, key);
    } else {
      assert entries[1..][i - 1] == entries[i];
      ImportSeals(p, rows, nextId, userId, key, entries[1..], draw + 1);
    }
    hide Taken, WellFormed, RoundTrips, RowUnder;
  }

  lemma CreateSeals(p: Platform, rows: seq<Row>, nextId: Id, userId: Id, key: Bytes, e: Entry, draw: nat)
    requires RoundTrips(p) && !Taken(rows, EntryKey(userId, e))
    ensures var r := CreateRow(p, rows, nextId, userId, key, e, draw);
            r.Ok? && RowUnder(p, r.value, userId, key)
  {
    var row := NewRow(p, nextId, userId, key, e, draw);
    assert p.open(key, p.seal(key, draw, e.password)) == Some(e.password);
    assert (rows + [row])[|rows|] == row;
  }

  lemma UpdateSeals(p: Platform, rows: seq<Row>, userId: Id, id: Id, key: Bytes, patch: Patch, draw: nat)
    requires RoundTrips(p) && Find(rows, userId, id).Some? && patch.password.Some? && patch.password.value != ""
    requires !TakenByOther(rows, Find(rows, userId, id).value, PatchedKey(rows[Find(rows, userId, id).value], patch))
    ensures var r := UpdateRow(p, rows, userId, id, key, patch, draw);
            r.Ok? && RowUnder(p, r.value, userId, key)
  {
    var i := Find(rows, userId, id).value;
    var row := PatchedRow(p, rows[i], key, patch, draw);
    assert KeyOf(row) == PatchedKey(rows[i], patch);
    assert p.open(key, p.seal(key, draw, patch.password.value)) == Some(patch.password.value);
    assert rows[i := row][i] == row;
  }

  lemma RowStays(p: Platform, rows: seq<Row>, after: seq<Row>, userId: Id, key: Bytes)
    requires RowUnder(p, rows, userId, key) && rows <= after
    ensures RowUnder(p, after, userId, key)
  {
    var i :| 0 <= i < |rows| && rows[i].userId == userId && p.open(key, rows[i].encryptedPassword).Some?;
    assert after[i] == rows[i];
  }

  lemma SealedRow(p: Platform, db: Db, s: Session, slot: Slot, now: int, u: Id, key: Bytes, req: Request)
    requires RoundTrips(p) && WellFormed(db.accounts, db.nextId) && ChangesAccounts(req) && Seals(p, db, u, req)
    ensures var after := Serve(p, db, s, slot, now, u, key, req).db;
            RowUnder(p, after.accounts, u, key) && WellFormed(after.accounts, after.nextId)
  {
    hide RowUnder, RoundTrips, Taken, TakenByOther, WellFormed, CreateRow, UpdateRow, ImportEntries, OpenFile, Reached;
    match req
    case CreateAccount(e, draw) =>
      CreateSeals(p, db.accounts, db.nextId, u, key, e, draw);
      CreateWellFormed(p, db.accounts, db.nextId, u, key, e, draw);
    case UpdateAccount(id, patch, draw) =>
      UpdateSeals(p, db.accounts, u, id, key, patch, draw);
      UpdateWellFormed(p, db.accounts, db.nextId, u, id, key, patch, draw);
    case ImportAccounts(exportPassword, file, draw, faultAt) =>
      var reached := Reached(OpenFile(p, exportPassword, file).value, faultAt);
      ImportSeals(p, db.accounts, db.nextId, u, key, reached, draw);
      ImportGrows(p, db.accounts, db.nextId, u, key, reached, draw);
  }

  /** The user has a row that this key does not open. */
  ghost predicate Unreadable(p: Platform, rows: seq<Row>, userId: Id, key: Bytes) {
    exists i :: 0 <= i < |rows| && rows[i].userId == userId &&
      ReadRow(p, rows, userId, rows[i].id, key) == Err(CannotDecrypt)
  }

  lemma RowUnderOtherKey(p: Platform, rows: seq<Row>, nextId: Id, u: Id, key: Bytes, other: Bytes)
    requires WrongKeyFails(p) && key != other && WellFormed(rows, nextId) && RowUnder(p, rows, u, key)
    ensures Unreadable(p, rows, u, other)
    ensures forall keys, v :: u in keys && keys[u] == other ==> !Represents(p, keys, rows, v)
  {
    var i :| 0 <= i < |rows| && rows[i].userId == u && p.open(key, rows[i].encryptedPassword).Some?;
    assert p.open(other, rows[i].encryptedPassword) == None;
    assert Find(rows, u, rows[i].id) == Some(i);
    forall keys: map<Id, Bytes>, v | u in keys && keys[u] == other
      ensures !Represents(p, keys, rows, v)
    {
      assert !Shown(p, keys, rows[i], v);
    }
  }

  // ---------------------------------------------------------------------------------
  // One request
  // ---------------------------------------------------------------------------------

  /** The account routes keep the tables exactly when they run under the user's own key or store no
      password. Otherwise no plain map is behind the tables, and the user has a row that cannot be read. */
  lemma ServedExactly(p: Platform, keys: map<Id, Bytes>, db: Db, sh: Shadow, s: Session, slot: Slot, now: int, u: Id,
      key: Bytes, req: Request)
    requires Lawful(p) && WrongKeyFails(p) && AccountsShow(p, keys, db, sh.vault) && u in keys && ChangesAccounts(req)
    ensures var out, after := Serve(p, db, s, slot, now, u, key, req), Shadowed(sh, AccountsEffect(p, db, u, req));
            OnlyAccountsDiffer(db, out.db) && after.passwords == sh.passwords &&
            (AccountsShow(p, keys, out.db, after.vault) <==> key == keys[u] || !Seals(p, db, u, req)) &&
            (key != keys[u] && Seals(p, db, u, req) ==>
               Unreadable(p, out.db.accounts, u, keys[u]) && forall v :: !AccountsShow(p, keys, out.db, v))
  {
    hide Serve, Represents, WellFormed, Shadowed, AccountsEffect, Seals, Unreadable, RowUnder, WrongKeyFails;
    ServeShows(p, keys, db, sh, s, slot, now, u, req);
    if key != keys[u] {
      if Seals(p, db, u, req) {
        OnlyAccounts(p, db, s, slot, now, u, key, req);
        SealedRow(p, db, s, slot, now, u, key, req);
        var after := Serve(p, db, s, slot, now, u, key, req).db;
        RowUnderOtherKey(p, after.accounts, after.nextId, u, key, keys[u]);
      } else {
        UnsealedSame(p, db, s, slot, now, u, key, keys[u], req);
      }
    }
  }

  lemma OnlyAccounts(p: Platform, db: Db, s: Session, slot: Slot, now: int, u: Id, key: Bytes, req: Request)
    requires ChangesAccounts(req)
    ensures OnlyAccountsDiffer(db, Serve(p, db, s, slot, now, u, key, req).db)
  {
  }

  // ---------------------------------------------------------------------------------
  // One event
  // ---------------------------------------------------------------------------------

  ghost predicate SessionBound(db: Db, s: Session) {
    (s.unlocked ==> s.userId.Some?) && (s.userId.Some? ==> s.userId.value < |db.users|)
  }

  ghost predicate Bound(w: World) {
    DevicesOwned(w.db.devices, |w.db.users|) && forall sid :: SessionBound(w.db, SessionOf(w, sid))
  }

  /** The request passes the guard with another key than its user's current one, and stores a password. */
  ghost predicate SealsWrongly(p: Platform, db: Db, sh: Shadow, s: Session, slot: Slot, now: int, req: Request) {
    ChangesAccounts(req) && GuardPasses(s, slot, now) &&
    var u := s.userId.value;
    u < |db.users| == |sh.passwords| && TouchedKey(slot, now) != Some(CurrentKey(p, db, sh, u)) && Seals(p, db, u, req)
  }

  ghost predicate SealsUnderWrongKey(p: Platform, w: World, sh: Shadow, e: Event) {
    e.Call? && SealsWrongly(p, w.db, sh, SessionOf(w, e.sid), SlotOf(w.store, e.sid), w.now + e.elapsed, e.req)
  }

  /** The slot with the session user's current key in it, whatever key it held. */
  ghost function Rekeyed(p: Platform, db: Db, sh: Shadow, s: Session, slot: Slot): Slot
    requires |db.users| == |sh.passwords|
  {
    if slot.None? || s.userId.None? || s.userId.value >= |db.users| then slot
    else Some(slot.value.(key := CurrentKey(p, db, sh, s.userId.value)))
  }

  /** The other requests do to the tables the same under every key. */
  lemma KeyIrrelevant(p: Platform, db: Db, sh: Shadow, s: Session, slot: Slot, now: int, req: Request)
    requires |db.users| == |sh.passwords| && !ChangesAccounts(req)
    ensures var other := Rekeyed(p, db, sh, s, slot);
            Handle(p, db, s, slot, now, req).db == Handle(p, db, s, other, now, req).db &&
            EffectOf(p, db, s, slot, now, req) == EffectOf(p, db, s, other, now, req)
  {
    hide Reencrypt, CurrentKey;
  }

  lemma ReadersHaveNoEffect(p: Platform, db: Db, s: Session, slot: Slot, now: int, req: Request)
    requires KeepsTables(req)
    ensures EffectOf(p, db, s, slot, now, req) == Nothing
  {
  }

  lemma OtherRequestsKeepTables(p: Platform, db: Db, sh: Shadow, s: Session, slot: Slot, now: int, req: Request)
    requires Lawful(p) && TablesShow(p, db, sh) && SessionBound(db, s) && !ChangesAccounts(req)
    ensures TablesShow(p, Handle(p, db, s, slot, now, req).db, Shadowed(sh, EffectOf(p, db, s, slot, now, req)))
  {
    hide TablesShow, Handle, EffectOf, Lawful;
    if KeepsTables(req) {
      ReadersKeepTables(p, db, s, slot, now, req);
      ReadersHaveNoEffect(p, db, s, slot, now, req);
    } else {
      TablesSized(p, db, sh);
      KeyIrrelevant(p, db, sh, s, slot, now, req);
      RequestRefines(p, db, sh, s, Rekeyed(p, db, sh, s, slot), now, req);
    }
  }

  lemma AccountRequestsExactly(p: Platform, db: Db, sh: Shadow, s: Session, slot: Slot, now: int, req: Request)
    requires Lawful(p) && WrongKeyFails(p) && TablesShow(p, db, sh) && SessionBound(db, s) && ChangesAccounts(req)
    ensures var out, after := Handle(p, db, s, slot, now, req), Shadowed(sh, EffectOf(p, db, s, slot, now, req));
            (TablesShow(p, out.db, after) <==> !SealsWrongly(p, db, sh, s, slot, now, req)) &&
            (SealsWrongly(p, db, sh, s, slot, now, req) ==>
               var u := s.userId.value;
               Unreadable(p, out.db.accounts, u, CurrentKey(p, db, sh, u)) &&
               forall v :: !TablesShow(p, out.db, sh.(vault := v)))
  {
    hide Serve, AccountsShow, HashesMatch, DevicesOwned, Shadowed, AccountsEffect, Seals, Unreadable, Lawful,
        WrongKeyFails;
    TablesSized(p, db, sh);
    if GuardPasses(s, slot, now) {
      var keys, u := CurrentKeys(p, db.users, sh.passwords), s.userId.value;
      ServedExactly(p, keys, db, sh, s, Touched(slot, now), now, u, TouchedKey(slot, now).value, req);
    } else {
      RefusedChangesNothing(p, db, sh, s, slot, now, req);
    }
  }

  lemma RefusedChangesNothing(p: Platform, db: Db, sh: Shadow, s: Session, slot: Slot, now: int, req: Request)
    requires BehindUnlockedGuard(req) && !GuardPasses(s, slot, now)
    ensures Handle(p, db, s, slot, now, req).db == db && Shadowed(sh, EffectOf(p, db, s, slot, now, req)) == sh
  {
  }

  /** An event keeps a plain map behind the tables exactly when it does not store a password under
      another key than its user's: no login, lock, change or restart ever breaks them. */
  lemma TablesKeptExactly(p: Platform, w: World, sh: Shadow, e: Event)
    requires Lawful(p) && WrongKeyFails(p) && TablesShow(p, w.db, sh) && Bound(w)
    ensures TablesShow(p, Step(p, w, e).db, Shadowed(sh, EventEffect(p, w, e))) <==> !SealsUnderWrongKey(p, w, sh, e)
  {
    hide TablesShow, Handle, EffectOf, Lawful, WrongKeyFails, SealsWrongly;
    if e.Call? {
      var s, slot, now := SessionOf(w, e.sid), SlotOf(w.store, e.sid), w.now + e.elapsed;
      assert SessionBound(w.db, s);
      if ChangesAccounts(e.req) {
        AccountRequestsExactly(p, w.db, sh, s, slot, now, e.req);
      } else {
        OtherRequestsKeepTables(p, w.db, sh, s, slot, now, e.req);
        NothingSealed(p, w.db, sh, s, slot, now, e.req);
      }
    }
  }

  lemma NothingSealed(p: Platform, db: Db, sh: Shadow, s: Session, slot: Slot, now: int, req: Request)
    requires !ChangesAccounts(req)
    ensures !SealsWrongly(p, db, sh, s, slot, now, req)
  {
  }

  // ---------------------------------------------------------------------------------
  // Whole runs
  // ---------------------------------------------------------------------------------

  lemma GuardedKeepsUser(p: Platform, db: Db, s: Session, slot: Slot, now: int, req: Request)
    requires BehindUnlockedGuard(req)
    ensures Handle(p, db, s, slot, now, req).session.userId == s.userId
  {
    hide Reencrypt, CreateRow, UpdateRow, RemoveRow, ReadRow, ExportFile, OpenFile, ImportEntries;
  }

  lemma RequestBound(p: Platform, db: Db, s: Session, slot: Slot, now: int, req: Request)
    requires SessionBound(db, s) && DevicesOwned(db.devices, |db.users|)
    ensures var out := Handle(p, db, s, slot, now, req);
            SessionBound(out.db, out.session) && |db.users| <= |out.db.users|
  {
    UsersOnlyGrow(p, db, s, slot, now, req);
    StaysLoggedIn(p, db, s, slot, now, req);
    if BehindUnlockedGuard(req) {
      GuardedKeepsUser(p, db, s, slot, now, req);
      hide Handle;
    } else {
      OpenBound(p, db, s, slot, now, req);
      hide Handle;
    }
  }

  lemma OpenBound(p: Platform, db: Db, s: Session, slot: Slot, now: int, req: Request)
    requires SessionBound(db, s) && DevicesOwned(db.devices, |db.users|) && !BehindUnlockedGuard(req)
    ensures var out := Handle(p, db, s, slot, now, req);
            SessionBound(out.db, out.session)
  {
    if req.Authenticate? {
      var device := FindCredential(db.devices, req.reply.credentialId);
      assert device.Some? ==> device.value in db.devices;
    }
    hide Serve;
  }

  predicate ChangesDevices(req: Request) {
    req.Register? || req.RemoveDevice? || req.ChangeMasterPassword?
  }

  lemma OthersKeepDevices(p: Platform, db: Db, s: Session, slot: Slot, now: int, req: Request)
    requires !ChangesDevices(req)
    ensures Handle(p, db, s, slot, now, req).db.devices == db.devices
  {
    hide CreateRow, UpdateRow, RemoveRow, ReadRow, ExportFile, OpenFile, ImportEntries;
  }

  lemma DevicesBound(p: Platform, db: Db, s: Session, slot: Slot, now: int, req: Request)
    requires SessionBound(db, s) && DevicesOwned(db.devices, |db.users|)
    ensures var after := Handle(p, db, s, slot, now, req).db;
            DevicesOwned(after.devices, |after.users|)
  {
    if ChangesDevices(req) {
      if req.ChangeMasterPassword? && s.userId.Some? {
        DevicesSplit(db.devices, s.userId.value);
      }
      hide Reencrypt;
    } else {
      OthersKeepDevices(p, db, s, slot, now, req);
      UsersOnlyGrow(p, db, s, slot, now, req);
      hide Handle;
    }
  }

  lemma {:induction false} AlwaysBound(p: Platform, es: seq<Event>, n: nat)
    requires n <= |es|
    ensures Bound(At(p, es, n))
  {
    hide Handle, DevicesOwned;
    if n == 0 {
      assert DevicesOwned(INITIAL.db.devices, |INITIAL.db.users|) by { NoDevices(0); }
    } else {
      AlwaysBound(p, es, n - 1);
      var w, e := At(p, es, n - 1), es[n - 1];
      if e.Call? {
        var s, slot, now := SessionOf(w, e.sid), SlotOf(w.store, e.sid), w.now + e.elapsed;
        assert SessionBound(w.db, s);
        RequestBound(p, w.db, s, slot, now, e.req);
        DevicesBound(p, w.db, s, slot, now, e.req);
        forall sid
          ensures SessionBound(At(p, es, n).db, SessionOf(At(p, es, n), sid))
        {
          StepSlots(p, w, e.elapsed, e.sid, e.req, sid);
          assert SessionBound(w.db, SessionOf(w, sid));
        }
      } else {
        forall sid
          ensures SessionBound(At(p, es, n).db, SessionOf(At(p, es, n), sid))
        {
          assert SessionBound(w.db, SessionOf(w, sid));
        }
      }
    }
  }

  lemma NoDevices(users: nat)
    ensures DevicesOwned([], users)
  {
  }

  ghost predicate TablesAt(p: Platform, es: seq<Event>, n: nat)
    requires n <= |es|
  {
    TablesShow(p, At(p, es, n).db, ShadowAt(p, es, n))
  }

  ghost predicate SealsWronglyAt(p: Platform, es: seq<Event>, i: nat)
    requires i < |es|
  {
    SealsUnderWrongKey(p, At(p, es, i), ShadowAt(p, es, i), es[i])
  }

  /** Over every run, disciplined or not: the tables stand for the plain map after each event up to n
      if and only if no event before n stores a password under another key than its user's. */
  lemma {:induction false} TablesShownExactly(p: Platform, es: seq<Event>, n: nat)
    requires Lawful(p) && WrongKeyFails(p) && n <= |es|
    ensures (forall m :: 0 <= m <= n ==> TablesAt(p, es, m)) <==> (forall i :: 0 <= i < n ==> !SealsWronglyAt(p, es, i))
  {
    hide TablesShow, SealsUnderWrongKey, Step, EventEffect, Shadowed, Bound, Lawful, WrongKeyFails;
    if n == 0 {
      NothingYetShown(p);
      assert TablesAt(p, es, 0);
    } else {
      TablesShownExactly(p, es, n - 1);
      if TablesAt(p, es, n - 1) {
        AlwaysBound(p, es, n - 1);
        TablesKeptExactly(p, At(p, es, n - 1), ShadowAt(p, es, n - 1), es[n - 1]);
        assert TablesAt(p, es, n) <==> !SealsWronglyAt(p, es, n - 1);
      }
    }
  }
}
