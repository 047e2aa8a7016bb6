/** What the auth routes do, field by field, and what every run keeps unique. */
module AuthMeaning {
  import opened Wrappers
  import opened Platform
  import opened Vault
  import opened UnlockKeyStore
  import opened Auth
  import opened AuthRuns
  import opened VaultRuns
  import opened VaultMeaning

  // ---------------------------------------------------------------------------------
  // What stays unique over every run
  // ---------------------------------------------------------------------------------

  ghost predicate CredentialsUnique(devices: seq<Device>) {
    forall i, j :: 0 <= i < j < |devices| ==> devices[i].credentialId != devices[j].credentialId
  }

  ghost predicate DeviceIdsIssued(devices: seq<Device>, nextId: Id) {
    (forall i, j :: 0 <= i < j < |devices| ==> devices[i].id != devices[j].id) &&
    forall i :: 0 <= i < |devices| ==> devices[i].id < nextId
  }

  ghost predicate UniqueDevices(devices: seq<Device>, nextId: Id) {
    CredentialsUnique(devices) && DeviceIdsIssued(devices, nextId)
  }

  ghost predicate SubsUnique(users: seq<User>) {
    forall i, j :: 0 <= i < j < |users| ==> users[i].googleSubId != users[j].googleSubId
  }

  ghost predicate Unique(db: Db) {
    UniqueDevices(db.devices, db.nextId) && SubsUnique(db.users)
  }

  lemma {:induction false} OthersStayUnique(devices: seq<Device>, userId: Id, nextId: Id)
    requires UniqueDevices(devices, nextId)
    ensures UniqueDevices(DevicesNotOf(devices, userId), nextId)
  {
    if devices != [] {
      TailUnique(devices, nextId);
      OthersStayUnique(devices[1..], userId, nextId);
      DevicesSplit(devices[1..], userId);
      FirstUnique(devices, DevicesNotOf(devices[1..], userId), nextId);
      hide UniqueDevices;
    }
  }

  lemma TailUnique(devices: seq<Device>, nextId: Id)
    requires devices != [] && UniqueDevices(devices, nextId)
    ensures UniqueDevices(devices[1..], nextId)
    ensures forall d :: d in devices[1..] ==> d.credentialId != devices[0].credentialId && d.id != devices[0].id
  {
  }

  lemma FirstUnique(devices: seq<Device>, rest: seq<Device>, nextId: Id)
    requires devices != [] && UniqueDevices(devices, nextId) && UniqueDevices(rest, nextId)
    requires forall d :: d in rest ==> d in devices[1..]
    ensures UniqueDevices([devices[0]] + rest, nextId)
  {
    TailUnique(devices, nextId);
    assert forall k :: 0 <= k < |rest| ==> rest[k] in devices[1..];
  }

  lemma {:induction false} ImportIdsGrow(p: Platform, rows: seq<Row>, nextId: Id, userId: Id, key: Bytes,
      entries: seq<Entry>, draw: nat)
    ensures nextId <= ImportEntries(p, rows, nextId, userId, key, entries, draw).nextId
    decreases |entries|
  {
    if entries != [] {
      match CreateRow(p, rows, nextId, userId, key, entries[0], draw)
      case Ok(next) => ImportIdsGrow(p, next, nextId + 1, userId, key, entries[1..], draw + 1);
      case Err(_) => ImportIdsGrow(p, rows, nextId, userId, key, entries[1..], draw + 1);
    }
  }

  predicate TouchesUnique(req: Request) {
    req.Register? || req.RemoveDevice? || req.ChangeMasterPassword? || req.SetupMasterPassword? || req.SetAutoLock?
  }

  lemma OthersKeepUnique(p: Platform, db: Db, s: Session, slot: Slot, now: int, req: Request)
    requires !TouchesUnique(req)
    ensures var after := Handle(p, db, s, slot, now, req).db;
            after.users == db.users && after.devices == db.devices && db.nextId <= after.nextId
  {
    if req.ImportAccounts? && GuardPasses(s, slot, now) && OpenFile(p, req.exportPassword, req.file).Ok? {
      var reached := Reached(OpenFile(p, req.exportPassword, req.file).value, req.faultAt);
      ImportIdsGrow(p, db.accounts, db.nextId, s.userId.value, TouchedKey(slot, now).value, reached, req.draw);
    }
    hide CreateRow, UpdateRow, RemoveRow, ReadRow, ExportFile, OpenFile, ImportEntries, Reached;
  }

  lemma RequestKeepsUnique(p: Platform, db: Db, s: Session, slot: Slot, now: int, req: Request)
    requires Unique(db)
    ensures Unique(Handle(p, db, s, slot, now, req).db)
  {
    hide Handle;
    if !TouchesUnique(req) {
      OthersKeepUnique(p, db, s, slot, now, req);
    } else if req.Register? || req.RemoveDevice? {
      DeviceRequestKeepsUnique(p, db, s, slot, now, req);
    } else if req.ChangeMasterPassword? {
      ChangeKeepsUnique(p, db, s, slot, now, req);
    } else {
      UserRequestKeepsUnique(p, db, s, slot, now, req);
    }
  }

  lemma DeviceRequestKeepsUnique(p: Platform, db: Db, s: Session, slot: Slot, now: int, req: Request)
    requires Unique(db) && (req.Register? || req.RemoveDevice?)
    ensures Unique(Handle(p, db, s, slot, now, req).db)
  {
    hide SubsUnique;
  }

  lemma ChangeKeepsUnique(p: Platform, db: Db, s: Session, slot: Slot, now: int, req: Request)
    requires Unique(db) && req.ChangeMasterPassword?
    ensures Unique(Handle(p, db, s, slot, now, req).db)
  {
    if s.userId.Some? {
      OthersStayUnique(db.devices, s.userId.value, db.nextId);
    }
    hide Reencrypt, DevicesNotOf, DevicesOf, CredentialsUnique, DeviceIdsIssued;
  }

  lemma UserRequestKeepsUnique(p: Platform, db: Db, s: Session, slot: Slot, now: int, req: Request)
    requires Unique(db) && (req.SetupMasterPassword? || req.SetAutoLock?)
    ensures Unique(Handle(p, db, s, slot, now, req).db)
  {
    hide CredentialsUnique, DeviceIdsIssued;
  }

  /** Over every run no two devices share a credential or an id, and no two users a Google account. */
  lemma {:induction false} AlwaysUnique(p: Platform, es: seq<Event>, n: nat)
    requires n <= |es|
    ensures Unique(At(p, es, n).db)
  {
    hide Handle;
    if n > 0 {
      AlwaysUnique(p, es, n - 1);
      var w, e := At(p, es, n - 1), es[n - 1];
      if e.Call? {
        RequestKeepsUnique(p, w.db, SessionOf(w, e.sid), SlotOf(w.store, e.sid), w.now + e.elapsed, e.req);
      }
    }
  }

  // ---------------------------------------------------------------------------------
  // Devices
  // ---------------------------------------------------------------------------------

  /** The session's challenge is this one, and the authenticator's answer to it is genuine. */
  ghost predicate AnswersChallenge(s: Session, reply: Reply) {
    s.currentWebauthnChallenge == Some(reply.challenge) && reply.challenge != "" && reply.genuine
  }

  /** A genuine answer from a registered device, with its owner's password, opens the session for the
      owner, with the owner's key and limit; with another password it binds the session and unlocks
      nothing; from an unknown device, or without a matching challenge, it does neither. */
  lemma DeviceLoginMeaning(p: Platform, db: Db, s: Session, slot: Slot, now: int, reply: Reply, password: string)
    requires CredentialsUnique(db.devices)
    ensures var out := Handle(p, db, s, slot, now, Authenticate(reply, password));
            out.db == db &&
            (forall i :: 0 <= i < |db.devices| && db.devices[i].credentialId == reply.credentialId &&
                         AnswersChallenge(s, reply) ==>
               LoggedInBy(p, db, s, slot, now, db.devices[i].userId, password, out)) &&
            ((!AnswersChallenge(s, reply) ||
              forall i :: 0 <= i < |db.devices| ==> db.devices[i].credentialId != reply.credentialId) ==>
               out.response == Failed(Unauthorized) &&
               out.session == s.(currentWebauthnChallenge := out.session.currentWebauthnChallenge) &&
               out.slot == slot)
  {
    forall i | 0 <= i < |db.devices| && db.devices[i].credentialId == reply.credentialId
      ensures FindCredential(db.devices, reply.credentialId) == Some(db.devices[i])
    {
      assert Registered(db.devices, reply.credentialId);
      var found := FindCredential(db.devices, reply.credentialId).value;
      var j :| 0 <= j < |db.devices| && db.devices[j] == found;
    }
  }

  /** Whichever device answers the session's challenge logs its owner in. */
  ghost predicate DeviceLogsIn(p: Platform, db: Db, s: Session, slot: Slot, now: int, reply: Reply, password: string,
      out: Outcome) {
    CredentialsUnique(db.devices) && AnswersChallenge(s, reply) ==>
      forall i :: 0 <= i < |db.devices| && db.devices[i].credentialId == reply.credentialId ==>
        LoggedInBy(p, db, s, slot, now, db.devices[i].userId, password, out)
  }

  lemma AuthenticationLogsIn(p: Platform, db: Db, s: Session, slot: Slot, now: int, reply: Reply, password: string)
    ensures DeviceLogsIn(p, db, s, slot, now, reply, password,
                         AuthenticateDevice(p, db, s, slot, now, reply, password))
  {
    if CredentialsUnique(db.devices) {
      DeviceLoginMeaning(p, db, s, slot, now, reply, password);
    }
    hide AuthenticateDevice, LoggedInBy, CredentialsUnique;
  }

  ghost predicate LoggedInBy(p: Platform, db: Db, s: Session, slot: Slot, now: int, u: Id, password: string,
      out: Outcome) {
    var right := u < |db.users| && p.verify(password, db.users[u].masterPasswordHash);
    out.session.userId == Some(u) && out.session.currentWebauthnChallenge == None &&
    (right ==>
       out.response == Answer(Unlocked(true)) && out.session.unlocked &&
       out.slot ==
         Some(UnlockEntry(p.derive(password, db.users[u].masterKdfSalt), db.users[u].autoLockMinutes, now))) &&
    (!right ==> out.response == Failed(Unauthorized) && out.session.unlocked == s.unlocked && out.slot == slot)
  }

  /** Over every disciplined run: whichever device in the table answers the outstanding challenge of a
      session, with its owner's current password, opens that session for its owner. */
  lemma DeviceLoginOpens(p: Platform, es: seq<Event>, n: nat, sid: string, elapsed: nat, i: nat, reply: Reply)
    requires Lawful(p) && n <= |es|
    requires forall k :: 0 <= k < n ==> Disciplined(p, At(p, es, k), es[k])
    requires i < |At(p, es, n).db.devices| && At(p, es, n).db.devices[i].credentialId == reply.credentialId
    requires AnswersChallenge(SessionOf(At(p, es, n), sid), reply)
    ensures var w, sh, u := At(p, es, n), ShadowAt(p, es, n), At(p, es, n).db.devices[i].userId;
            u < |w.db.users| == |sh.passwords| &&
            var out := Answered(p, w, elapsed, sid, Authenticate(reply, sh.passwords[u]));
            out.response == Answer(Unlocked(true)) && out.session.userId == Some(u) && out.session.unlocked &&
            out.slot.Some? && out.slot.value.key == CurrentKey(p, w.db, sh, u)
  {
    hide At, ShadowAt, Handle, Disciplined, Represents, WellFormed;
    VaultRefines(p, es, n);
    AlwaysUnique(p, es, n);
    var w, sh := At(p, es, n), ShadowAt(p, es, n);
    var u := w.db.devices[i].userId;
    assert w.db.devices[i] in w.db.devices;
    assert p.verify(sh.passwords[u], w.db.users[u].masterPasswordHash);
    DeviceLoginMeaning(p, w.db, SessionOf(w, sid), SlotOf(w.store, sid), w.now + elapsed, reply, sh.passwords[u]);
  }

  /** A registration that passed the guard and answers the challenge is a duplicate exactly when some
      device has the credential; otherwise it adds one device of the session's user. */
  lemma RegistrationMeaning(p: Platform, db: Db, s: Session, slot: Slot, now: int, deviceLabel: string, reply: Reply)
    requires GuardPasses(s, slot, now)
    ensures var out := Handle(p, db, s, slot, now, Register(deviceLabel, reply));
            var known := exists i :: 0 <= i < |db.devices| && db.devices[i].credentialId == reply.credentialId;
            (!AnswersChallenge(s, reply) ==> out.response == Failed(Unauthorized) && out.db == db) &&
            (AnswersChallenge(s, reply) && known ==> out.response == Failed(Duplicate) && out.db == db) &&
            (AnswersChallenge(s, reply) && !known ==>
               out.response == Answer(Done) && out.db.users == db.users && out.db.accounts == db.accounts &&
               out.db.devices == db.devices + [Device(db.nextId, s.userId.value, deviceLabel, reply.credentialId)])
  {
    assert Registered(db.devices, reply.credentialId) <==>
             exists i :: 0 <= i < |db.devices| && db.devices[i].credentialId == reply.credentialId;
  }

  /** A device is removed by its owner only: not-found exactly when the user has no device with the id,
      otherwise that device goes and the others keep their order. */
  lemma RemovalMeaning(p: Platform, db: Db, s: Session, slot: Slot, now: int, id: Id)
    requires GuardPasses(s, slot, now)
    ensures var out := Handle(p, db, s, slot, now, RemoveDevice(id));
            var own := exists i :: 0 <= i < |db.devices| && db.devices[i].id == id &&
                                   db.devices[i].userId == s.userId.value;
            (!own ==> out.response == Failed(Missing) && out.db == db) &&
            (own ==>
               out.response == Answer(Done) && out.db == db.(devices := out.db.devices) &&
               exists i :: 0 <= i < |db.devices| && db.devices[i].id == id &&
                           db.devices[i].userId == s.userId.value &&
                           out.db.devices == db.devices[..i] + db.devices[i + 1..])
  {
    var found := FindDevice(db.devices, s.userId.value, id);
    if found.Some? {
      assert OwnDevice(db.devices[found.value], s.userId.value, id);
    }
    if i :| 0 <= i < |db.devices| && db.devices[i].id == id && db.devices[i].userId == s.userId.value {
      assert OwnDevice(db.devices[i], s.userId.value, id);
    }
  }

  // ---------------------------------------------------------------------------------
  // What the account routes answer
  // ---------------------------------------------------------------------------------

  /** The answers of the account routes, with the key the guard hands over: missing, duplicate, rejected,
      or done, each exactly when the tables or the file call for it. */
  lemma AccountAnswers(p: Platform, db: Db, s: Session, slot: Slot, now: int, req: Request)
    requires RoundTrips(p) && GuardPasses(s, slot, now)
    ensures var out, u, rows := Handle(p, db, s, slot, now, req), s.userId.value, db.accounts;
            (req.GetAccount? || req.UpdateAccount? || req.RemoveAccount? ==>
               (out.response == Failed(Missing) <==> !HasRow(rows, u, req.id))) &&
            (req.CreateAccount? ==>
               out.response ==
                 if OtherHas(rows, -1, u, req.entry.urlOrAppName, req.entry.loginId) then Failed(Duplicate)
                 else Answer(Done)) &&
            (req.UpdateAccount? && HasRow(rows, u, req.id) ==>
               exists i :: 0 <= i < |rows| && rows[i].id == req.id && rows[i].userId == u &&
                 out.response == if TakenAfter(rows, i, req.patch) then Failed(Duplicate) else Answer(Done)) &&
            (req.RemoveAccount? && HasRow(rows, u, req.id) ==> out.response == Answer(Done)) &&
            (req.ImportAccounts? ==>
               (out.response == Failed(Rejected) <==>
                req.file.version != 1 ||
                p.open(p.derive(req.exportPassword, req.file.salt), req.file.payload) == None)) &&
            (out.response.Failed? && !req.ImportAccounts? && ChangesRows(req) ==> out.db == db)
  {
    var key := TouchedKey(slot, now).value;
    match req
    case GetAccount(id) => ReadMeaning(p, db.accounts, s.userId.value, id, key);
    case CreateAccount(e, draw) => CreateMeaning(p, db.accounts, db.nextId, s.userId.value, key, e, draw);
    case UpdateAccount(id, patch, draw) => UpdateMeaning(p, db.accounts, s.userId.value, id, key, patch, draw);
    case RemoveAccount(id) => RemoveMeaning(db.accounts, s.userId.value, id);
    case ImportAccounts(exportPassword, file, _, _) => OpenMeaning(p, exportPassword, file);
    case _ =>
    hide CreateRow, UpdateRow, RemoveRow, ReadRow, OpenFile, ExportFile, ImportEntries, Reencrypt, HasRow, OtherHas;
  }

  /** Another row of the user has the url and the login that row i gets from the patch. */
  ghost predicate TakenAfter(rows: seq<Row>, i: int, patch: Patch)
    requires 0 <= i < |rows|
  {
    OtherHas(rows, i, rows[i].userId,
             if patch.urlOrAppName.Some? then patch.urlOrAppName.value else rows[i].urlOrAppName,
             if patch.loginId.Some? then patch.loginId.value else rows[i].loginId)
  }

  ghost predicate ChangesRows(req: Request) {
    req.CreateAccount? || req.UpdateAccount? || req.RemoveAccount?
  }

  // ---------------------------------------------------------------------------------
  // Login, setup, unlock, limit
  // ---------------------------------------------------------------------------------

  /** The Google callback: refused without the session's own state; otherwise the state is spent, a known
      Google account logs its user in, locked, and an unknown one waits for its master password. */
  lemma CallbackMeaning(p: Platform, db: Db, s: Session, slot: Slot, now: int, state: string, profile: Profile)
    requires SubsUnique(db.users)
    ensures var out := Handle(p, db, s, slot, now, GoogleCallback(state, Some(profile)));
            out.db == db && out.slot == slot &&
            (state == "" || s.oauthState != Some(state) ==> out.session == s && out.response == Failed(Rejected)) &&
            (state != "" && s.oauthState == Some(state) ==>
               out.response == Answer(Done) &&
               (forall u :: 0 <= u < |db.users| && db.users[u].googleSubId == profile.sub ==>
                  out.session == s.(oauthState := None, userId := Some(u), unlocked := false)) &&
               ((forall u :: 0 <= u < |db.users| ==> db.users[u].googleSubId != profile.sub) ==>
                  out.session == s.(oauthState := None, pendingGoogle := Some(profile))))
  {
  }

  /** Setting the first master password: it takes a pending Google account that no user has, a session
      without a user, and at least 8 characters. */
  lemma SetupMeaning(p: Platform, db: Db, s: Session, slot: Slot, now: int, password: string, salt: string,
      hashDraw: nat)
    requires VerifiesOnly(p)
    ensures var out := Handle(p, db, s, slot, now, SetupMasterPassword(password, salt, hashDraw));
            (out.response.Answer? <==>
               s.userId == None && s.pendingGoogle.Some? && |password| >= 8 &&
               forall u :: 0 <= u < |db.users| ==> db.users[u].googleSubId != s.pendingGoogle.value.sub) &&
            (out.response.Failed? ==> out.db == db && out.session == s && out.slot == slot) &&
            (out.response.Answer? ==>
               |out.db.users| == |db.users| + 1 && out.db == db.(users := out.db.users) &&
               out.db.users[..|db.users|] == db.users &&
               var user := out.db.users[|db.users|];
               user.googleSubId == s.pendingGoogle.value.sub && user.googleEmail == s.pendingGoogle.value.email &&
               user.masterKdfSalt == salt && user.autoLockMinutes == 15 &&
               (forall attempt :: p.verify(attempt, user.masterPasswordHash) <==> attempt == password) &&
               out.session == s.(pendingGoogle := None, userId := Some(|db.users|), unlocked := true) &&
               out.slot == Some(UnlockEntry(p.derive(password, salt), 15, now)))
  {
  }

  lemma UnlockMeaning(p: Platform, db: Db, s: Session, slot: Slot, now: int, password: string)
    ensures var out := Handle(p, db, s, slot, now, Unlock(password));
            out.db == db &&
            (out.response.Answer? <==>
               s.userId.Some? && s.userId.value < |db.users| &&
               p.verify(password, db.users[s.userId.value].masterPasswordHash)) &&
            (out.response.Failed? ==> out.session == s && out.slot == slot) &&
            (out.response.Answer? ==>
               var user := db.users[s.userId.value];
               out.session == s.(unlocked := true) &&
               out.slot == Some(UnlockEntry(p.derive(password, user.masterKdfSalt), user.autoLockMinutes, now)))
  {
  }

  /** The routes that work without an open session. */
  ghost predicate OpenRoute(req: Request) {
    req.GoogleStart? || req.GoogleCallback? || req.SetupMasterPassword? || req.Unlock? || req.Lock? || req.Logout? ||
    req.Me? || req.AuthenticateOptions? || req.Authenticate?
  }

  /** The guard, in minutes and milliseconds. */
  lemma GuardMeaning(p: Platform, db: Db, s: Session, slot: Slot, now: int, req: Request)
    requires !OpenRoute(req)
    ensures GuardPasses(s, slot, now) <==>
              s.userId.Some? && s.unlocked && slot.Some? &&
              now - slot.value.lastActivityAt <= slot.value.autoLockMinutes * 60_000
    ensures !GuardPasses(s, slot, now) ==>
              var out := Handle(p, db, s, slot, now, req);
              out.db == db && out.response == Failed(if s.userId.None? then NotLoggedIn else Locked) &&
              (s.userId.Some? ==> out.session == s.(unlocked := false))
  {
  }

  /** `me` answers whether the session is still open, keeps it in use if it is, and locks it if not. */
  lemma MeMeaning(p: Platform, db: Db, s: Session, slot: Slot, now: int)
    requires s.userId.Some?
    ensures var out := Handle(p, db, s, slot, now, Me);
            var still := s.unlocked && slot.Some? &&
                         now - slot.value.lastActivityAt <= slot.value.autoLockMinutes * 60_000;
            out.db == db && out.response == Answer(Unlocked(still)) &&
            (still ==> out.session == s && out.slot == Some(slot.value.(lastActivityAt := now))) &&
            (!still ==> out.session == s.(unlocked := false))
  {
  }

  /** The idle limit is 1 to 240 minutes; it is written to the user's row and to this session's key, and
      the next unlock of any session of the user takes it from the row. */
  lemma LimitMeaning(p: Platform, db: Db, s: Session, slot: Slot, now: int, minutes: int, other: Session,
      otherSlot: Slot, later: int, password: string)
    requires GuardPasses(s, slot, now) && s.userId.value < |db.users| && other.userId == s.userId
    ensures var out, u := Handle(p, db, s, slot, now, SetAutoLock(minutes)), s.userId.value;
            (out.response.Answer? <==> 1 <= minutes <= 240) &&
            (out.response.Failed? ==> out.response == Failed(Rejected) && out.db == db) &&
            (out.response.Answer? ==>
               out.db == db.(users := out.db.users) && |out.db.users| == |db.users| &&
               out.db.users[u] == db.users[u].(autoLockMinutes := minutes) &&
               (forall v :: 0 <= v < |db.users| && v != u ==> out.db.users[v] == db.users[v]) &&
               out.slot == Some(slot.value.(lastActivityAt := now, autoLockMinutes := minutes)) &&
               var next := Handle(p, out.db, other, otherSlot, later, Unlock(password));
               (next.response.Answer? ==> next.slot.Some? && next.slot.value.autoLockMinutes == minutes))
  {
  }

  lemma LockMeaning(p: Platform, db: Db, s: Session, slot: Slot, now: int)
    ensures var out := Handle(p, db, s, slot, now, Lock);
            s.userId.Some? ==> out.db == db && out.session == s.(unlocked := false) && out.slot == None
    ensures var out := Handle(p, db, s, slot, now, Logout);
            out.db == db && out.slot == None && out.session.userId == None && !out.session.unlocked &&
            out.session.oauthState == None && out.session.pendingGoogle == None &&
            out.session.currentWebauthnChallenge == None
  {
  }
}
