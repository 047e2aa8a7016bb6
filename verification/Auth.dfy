/**
 Every authenticated request as a function of the tables, the caller's session, the caller's slot in
 the key store and the time: what the guards and the handlers do, in their order.
 */
module Auth {
  import opened Wrappers
  import opened Platform
  import opened Vault
  import opened UnlockKeyStore

  const MIN_MASTER_PASSWORD_LENGTH: nat := 8
  const DEFAULT_AUTO_LOCK_MINUTES := 15

  /** A user's id is its position: users are never deleted. */
  datatype User = User(
    googleSubId: string,
    googleEmail: string,
    masterPasswordHash: string,
    masterKdfSalt: string,
    autoLockMinutes: int)

  datatype Device = Device(id: Id, userId: Id, deviceLabel: string, credentialId: string)

  datatype Db = Db(users: seq<User>, accounts: seq<Row>, devices: seq<Device>, nextId: Id)

  datatype Profile = Profile(sub: string, email: string)

  datatype Session = Session(
    userId: Option<Id>,
    unlocked: bool,
    oauthState: Option<string>,
    pendingGoogle: Option<Profile>,
    currentWebauthnChallenge: Option<string>)

  const NO_SESSION := Session(None, false, None, None, None)

  /** A WebAuthn answer: the credential, the challenge it signs, whether the library accepts it. */
  datatype Reply = Reply(credentialId: string, challenge: string, genuine: bool)

  datatype Error = NotLoggedIn | Locked | Unauthorized | Rejected | Duplicate | Missing | Unexpected

  datatype Payload =
    | Done
    | Unlocked(unlocked: bool)
    | Revoked(devices: nat)
    | Secret(entry: Entry)
    | File(file: BackupFile)
    | Counts(imported: nat, skipped: nat)

  datatype Response = Failed(error: Error) | Answer(payload: Payload)

  datatype Outcome = Outcome(db: Db, session: Session, slot: Slot, response: Response)

  datatype Request =
    | GoogleStart(state: string)
    | GoogleCallback(state: string, profile: Option<Profile>)
    | SetupMasterPassword(password: string, salt: string, hashDraw: nat)
    | Unlock(password: string)
    | Lock
    | Logout
    | Me
    | SetAutoLock(minutes: int)
    | ChangeMasterPassword(currentPassword: string, newPassword: string, salt: string, hashDraw: nat, draw: nat)
    | RegisterOptions(challenge: string)
    | Register(deviceLabel: string, reply: Reply)
    | AuthenticateOptions(challenge: string)
    | Authenticate(reply: Reply, password: string)
    | RemoveDevice(deviceId: Id)
    | GetAccount(id: Id)
    | CreateAccount(entry: Entry, draw: nat)
    | UpdateAccount(id: Id, patch: Patch, draw: nat)
    | RemoveAccount(id: Id)
    | ExportAccounts(exportPassword: string, salt: string, draw: nat)
    | ImportAccounts(exportPassword: string, file: BackupFile, draw: nat, faultAt: Option<nat>)
    | OtherGuarded

  // ---------------------------------------------------------------------------------
  // Queries
  // ---------------------------------------------------------------------------------

  function FindUser(users: seq<User>, sub: string): (u: Option<Id>)
    ensures u.Some? ==> u.value < |users| && users[u.value].googleSubId == sub
    ensures u.None? ==> forall k :: 0 <= k < |users| ==> users[k].googleSubId != sub
  {
    if users == [] then None
    else if users[0].googleSubId == sub then Some(0)
    else
      var rest := FindUser(users[1..], sub);
      if rest.Some? then Some(rest.value + 1) else None
  }

  predicate Registered(devices: seq<Device>, credentialId: string) {
    exists k :: 0 <= k < |devices| && devices[k].credentialId == credentialId
  }

  function FindCredential(devices: seq<Device>, credentialId: string): (d: Option<Device>)
    ensures d.Some? ==> d.value in devices && d.value.credentialId == credentialId
    ensures d.None? ==> !Registered(devices, credentialId)
  {
    if devices == [] then None
    else if devices[0].credentialId == credentialId then Some(devices[0])
    else FindCredential(devices[1..], credentialId)
  }

  function DevicesOf(devices: seq<Device>, userId: Id): seq<Device> {
    if devices == [] then []
    else (if devices[0].userId == userId then [devices[0]] else []) + DevicesOf(devices[1..], userId)
  }

  function DevicesNotOf(devices: seq<Device>, userId: Id): seq<Device> {
    if devices == [] then []
    else (if devices[0].userId == userId then [] else [devices[0]]) + DevicesNotOf(devices[1..], userId)
  }

  predicate OwnDevice(d: Device, userId: Id, id: Id) {
    d.id == id && d.userId == userId
  }

  /** `findFirst({ where: { id, userId } })`. */
  function FindDevice(devices: seq<Device>, userId: Id, id: Id): (i: Option<nat>)
    ensures i.Some? ==> i.value < |devices| && OwnDevice(devices[i.value], userId, id)
    ensures i.Some? ==> forall k :: 0 <= k < i.value ==> !OwnDevice(devices[k], userId, id)
    ensures i.None? ==> forall k :: 0 <= k < |devices| ==> !OwnDevice(devices[k], userId, id)
  {
    if devices == [] then None
    else if OwnDevice(devices[0], userId, id) then Some(0)
    else
      var rest := FindDevice(devices[1..], userId, id);
      if rest.Some? then Some(rest.value + 1) else None
  }

  function UserKey(p: Platform, user: User, password: string): Bytes {
    p.derive(password, user.masterKdfSalt)
  }

  // ---------------------------------------------------------------------------------
  // The services
  // ---------------------------------------------------------------------------------

  function Callback(db: Db, s: Session, slot: Slot, state: string, profile: Option<Profile>): Outcome {
    if state == "" || s.oauthState != Some(state) then Outcome(db, s, slot, Failed(Rejected)) else
    var spent := s.(oauthState := None);
    if profile.None? then Outcome(db, spent, slot, Failed(Unexpected)) else
    var user := FindUser(db.users, profile.value.sub);
    if user.Some? then Outcome(db, spent.(userId := user, unlocked := false), slot, Answer(Done))
    else Outcome(db, spent.(pendingGoogle := profile), slot, Answer(Done))
  }

  function Setup(p: Platform, db: Db, s: Session, slot: Slot, now: int, password: string, salt: string,
      hashDraw: nat): Outcome {
    if s.userId.Some? then Outcome(db, s, slot, Failed(Duplicate))
    else if s.pendingGoogle.None? then Outcome(db, s, slot, Failed(Unauthorized))
    else if |password| < MIN_MASTER_PASSWORD_LENGTH then Outcome(db, s, slot, Failed(Rejected))
    else if FindUser(db.users, s.pendingGoogle.value.sub).Some? then Outcome(db, s, slot, Failed(Unexpected))
    else
      var user := User(s.pendingGoogle.value.sub, s.pendingGoogle.value.email, p.hash(password, hashDraw), salt,
                       DEFAULT_AUTO_LOCK_MINUTES);
      Outcome(db.(users := db.users + [user]),
              s.(pendingGoogle := None, userId := Some(|db.users|), unlocked := true),
              Filled(p.derive(password, salt), user.autoLockMinutes, now),
              Answer(Done))
  }

  /** `AuthService.unlock` for the given user. */
  function UnlockAs(p: Platform, db: Db, s: Session, slot: Slot, now: int, userId: Id, password: string): Outcome {
    if userId >= |db.users| || !p.verify(password, db.users[userId].masterPasswordHash)
    then Outcome(db, s, slot, Failed(Unauthorized))
    else
      var user := db.users[userId];
      Outcome(db, s.(unlocked := true), Filled(UserKey(p, user, password), user.autoLockMinutes, now),
              Answer(Unlocked(true)))
  }

  function CheckStillUnlocked(db: Db, s: Session, slot: Slot, now: int): Outcome {
    if !s.unlocked then Outcome(db, s, slot, Answer(Unlocked(false)))
    else if TouchedKey(slot, now).None?
      then Outcome(db, s.(unlocked := false), Touched(slot, now), Answer(Unlocked(false)))
    else Outcome(db, s, Touched(slot, now), Answer(Unlocked(true)))
  }

  function UpdateAutoLock(db: Db, s: Session, slot: Slot, userId: Id, minutes: int): Outcome {
    if minutes < 1 || minutes > 240 then Outcome(db, s, slot, Failed(Rejected))
    else if userId >= |db.users| then Outcome(db, s, slot, Failed(Unexpected))
    else Outcome(db.(users := db.users[userId := db.users[userId].(autoLockMinutes := minutes)]), s,
                 Relimited(slot, minutes), Answer(Done))
  }

  function ChangePassword(p: Platform, db: Db, s: Session, slot: Slot, now: int, userId: Id,
                          currentPassword: string, newPassword: string, salt: string, hashDraw: nat,
                              draw: nat): Outcome {
    if userId >= |db.users| || !p.verify(currentPassword, db.users[userId].masterPasswordHash)
    then Outcome(db, s, slot, Failed(Unauthorized))
    else if |newPassword| < MIN_MASTER_PASSWORD_LENGTH then Outcome(db, s, slot, Failed(Rejected))
    else
      var user := db.users[userId];
      var newKey := p.derive(newPassword, salt);
      var accounts := Reencrypt(p, db.accounts, Snapshot(db.accounts, userId), UserKey(p, user, currentPassword),
                                newKey, draw);
      if accounts.None? then Outcome(db, s, slot, Failed(Unexpected))
      else
        var users := db.users[userId := user.(masterPasswordHash := p.hash(newPassword, hashDraw),
                                              masterKdfSalt := salt)];
        Outcome(Db(users, accounts.value, DevicesNotOf(db.devices, userId), db.nextId),
                s.(unlocked := true), Filled(newKey, user.autoLockMinutes, now),
                Answer(Revoked(|DevicesOf(db.devices, userId)|)))
  }

  predicate Accepted(reply: Reply, expected: string) {
    reply.genuine && reply.challenge == expected
  }

  function RegisterDevice(db: Db, s: Session, slot: Slot, userId: Id, deviceLabel: string, reply: Reply): Outcome {
    if s.currentWebauthnChallenge.None? || s.currentWebauthnChallenge.value == ""
      then Outcome(db, s, slot, Failed(Unauthorized)) else
    var spent := s.(currentWebauthnChallenge := None);
    if !Accepted(reply, s.currentWebauthnChallenge.value) then Outcome(db, spent, slot, Failed(Unauthorized))
    else if FindCredential(db.devices, reply.credentialId).Some? then Outcome(db, spent, slot, Failed(Duplicate))
    else
      Outcome(db.(devices := db.devices + [Device(db.nextId, userId, deviceLabel, reply.credentialId)],
                  nextId := db.nextId + 1),
              spent, slot, Answer(Done))
  }

  /** The session is bound to the device's user before the password is checked. */
  function AuthenticateDevice(p: Platform, db: Db, s: Session, slot: Slot, now: int, reply: Reply,
      password: string): Outcome {
    if s.currentWebauthnChallenge.None? || s.currentWebauthnChallenge.value == ""
      then Outcome(db, s, slot, Failed(Unauthorized)) else
    var spent := s.(currentWebauthnChallenge := None);
    var device := FindCredential(db.devices, reply.credentialId);
    if device.None? || !Accepted(reply, s.currentWebauthnChallenge.value)
      then Outcome(db, spent, slot, Failed(Unauthorized))
    else UnlockAs(p, db, spent.(userId := Some(device.value.userId)), slot, now, device.value.userId, password)
  }

  function FromError(e: AccountError): Error {
    match e
    case NotFound => Missing
    case Conflict => Duplicate
    case BadRequest => Rejected
    case CannotDecrypt => Unexpected
    case Malformed => Unexpected
    case DatabaseFailed => Unexpected
  }

  /** A change of the accounts table, or the error that leaves it alone. */
  function AccountsOutcome(db: Db, s: Session, slot: Slot, r: Result<seq<Row>, AccountError>, issued: nat): Outcome {
    match r
    case Ok(rows) => Outcome(db.(accounts := rows, nextId := db.nextId + issued), s, slot, Answer(Done))
    case Err(e) => Outcome(db, s, slot, Failed(FromError(e)))
  }

  // ---------------------------------------------------------------------------------
  // The routes
  // ---------------------------------------------------------------------------------

  predicate BehindUnlockedGuard(req: Request) {
    req.SetAutoLock? || req.ChangeMasterPassword? || req.RegisterOptions? || req.Register? || req.RemoveDevice? ||
    req.GetAccount? || req.CreateAccount? || req.UpdateAccount? || req.RemoveAccount? ||
    req.ExportAccounts? || req.ImportAccounts? || req.OtherGuarded?
  }

  /** `UnlockedGuard`: passes with a touched, live key of an unlocked session, and clears the flag
      otherwise. */
  predicate GuardPasses(s: Session, slot: Slot, now: int) {
    s.userId.Some? && s.unlocked && TouchedKey(slot, now).Some?
  }

  function GuardRefuses(db: Db, s: Session, slot: Slot, now: int): Outcome {
    if s.userId.None? then Outcome(db, s, slot, Failed(NotLoggedIn))
    else Outcome(db, s.(unlocked := false), Touched(slot, now), Failed(Locked))
  }

  /** A guarded handler, with the user and the key the guard hands over. */
  function Serve(p: Platform, db: Db, s: Session, slot: Slot, now: int, userId: Id, key: Bytes, req: Request): Outcome
    requires BehindUnlockedGuard(req)
  {
    match req
    case SetAutoLock(minutes) => UpdateAutoLock(db, s, slot, userId, minutes)
    case ChangeMasterPassword(currentPassword, newPassword, salt, hashDraw, draw) =>
      ChangePassword(p, db, s, slot, now, userId, currentPassword, newPassword, salt, hashDraw, draw)
    case RegisterOptions(challenge) => Outcome(db, s.(currentWebauthnChallenge := Some(challenge)), slot, Answer(Done))
    case Register(deviceLabel, reply) => RegisterDevice(db, s, slot, userId, deviceLabel, reply)
    case RemoveDevice(deviceId) =>
      var i := FindDevice(db.devices, userId, deviceId);
      if i.None? then Outcome(db, s, slot, Failed(Missing))
      else Outcome(db.(devices := db.devices[..i.value] + db.devices[i.value + 1..]), s, slot, Answer(Done))
    case GetAccount(id) =>
      (match ReadRow(p, db.accounts, userId, id, key)
       case Ok(e) => Outcome(db, s, slot, Answer(Secret(e)))
       case Err(e) => Outcome(db, s, slot, Failed(FromError(e))))
    case CreateAccount(e, draw) => AccountsOutcome(db, s, slot,
                                                   CreateRow(p, db.accounts, db.nextId, userId, key, e, draw), 1)
    case UpdateAccount(id, patch, draw) => AccountsOutcome(db, s, slot,
                                                           UpdateRow(p, db.accounts, userId, id, key, patch, draw), 0)
    case RemoveAccount(id) => AccountsOutcome(db, s, slot, RemoveRow(db.accounts, userId, id), 0)
    case ExportAccounts(exportPassword, salt, draw) =>
      (match ExportFile(p, db.accounts, userId, key, exportPassword, salt, draw)
       case Ok(file) => Outcome(db, s, slot, Answer(File(file)))
       case Err(e) => Outcome(db, s, slot, Failed(FromError(e))))
    case ImportAccounts(exportPassword, file, draw, faultAt) =>
      (match OpenFile(p, exportPassword, file)
       case Ok(entries) =>
         var reached := Reached(entries, faultAt);
         var r := ImportEntries(p, db.accounts, db.nextId, userId, key, reached, draw);
         Outcome(db.(accounts := r.rows, nextId := r.nextId), s, slot,
                 if |reached| < |entries| then Failed(Unexpected) else Answer(Counts(r.imported, r.skipped)))
       case Err(e) => Outcome(db, s, slot, Failed(FromError(e))))
    case OtherGuarded => Outcome(db, s, slot, Answer(Done))
  }

  /** One request, guard and handler at one instant. */
  function Handle(p: Platform, db: Db, s: Session, slot: Slot, now: int, req: Request): Outcome {
    if BehindUnlockedGuard(req) then
      if GuardPasses(s, slot, now)
      then Serve(p, db, s, Touched(slot, now), now, s.userId.value, TouchedKey(slot, now).value, req)
      else GuardRefuses(db, s, slot, now)
    else
      match req
      case GoogleStart(state) => Outcome(db, s.(oauthState := Some(state)), slot, Answer(Done))
      case GoogleCallback(state, profile) => Callback(db, s, slot, state, profile)
      case SetupMasterPassword(password, salt, hashDraw) => Setup(p, db, s, slot, now, password, salt, hashDraw)
      case Unlock(password) =>
        if s.userId.None? then Outcome(db, s, slot, Failed(NotLoggedIn))
        else UnlockAs(p, db, s, slot, now, s.userId.value, password)
      case Lock =>
        if s.userId.None? then Outcome(db, s, slot, Failed(NotLoggedIn))
        else Outcome(db, s.(unlocked := false), None, Answer(Unlocked(false)))
      case Logout => Outcome(db, NO_SESSION, None, Answer(Done))
      case Me =>
        if s.userId.None? then Outcome(db, s, slot, Failed(NotLoggedIn)) else CheckStillUnlocked(db, s, slot, now)
      case AuthenticateOptions(challenge) => Outcome(db, s.(currentWebauthnChallenge := Some(challenge)), slot,
                                                     Answer(Done))
      case Authenticate(reply, password) => AuthenticateDevice(p, db, s, slot, now, reply, password)
  }

  // ---------------------------------------------------------------------------------
  // Lazy and eager expiry agree on every request
  // ---------------------------------------------------------------------------------

  /** A request cannot tell an expired entry from a removed one, and leaves slots behind that are
      live or dead together. */
  lemma RequestSeesLive(p: Platform, db: Db, s: Session, slot: Slot, now: int, req: Request)
    ensures var lazy, eager := Handle(p, db, s, slot, now, req), Handle(p, db, s, Live(slot, now), now, req);
            lazy.db == eager.db && lazy.session == eager.session && lazy.response == eager.response &&
            Live(lazy.slot, now) == Live(eager.slot, now)
  {
    TouchSeesLive(slot, now);
  }

  /** An unlocked session has a user. */
  lemma StaysLoggedIn(p: Platform, db: Db, s: Session, slot: Slot, now: int, req: Request)
    requires s.unlocked ==> s.userId.Some?
    ensures var after := Handle(p, db, s, slot, now, req).session;
            after.unlocked ==> after.userId.Some?
  {
    hide Reencrypt, CreateRow, UpdateRow, RemoveRow, ReadRow, ExportFile, OpenFile, ImportEntries;
  }

  // ---------------------------------------------------------------------------------
  // The devices of one user
  // ---------------------------------------------------------------------------------

  lemma {:induction false} DevicesSplit(devices: seq<Device>, userId: Id)
    ensures |DevicesOf(devices, userId)| + |DevicesNotOf(devices, userId)| == |devices|
    ensures forall d :: d in DevicesNotOf(devices, userId) <==> d in devices && d.userId != userId
    ensures forall d :: d in DevicesOf(devices, userId) <==> d in devices && d.userId == userId
  {
    if devices != [] {
      DevicesSplit(devices[1..], userId);
    }
  }

  lemma {:induction false} DevicesKept(devices: seq<Device>, userId: Id, d: Device)
    ensures multiset(DevicesNotOf(devices, userId))[d] == if d.userId == userId then 0 else multiset(devices)[d]
  {
    if devices != [] {
      DevicesKept(devices[1..], userId, d);
      assert devices == [devices[0]] + devices[1..];
    }
  }
}
