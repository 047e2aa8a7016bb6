/** The guard, the routes in their order, and the server that a run of requests drives. */
module AuthRoutes {
  import opened Wrappers
  import opened Platform
  import opened Vault
  import opened UnlockKeyStore
  import opened Auth
  import opened AuthRuns
  import opened AuthMeaning
  import opened AccountsServices
  import opened AuthServices

  class UnlockedGuard {
    const unlockKeyStore: UnlockKeyStoreService

    constructor (unlockKeyStore: UnlockKeyStoreService)
      ensures this.unlockKeyStore == unlockKeyStore
    {
      this.unlockKeyStore := unlockKeyStore;
    }

    /** Touches the key, clears the flag when it cannot pass, and hands the key over when it can. */
    method CanActivate(session: HttpSession, now: int) returns (r: Result<Bytes, Error>)
      modifies session`unlocked, unlockKeyStore
      ensures r.Ok? <==> GuardPasses(old(session.Data()), old(SlotOf(unlockKeyStore.entries, session.id)), now)
      ensures r.Ok? ==> Some(r.value) == TouchedKey(old(SlotOf(unlockKeyStore.entries, session.id)), now) &&
                        session.Data() == old(session.Data()) &&
                        SlotOf(unlockKeyStore.entries, session.id) ==
                          Touched(old(SlotOf(unlockKeyStore.entries, session.id)), now)
      ensures r.Err? ==>
                forall db :: Outcome(db, session.Data(), SlotOf(unlockKeyStore.entries, session.id), Failed(r.error)) ==
                             GuardRefuses(db, old(session.Data()), old(SlotOf(unlockKeyStore.entries, session.id)), now)
      ensures unlockKeyStore.entries ==
                WithSlot(old(unlockKeyStore.entries), session.id, SlotOf(unlockKeyStore.entries, session.id))
    {
      SameSlot(unlockKeyStore.entries, session.id);
      if session.userId.None? {
        return Err(NotLoggedIn);
      }
      var key := unlockKeyStore.Touch(session.id, now);
      if !session.unlocked || key.None? {
        session.unlocked := false;
        return Err(Locked);
      }
      r := Ok(key.value);
    }
  }

  class AuthController {
    const authService: AuthService
    const prisma: Database

    constructor (authService: AuthService)
      ensures this.authService == authService && prisma == authService.prisma
    {
      this.authService, prisma := authService, authService.prisma;
    }

    method Logout(session: HttpSession)
      modifies session, authService.unlockKeyStore
      ensures session.Data() == NO_SESSION
      ensures authService.unlockKeyStore.entries == WithSlot(old(authService.unlockKeyStore.entries), session.id, None)
    {
      authService.Logout(session);
      session.Destroy();
    }

    /** The challenge is used up before the answer is verified. */
    method WebauthnRegister(userId: Id, deviceLabel: string, reply: Reply,
        session: HttpSession) returns (response: Response)
      requires prisma == authService.prisma
      modifies session`currentWebauthnChallenge, prisma`trustedDevices, prisma`nextId
      ensures authService.Outcome(session, response) ==
                RegisterDevice(old(prisma.Tables()), old(session.Data()), old(authService.SlotFor(session)), userId,
                               deviceLabel, reply)
      ensures var genuine := AnswersChallenge(old(session.Data()), reply);
              var known := exists i :: 0 <= i < |old(prisma.trustedDevices)| &&
                                       old(prisma.trustedDevices)[i].credentialId == reply.credentialId;
              response == (if !genuine then Failed(Unauthorized) else if known then Failed(Duplicate)
                           else Answer(Done)) &&
              prisma.trustedDevices ==
                old(prisma.trustedDevices) +
                (if genuine && !known then [Device(old(prisma.nextId), userId, deviceLabel, reply.credentialId)]
                 else [])
    {
      assert Registered(prisma.trustedDevices, reply.credentialId) <==>
               exists i :: 0 <= i < |prisma.trustedDevices| &&
                           prisma.trustedDevices[i].credentialId == reply.credentialId;
      if session.currentWebauthnChallenge.None? || session.currentWebauthnChallenge.value == "" {
        return Failed(Unauthorized);
      }
      var expectedChallenge := session.currentWebauthnChallenge.value;
      session.currentWebauthnChallenge := None;
      if !Accepted(reply, expectedChallenge) {
        return Failed(Unauthorized);
      }
      if FindCredential(prisma.trustedDevices, reply.credentialId).Some? {
        return Failed(Duplicate);
      }
      prisma.trustedDevices := prisma.trustedDevices + [Device(prisma.nextId, userId, deviceLabel, reply.credentialId)];
      prisma.nextId := prisma.nextId + 1;
      response := Answer(Done);
    }

    /** The session is bound to the device's user, then the password is checked. */
    method WebauthnAuthenticate(reply: Reply, password: string, session: HttpSession,
        now: int) returns (response: Response)
      modifies session, authService.unlockKeyStore
      ensures authService.Outcome(session, response) ==
                AuthenticateDevice(authService.crypto, old(authService.prisma.Tables()), old(session.Data()),
                                   old(authService.SlotFor(session)), now, reply, password)
      ensures DeviceLogsIn(authService.crypto, old(authService.prisma.Tables()), old(session.Data()),
                           old(authService.SlotFor(session)), now, reply, password,
                           authService.Outcome(session, response))
      ensures authService.unlockKeyStore.entries ==
                WithSlot(old(authService.unlockKeyStore.entries), session.id, authService.SlotFor(session))
    {
      AuthenticationLogsIn(authService.crypto, authService.prisma.Tables(), session.Data(),
                           authService.SlotFor(session), now, reply, password);
      hide DeviceLogsIn, UnlockAs;
      SameSlot(authService.unlockKeyStore.entries, session.id);
      if session.currentWebauthnChallenge.None? || session.currentWebauthnChallenge.value == "" {
        return Failed(Unauthorized);
      }
      var expectedChallenge := session.currentWebauthnChallenge.value;
      session.currentWebauthnChallenge := None;
      var device := FindCredential(authService.prisma.trustedDevices, reply.credentialId);
      if device.None? || !Accepted(reply, expectedChallenge) {
        return Failed(Unauthorized);
      }
      session.userId := Some(device.value.userId);
      response := authService.Unlock(session, device.value.userId, password, now);
    }

    /** Removes exactly the user's device with that id; without one, nothing changes. */
    method WebauthnRemove(userId: Id, deviceId: Id) returns (ok: bool)
      modifies prisma`trustedDevices
      ensures ok <==> exists i :: 0 <= i < |old(prisma.trustedDevices)| && OwnDevice(old(prisma.trustedDevices)[i],
                                                                                     userId, deviceId)
      ensures !ok ==> prisma.trustedDevices == old(prisma.trustedDevices)
      ensures forall i | IsFirst(old(prisma.trustedDevices), i, userId, deviceId) ::
                prisma.trustedDevices == old(prisma.trustedDevices)[..i] + old(prisma.trustedDevices)[i + 1..]
    {
      var device := FindDevice(prisma.trustedDevices, userId, deviceId);
      if device.None? {
        return false;
      }
      prisma.trustedDevices := prisma.trustedDevices[..device.value] + prisma.trustedDevices[device.value + 1..];
      ok := true;
    }
  }

  ghost predicate IsFirst(devices: seq<Device>, i: int, userId: Id, id: Id) {
    0 <= i < |devices| && OwnDevice(devices[i], userId, id) && forall k :: 0 <= k < i ==>
      !OwnDevice(devices[k], userId, id)
  }

  predicate ForLoggedIn(req: Request) {
    req.Unlock? || req.Lock? || req.Me?
  }

  /** The running server: what the framework does with a request, and what a restart does. */
  class Server {
    const crypto: Platform
    const prisma: Database
    const unlockKeyStore: UnlockKeyStoreService
    const authService: AuthService
    const accountsService: AccountsService
    const guard: UnlockedGuard
    const controller: AuthController
    var sessions: map<string, HttpSession>
    var now: int

    ghost predicate Wired() {
      authService.crypto == crypto && authService.prisma == prisma && authService.unlockKeyStore == unlockKeyStore &&
      accountsService.crypto == crypto && accountsService.prisma == prisma &&
      guard.unlockKeyStore == unlockKeyStore && controller.authService == authService && controller.prisma == prisma
    }

    ghost predicate Valid()
      reads this`sessions, sessions.Values
    {
      Wired() && forall sid :: sid in sessions ==> sessions[sid].id == sid
    }

    function World(): AuthRuns.World
      reads this, sessions.Values, prisma, unlockKeyStore
    {
      AuthRuns.World(now, prisma.Tables(), SessionData(), unlockKeyStore.entries)
    }

    function SessionData(): map<string, Session>
      reads this`sessions, sessions.Values
    {
      map sid | sid in sessions :: sessions[sid].Data()
    }

    constructor (crypto: Platform)
      ensures Valid() && World() == INITIAL && this.crypto == crypto
    {
      var db := new Database();
      var store := new UnlockKeyStoreService();
      var auth := new AuthService(db, crypto, store);
      this.crypto, prisma, unlockKeyStore, authService := crypto, db, store, auth;
      accountsService := new AccountsService(db, crypto);
      guard := new UnlockedGuard(store);
      controller := new AuthController(auth);
      sessions, now := map[], 0;
      new;
      assert World().sessions == map[];
    }

    /** The account routes that only read. */
    method RespondReading(session: HttpSession, userId: Id, key: Bytes, req: Request) returns (response: Response)
      requires Wired() && (req.GetAccount? || req.ExportAccounts?)
      ensures authService.Outcome(session, response) ==
                Serve(crypto, prisma.Tables(), session.Data(), authService.SlotFor(session), now, userId, key, req)
    {
      hide ReadRow, ExportFile, SlotOf;
      match req
      case GetAccount(id) =>
        var r := accountsService.FindOne(userId, id, key);
        response := if r.Ok? then Answer(Secret(r.value)) else Failed(FromError(r.error));
      case ExportAccounts(exportPassword, salt, draw) =>
        var r := accountsService.ExportAccounts(userId, key, exportPassword, salt, draw);
        response := if r.Ok? then Answer(File(r.value)) else Failed(FromError(r.error));
    }

    method RespondImporting(session: HttpSession, userId: Id, key: Bytes, req: Request) returns (response: Response)
      requires Wired() && req.ImportAccounts?
      modifies prisma`accounts, prisma`nextId
      ensures authService.Outcome(session, response) ==
                Serve(crypto, old(prisma.Tables()), old(session.Data()), old(authService.SlotFor(session)), now,
                      userId, key, req)
    {
      hide OpenFile, ImportEntries, SlotOf, Reached;
      var r := accountsService.ImportAccounts(userId, key, req.exportPassword, req.file, req.draw, req.faultAt);
      response := if r.Ok? then Answer(Counts(r.value.0, r.value.1)) else Failed(FromError(r.error));
    }

    /** The account routes that change one row. */
    method RespondChanging(session: HttpSession, userId: Id, key: Bytes, req: Request) returns (response: Response)
      requires Wired() && (req.CreateAccount? || req.UpdateAccount? || req.RemoveAccount?)
      modifies prisma`accounts, prisma`nextId
      ensures authService.Outcome(session, response) ==
                Serve(crypto, old(prisma.Tables()), old(session.Data()), old(authService.SlotFor(session)), now,
                      userId, key, req)
    {
      hide CreateRow, UpdateRow, RemoveRow, FromError, SlotOf;
      var r;
      match req {
        case CreateAccount(e, draw) => r := accountsService.Create(userId, key, e, draw);
        case UpdateAccount(id, patch, draw) => r := accountsService.Update(userId, id, key, patch, draw);
        case RemoveAccount(id) => r := accountsService.Remove(userId, id);
      }
      response := if r.Ok? then Answer(Done) else Failed(FromError(r.error));
    }

    /** A guarded route, once the guard has handed over the key. */
    method RespondGuarded(session: HttpSession, userId: Id, key: Bytes, req: Request) returns (response: Response)
      requires Wired() && BehindUnlockedGuard(req)
      modifies session, prisma, unlockKeyStore
      ensures authService.Outcome(session, response) ==
                Serve(crypto, old(prisma.Tables()), old(session.Data()), old(authService.SlotFor(session)), now,
                      userId, key, req)
      ensures unlockKeyStore.entries == WithSlot(old(unlockKeyStore.entries), session.id, authService.SlotFor(session))
    {
      hide ReadRow, CreateRow, UpdateRow, RemoveRow, ExportFile, OpenFile, ImportEntries, ChangePassword,
          RegisterDevice, UpdateAutoLock;
      SameSlot(unlockKeyStore.entries, session.id);
      if req.GetAccount? || req.ExportAccounts? {
        response := RespondReading(session, userId, key, req);
        return;
      } else if req.ImportAccounts? {
        response := RespondImporting(session, userId, key, req);
        return;
      } else if req.CreateAccount? || req.UpdateAccount? || req.RemoveAccount? {
        response := RespondChanging(session, userId, key, req);
        return;
      }
      match req
      case SetAutoLock(minutes) =>
        response := authService.UpdateAutoLockMinutes(session, userId, minutes);
      case ChangeMasterPassword(currentPassword, newPassword, salt, hashDraw, draw) =>
        response := authService.ChangeMasterPassword(session, userId, currentPassword, newPassword, salt, hashDraw,
                                                     draw, now);
      case RegisterOptions(challenge) =>
        session.currentWebauthnChallenge := Some(challenge);
        response := Answer(Done);
      case Register(deviceLabel, reply) =>
        response := controller.WebauthnRegister(userId, deviceLabel, reply, session);
      case RemoveDevice(deviceId) =>
        ghost var device := FindDevice(prisma.trustedDevices, userId, deviceId);
        assert device.Some? ==> IsFirst(prisma.trustedDevices, device.value, userId, deviceId);
        var ok := controller.WebauthnRemove(userId, deviceId);
        response := if ok then Answer(Done) else Failed(Missing);
      case OtherGuarded =>
        response := Answer(Done);
    }

    /** The routes behind the logged-in guard. */
    method RespondLoggedIn(session: HttpSession, req: Request) returns (response: Response)
      requires Wired() && ForLoggedIn(req)
      modifies session`unlocked, unlockKeyStore
      ensures authService.Outcome(session, response) ==
                Handle(crypto, old(prisma.Tables()), old(session.Data()), old(authService.SlotFor(session)), now, req)
      ensures unlockKeyStore.entries == WithSlot(old(unlockKeyStore.entries), session.id, authService.SlotFor(session))
    {
      hide UnlockAs, Auth.CheckStillUnlocked;
      SameSlot(unlockKeyStore.entries, session.id);
      if session.userId.None? {
        return Failed(NotLoggedIn);
      }
      match req
      case Unlock(password) =>
        response := authService.Unlock(session, session.userId.value, password, now);
      case Lock =>
        authService.Lock(session);
        response := Answer(Unlocked(false));
      case Me =>
        var unlocked := authService.CheckStillUnlocked(session, now);
        response := Answer(Unlocked(unlocked));
    }

    /** The routes without a guard. */
    method RespondOpen(session: HttpSession, req: Request) returns (response: Response)
      requires Wired() && !BehindUnlockedGuard(req) && !ForLoggedIn(req)
      modifies session, prisma`users, unlockKeyStore
      ensures authService.Outcome(session, response) ==
                Handle(crypto, old(prisma.Tables()), old(session.Data()), old(authService.SlotFor(session)), now, req)
      ensures unlockKeyStore.entries == WithSlot(old(unlockKeyStore.entries), session.id, authService.SlotFor(session))
    {
      hide Callback, Setup, AuthenticateDevice;
      SameSlot(unlockKeyStore.entries, session.id);
      match req
      case GoogleStart(state) =>
        authService.CreateGoogleAuthUrl(session, state);
        response := Answer(Done);
      case GoogleCallback(state, exchanged) =>
        response := authService.HandleGoogleCallback(state, exchanged, session);
      case SetupMasterPassword(password, salt, hashDraw) =>
        response := authService.SetupMasterPassword(session, password, salt, hashDraw, now);
      case Logout =>
        controller.Logout(session);
        response := Answer(Done);
      case AuthenticateOptions(challenge) =>
        session.currentWebauthnChallenge := Some(challenge);
        response := Answer(Done);
      case Authenticate(reply, password) =>
        response := controller.WebauthnAuthenticate(reply, password, session, now);
    }

    /** Guard, then handler. */
    method Respond(session: HttpSession, req: Request) returns (response: Response)
      requires Wired()
      modifies session, prisma, unlockKeyStore
      ensures authService.Outcome(session, response) ==
                Handle(crypto, old(prisma.Tables()), old(session.Data()), old(authService.SlotFor(session)), now, req)
      ensures unlockKeyStore.entries == WithSlot(old(unlockKeyStore.entries), session.id, authService.SlotFor(session))
    {
      hide Serve;
      if BehindUnlockedGuard(req) {
        var key := guard.CanActivate(session, now);
        if key.Err? {
          return Failed(key.error);
        }
        response := RespondGuarded(session, session.userId.value, key.value, req);
      } else if ForLoggedIn(req) {
        response := RespondLoggedIn(session, req);
      } else {
        response := RespondOpen(session, req);
      }
    }

    /** The session middleware: the stored session, or an empty one. */
    method LoadSession(sid: string)
      requires Valid()
      modifies this`sessions
      ensures Valid() && sid in sessions && fresh(sessions.Values - old(sessions.Values))
      ensures fresh(sessions[sid]) || sessions[sid] in old(sessions.Values)
      ensures SessionData() == old(SessionData())[sid := SessionOf(old(World()), sid)]
    {
      if sid !in sessions {
        var session := new HttpSession(sid);
        sessions := sessions[sid := session];
      }
    }

    method RespondTo(sid: string, req: Request) returns (response: Response)
      requires Valid() && sid in sessions
      modifies sessions[sid], prisma, unlockKeyStore
      ensures Valid()
      ensures var out := Handle(crypto, old(prisma.Tables()), old(SessionData())[sid],
                                SlotOf(old(unlockKeyStore.entries), sid), now, req);
              response == out.response && prisma.Tables() == out.db &&
              SessionData() == old(SessionData())[sid := out.session] &&
              unlockKeyStore.entries == WithSlot(old(unlockKeyStore.entries), sid, out.slot)
    {
      hide Handle, SlotOf, WithSlot;
      response := Respond(sessions[sid], req);
      forall other | other in sessions && other != sid
        ensures sessions[other].Data() == old(sessions[other].Data())
      {
        assert sessions[other].id != sessions[sid].id;
      }
    }

    /** One request of a run. */
    method Deliver(elapsed: nat, sid: string, req: Request) returns (response: Response)
      requires Valid()
      modifies this`sessions, this`now, sessions.Values, prisma, unlockKeyStore
      ensures Valid() && fresh(sessions.Values - old(sessions.Values))
      ensures World() == Step(crypto, old(World()), Call(elapsed, sid, req))
      ensures response == Answered(crypto, old(World()), elapsed, sid, req).response
    {
      hide Handle, SlotOf, WithSlot, Step, SessionOf, Answered, Valid, SessionData;
      ghost var before := World();
      LoadSession(sid);
      now := now + elapsed;
      ghost var loaded := SessionData();
      response := RespondTo(sid, req);
      StepOfCall(crypto, before, elapsed, sid, req);
      Overwritten(before.sessions, sid, SessionOf(before, sid), loaded, SessionData()[sid]);
    }

    /** One event of a run. */
    method Receive(e: Event) returns (response: Option<Response>)
      requires Valid()
      modifies this`sessions, this`now, sessions.Values, prisma, unlockKeyStore
      ensures Valid() && fresh(sessions.Values - old(sessions.Values))
      ensures World() == Step(crypto, old(World()), e)
      ensures e.Call? ==> response == Some(Answered(crypto, old(World()), e.elapsed, e.sid, e.req).response)
    {
      hide Handle;
      match e
      case Restart(elapsed) =>
        now := now + elapsed;
        unlockKeyStore.entries := map[];
        response := None;
      case Call(elapsed, sid, req) =>
        var answer := Deliver(elapsed, sid, req);
        response := Some(answer);
    }
  }

  lemma Overwritten(before: map<string, Session>, sid: string, first: Session, between: map<string, Session>,
      last: Session)
    requires between == before[sid := first]
    ensures between[sid := last] == before[sid := last]
  {
  }

  lemma StepOfCall(p: Platform, w: AuthRuns.World, elapsed: nat, sid: string, req: Request)
    ensures var out := Handle(p, w.db, SessionOf(w, sid), SlotOf(w.store, sid), w.now + elapsed, req);
            out == Answered(p, w, elapsed, sid, req) &&
            Step(p, w, Call(elapsed, sid, req)) ==
              AuthRuns.World(w.now + elapsed, out.db, w.sessions[sid := out.session], WithSlot(w.store, sid, out.slot))
  {
  }
}
