/**
 The auth service, the guard and the routes as classes over the tables, a session object and the
 key store, each method proved against its specification.
 */
module AuthServices {
  import opened Wrappers
  import opened Platform
  import opened Vault
  import opened UnlockKeyStore
  import opened Auth
  import opened AccountsServices

  class HttpSession {
    const id: string
    var userId: Option<Id>
    var unlocked: bool
    var oauthState: Option<string>
    var pendingGoogle: Option<Profile>
    var currentWebauthnChallenge: Option<string>

    constructor (id: string)
      ensures this.id == id && Data() == NO_SESSION
    {
      this.id, userId, unlocked, oauthState, pendingGoogle, currentWebauthnChallenge := id, None, false, None, None,
          None;
    }

    function Data(): Session
      reads this
    {
      Session(userId, unlocked, oauthState, pendingGoogle, currentWebauthnChallenge)
    }

    method Destroy()
      modifies this
      ensures Data() == NO_SESSION
    {
      userId, unlocked, oauthState, pendingGoogle, currentWebauthnChallenge := None, false, None, None, None;
    }
  }

  class AuthService {
    const prisma: Database
    const crypto: Platform
    const unlockKeyStore: UnlockKeyStoreService

    constructor (prisma: Database, crypto: Platform, unlockKeyStore: UnlockKeyStoreService)
      ensures this.prisma == prisma && this.crypto == crypto && this.unlockKeyStore == unlockKeyStore
    {
      this.prisma, this.crypto, this.unlockKeyStore := prisma, crypto, unlockKeyStore;
    }

    function SlotFor(session: HttpSession): Slot
      reads unlockKeyStore
    {
      SlotOf(unlockKeyStore.entries, session.id)
    }

    /** Everything one request can see or change, with the response to it. */
    function Outcome(session: HttpSession, response: Response): Auth.Outcome
      reads prisma, session, unlockKeyStore
    {
      Auth.Outcome(prisma.Tables(), session.Data(), SlotFor(session), response)
    }

    method CreateGoogleAuthUrl(session: HttpSession, state: string)
      modifies session`oauthState
      ensures session.Data() == old(session.Data()).(oauthState := Some(state))
    {
      session.oauthState := Some(state);
    }

    method HandleGoogleCallback(state: string, exchanged: Option<Profile>,
        session: HttpSession) returns (response: Response)
      modifies session
      ensures Outcome(session, response) ==
                Callback(old(prisma.Tables()), old(session.Data()), old(SlotFor(session)), state, exchanged)
    {
      if state == "" || Some(state) != session.oauthState {
        return Failed(Rejected);
      }
      session.oauthState := None;
      if exchanged.None? {
        return Failed(Unexpected);
      }
      var user := FindUser(prisma.users, exchanged.value.sub);
      if user.Some? {
        session.userId := user;
        session.unlocked := false;
        return Answer(Done);
      }
      session.pendingGoogle := exchanged;
      response := Answer(Done);
    }

    method SetupMasterPassword(session: HttpSession, password: string, salt: string, hashDraw: nat,
        now: int) returns (response: Response)
      modifies session, prisma`users, unlockKeyStore
      ensures Outcome(session, response) ==
                Setup(crypto, old(prisma.Tables()), old(session.Data()), old(SlotFor(session)), now, password, salt,
                      hashDraw)
      ensures unlockKeyStore.entries == WithSlot(old(unlockKeyStore.entries), session.id, SlotFor(session))
    {
      SameSlot(unlockKeyStore.entries, session.id);
      if session.userId.Some? {
        return Failed(Duplicate);
      }
      if session.pendingGoogle.None? {
        return Failed(Unauthorized);
      }
      if |password| < MIN_MASTER_PASSWORD_LENGTH {
        return Failed(Rejected);
      }
      var pending := session.pendingGoogle.value;
      var masterPasswordHash := crypto.hash(password, hashDraw);
      var encryptionKey := crypto.derive(password, salt);
      if FindUser(prisma.users, pending.sub).Some? {
        return Failed(Unexpected);
      }
      var userId := |prisma.users|;
      prisma.users := prisma.users + [User(pending.sub, pending.email, masterPasswordHash, salt,
                                           DEFAULT_AUTO_LOCK_MINUTES)];
      session.pendingGoogle := None;
      session.userId := Some(userId);
      session.unlocked := true;
      unlockKeyStore.Set(session.id, encryptionKey, prisma.users[userId].autoLockMinutes, now);
      response := Answer(Done);
    }

    method Unlock(session: HttpSession, userId: Id, password: string, now: int) returns (response: Response)
      modifies session`unlocked, unlockKeyStore
      ensures Outcome(session, response) ==
                UnlockAs(crypto, old(prisma.Tables()), old(session.Data()), old(SlotFor(session)), now, userId,
                         password)
      ensures unlockKeyStore.entries == WithSlot(old(unlockKeyStore.entries), session.id, SlotFor(session))
    {
      SameSlot(unlockKeyStore.entries, session.id);
      if userId >= |prisma.users| {
        return Failed(Unauthorized);
      }
      var user := prisma.users[userId];
      var valid := crypto.verify(password, user.masterPasswordHash);
      if !valid {
        return Failed(Unauthorized);
      }
      var encryptionKey := crypto.derive(password, user.masterKdfSalt);
      unlockKeyStore.Set(session.id, encryptionKey, user.autoLockMinutes, now);
      session.unlocked := true;
      response := Answer(Unlocked(true));
    }

    method Lock(session: HttpSession)
      modifies session`unlocked, unlockKeyStore
      ensures session.Data() == old(session.Data()).(unlocked := false)
      ensures unlockKeyStore.entries == WithSlot(old(unlockKeyStore.entries), session.id, None)
    {
      unlockKeyStore.Delete(session.id);
      session.unlocked := false;
    }

    method Logout(session: HttpSession)
      modifies unlockKeyStore
      ensures unlockKeyStore.entries == WithSlot(old(unlockKeyStore.entries), session.id, None)
    {
      unlockKeyStore.Delete(session.id);
    }

    method CheckStillUnlocked(session: HttpSession, now: int) returns (unlocked: bool)
      modifies session`unlocked, unlockKeyStore
      ensures Outcome(session, Answer(Unlocked(unlocked))) ==
                Auth.CheckStillUnlocked(old(prisma.Tables()), old(session.Data()), old(SlotFor(session)), now)
      ensures unlockKeyStore.entries == WithSlot(old(unlockKeyStore.entries), session.id, SlotFor(session))
    {
      SameSlot(unlockKeyStore.entries, session.id);
      if !session.unlocked {
        return false;
      }
      var key := unlockKeyStore.Touch(session.id, now);
      if key.None? {
        session.unlocked := false;
        return false;
      }
      unlocked := true;
    }

    method UpdateAutoLockMinutes(session: HttpSession, userId: Id, autoLockMinutes: int) returns (response: Response)
      modifies prisma`users, unlockKeyStore
      ensures Outcome(session, response) ==
                UpdateAutoLock(old(prisma.Tables()), old(session.Data()), old(SlotFor(session)), userId,
                               autoLockMinutes)
      ensures unlockKeyStore.entries == WithSlot(old(unlockKeyStore.entries), session.id, SlotFor(session))
    {
      SameSlot(unlockKeyStore.entries, session.id);
      if autoLockMinutes < 1 || autoLockMinutes > 240 {
        return Failed(Rejected);
      }
      if userId >= |prisma.users| {
        return Failed(Unexpected);
      }
      prisma.users := prisma.users[userId := prisma.users[userId].(autoLockMinutes := autoLockMinutes)];
      unlockKeyStore.UpdateAutoLockMinutes(session.id, autoLockMinutes);
      response := Answer(Done);
    }

    /** The re-encryption inside the transaction: rows are written one by one, and a failure rolls the
        table back. */
    method ReencryptAccounts(accounts: seq<(Id, string)>, oldKey: Bytes, newKey: Bytes, draw: nat) returns (ok: bool)
      modifies prisma`accounts
      ensures var after := Reencrypt(crypto, old(prisma.accounts), accounts, oldKey, newKey, draw);
              ok == after.Some? && prisma.accounts == if after.Some? then after.value else old(prisma.accounts)
    {
      var before := prisma.accounts;
      assert accounts[0..] == accounts;
      for i := 0 to |accounts|
        invariant Reencrypt(crypto, old(prisma.accounts), accounts, oldKey, newKey, draw) ==
                  Reencrypt(crypto, prisma.accounts, accounts[i..], oldKey, newKey, draw + i)
      {
        assert accounts[i..][0] == accounts[i] && accounts[i..][1..] == accounts[i + 1..];
        var text := crypto.open(oldKey, accounts[i].1);
        var row := IndexOfId(prisma.accounts, accounts[i].0);
        if text.None? || row.None? {
          prisma.accounts := before;
          return false;
        }
        var sealed := crypto.seal(newKey, draw + i, text.value);
        prisma.accounts := prisma.accounts[row.value := prisma.accounts[row.value].(encryptedPassword := sealed)];
      }
      ok := true;
    }

    method ChangeMasterPassword(session: HttpSession, userId: Id, currentPassword: string, newPassword: string,
                                salt: string, hashDraw: nat, draw: nat, now: int)
      returns (response: Response)
      modifies session`unlocked, prisma, unlockKeyStore
      ensures Outcome(session, response) ==
                ChangePassword(crypto, old(prisma.Tables()), old(session.Data()), old(SlotFor(session)), now, userId,
                               currentPassword, newPassword, salt, hashDraw, draw)
      ensures unlockKeyStore.entries == WithSlot(old(unlockKeyStore.entries), session.id, SlotFor(session))
    {
      hide Reencrypt;
      SameSlot(unlockKeyStore.entries, session.id);
      if userId >= |prisma.users| {
        return Failed(Unauthorized);
      }
      var user := prisma.users[userId];
      var valid := crypto.verify(currentPassword, user.masterPasswordHash);
      if !valid {
        return Failed(Unauthorized);
      }
      if |newPassword| < MIN_MASTER_PASSWORD_LENGTH {
        return Failed(Rejected);
      }
      var oldKey := crypto.derive(currentPassword, user.masterKdfSalt);
      var newHash, newKey := crypto.hash(newPassword, hashDraw), crypto.derive(newPassword, salt);
      var accounts := Snapshot(prisma.accounts, userId);
      var ok := ReencryptAccounts(accounts, oldKey, newKey, draw);
      if !ok {
        return Failed(Unexpected);
      }
      prisma.users := prisma.users[userId := user.(masterPasswordHash := newHash, masterKdfSalt := salt)];
      var revokedDevices := |DevicesOf(prisma.trustedDevices, userId)|;
      prisma.trustedDevices := DevicesNotOf(prisma.trustedDevices, userId);
      unlockKeyStore.Set(session.id, newKey, user.autoLockMinutes, now);
      session.unlocked := true;
      response := Answer(Revoked(revokedDevices));
    }
  }

  /** Writing a slot back changes nothing. */
  lemma SameSlot(entries: map<string, UnlockEntry>, sessionId: string)
    ensures WithSlot(entries, sessionId, SlotOf(entries, sessionId)) == entries
  {
  }
}
