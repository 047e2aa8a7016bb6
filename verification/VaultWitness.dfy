/** Runs from the empty server that leave the refinement, on any lawful platform. */
module VaultWitness {
  import opened Wrappers
  import opened Platform
  import opened Vault
  import opened UnlockKeyStore
  import opened Auth
  import opened AuthRuns
  import opened ToyPlatform
  import opened VaultRuns

  const FIRST := Profile("first", "first@example.com")
  const SECOND := Profile("second", "second@example.com")
  const OLD_PASSWORD := "old password"
  const NEW_PASSWORD := "new password"
  const ENTRY := Entry("Mail", "mail.example.com", "Work", "someone", "secret", None)

  // ---------------------------------------------------------------------------------
  // The requests the runs are made of
  // ---------------------------------------------------------------------------------

  /** Nothing outside this session and its slot has changed but the tables. */
  ghost predicate Elsewhere(w: World, after: World, sid: string) {
    after.now == w.now &&
    forall other :: other != sid ==>
      SessionOf(after, other) == SessionOf(w, other) && SlotOf(after.store, other) == SlotOf(w.store, other)
  }

  lemma Leads(p: Platform, w: World, sid: string, req: Request)
    ensures var after, out := Step(p, w, Call(0, sid, req)), Answered(p, w, 0, sid, req);
            Elsewhere(w, after, sid) && after.db == out.db && SessionOf(after, sid) == out.session &&
            SlotOf(after.store, sid) == out.slot
  {
    forall other
      ensures other != sid ==> SessionOf(Step(p, w, Call(0, sid, req)), other) == SessionOf(w, other)
      ensures other != sid ==> SlotOf(Step(p, w, Call(0, sid, req)).store, other) == SlotOf(w.store, other)
    {
      StepSlots(p, w, 0, sid, req, other);
    }
    StepSlots(p, w, 0, sid, req, sid);
  }

  /** A Google login, up to the callback. */
  lemma Login(p: Platform, w: World, sid: string, profile: Profile) returns (after: World)
    requires SessionOf(w, sid) == NO_SESSION
    ensures after ==
              Step(p, Step(p, w, Call(0, sid, GoogleStart("state"))),
                   Call(0, sid, GoogleCallback("state", Some(profile))))
    ensures Elsewhere(w, after, sid) && after.db == w.db && SlotOf(after.store, sid) == SlotOf(w.store, sid)
    ensures var user := FindUser(w.db.users, profile.sub);
            SessionOf(after, sid) ==
              if user.Some? then NO_SESSION.(userId := user) else NO_SESSION.(pendingGoogle := Some(profile))
  {
    hide Step, Serve, SlotOf;
    Leads(p, w, sid, GoogleStart("state"));
    var started := Step(p, w, Call(0, sid, GoogleStart("state")));
    Leads(p, started, sid, GoogleCallback("state", Some(profile)));
    after := Step(p, started, Call(0, sid, GoogleCallback("state", Some(profile))));
  }

  /** A new user logs in with Google and sets a master password. */
  lemma SignUp(p: Platform, w: World, sid: string, profile: Profile, password: string, salt: string)
    returns (after: World)
    requires SessionOf(w, sid) == NO_SESSION && FindUser(w.db.users, profile.sub).None? && |password| >= 8
    ensures after == Step(p, Step(p, Step(p, w, Call(0, sid, GoogleStart("state"))),
                                  Call(0, sid, GoogleCallback("state", Some(profile)))),
                          Call(0, sid, SetupMasterPassword(password, salt, 0)))
    ensures Elsewhere(w, after, sid)
    ensures after.db == w.db.(users := w.db.users + [User(profile.sub, profile.email, p.hash(password, 0), salt, 15)])
    ensures SessionOf(after, sid) == NO_SESSION.(userId := Some(|w.db.users|), unlocked := true)
    ensures SlotOf(after.store, sid) == Filled(p.derive(password, salt), 15, w.now)
  {
    hide Step, Serve, SlotOf;
    var pending := Login(p, w, sid, profile);
    Leads(p, pending, sid, SetupMasterPassword(password, salt, 0));
    after := Step(p, pending, Call(0, sid, SetupMasterPassword(password, salt, 0)));
  }

  /** A user who exists logs in with Google and unlocks. */
  lemma SignIn(p: Platform, w: World, sid: string, profile: Profile, password: string) returns (after: World)
    requires SessionOf(w, sid) == NO_SESSION && FindUser(w.db.users, profile.sub).Some?
    requires p.verify(password, w.db.users[FindUser(w.db.users, profile.sub).value].masterPasswordHash)
    ensures after == Step(p, Step(p, Step(p, w, Call(0, sid, GoogleStart("state"))),
                                  Call(0, sid, GoogleCallback("state", Some(profile)))),
                          Call(0, sid, Unlock(password)))
    ensures Elsewhere(w, after, sid) && after.db == w.db
    ensures var u := FindUser(w.db.users, profile.sub).value;
            SessionOf(after, sid) == NO_SESSION.(userId := Some(u), unlocked := true) &&
            SlotOf(after.store, sid) ==
              Filled(UserKey(p, w.db.users[u], password), w.db.users[u].autoLockMinutes, w.now)
  {
    hide Step, Serve, SlotOf;
    var locked := Login(p, w, sid, profile);
    Leads(p, locked, sid, Unlock(password));
    after := Step(p, locked, Call(0, sid, Unlock(password)));
  }

  // ---------------------------------------------------------------------------------
  // A second open session while the master password changes
  // ---------------------------------------------------------------------------------

  const STRANDING := [
    Call(0, "A", GoogleStart("state")),
    Call(0, "A", GoogleCallback("state", Some(FIRST))),
    Call(0, "A", SetupMasterPassword(OLD_PASSWORD, "salt", 0)),
    Call(0, "B", GoogleStart("state")),
    Call(0, "B", GoogleCallback("state", Some(FIRST))),
    Call(0, "B", Unlock(OLD_PASSWORD)),
    Call(0, "A", ChangeMasterPassword(OLD_PASSWORD, NEW_PASSWORD, "new salt", 1, 0)),
    Call(0, "B", CreateAccount(ENTRY, 1)),
    Call(0, "A", GetAccount(0))]

  lemma AtThree(p: Platform, es: seq<Event>, n: nat)
    requires n + 3 <= |es|
    ensures At(p, es, n + 3) == Step(p, Step(p, Step(p, At(p, es, n), es[n]), es[n + 1]), es[n + 2])
  {
    hide Step;
    assert At(p, es, n + 1) == Step(p, At(p, es, n), es[n]);
    assert At(p, es, n + 2) == Step(p, At(p, es, n + 1), es[n + 1]);
    assert At(p, es, n + 3) == Step(p, At(p, es, n + 2), es[n + 2]);
  }

  const UNLOCKED := NO_SESSION.(userId := Some(0), unlocked := true)

  function OldSlot(p: Platform): Slot {
    Filled(p.derive(OLD_PASSWORD, "salt"), 15, 0)
  }

  ghost predicate BothOpen(p: Platform, w: World) {
    w.now == 0 && w.db == Db([User("first", "first@example.com", p.hash(OLD_PASSWORD, 0), "salt", 15)], [], [], 0) &&
    SessionOf(w, "A") == UNLOCKED && SlotOf(w.store, "A") == OldSlot(p) &&
    SessionOf(w, "B") == UNLOCKED && SlotOf(w.store, "B") == OldSlot(p)
  }

  lemma StrandingStart(p: Platform)
    requires Lawful(p)
    ensures BothOpen(p, At(p, STRANDING, 6))
  {
    hide Step, Handle;
    var w3 := SignUp(p, INITIAL, "A", FIRST, OLD_PASSWORD, "salt");
    AtThree(p, STRANDING, 0);
    assert "A" != "B";
    var w6 := SignIn(p, w3, "B", FIRST, OLD_PASSWORD);
    AtThree(p, STRANDING, 3);
  }

  lemma StrandingChange(p: Platform, w: World)
    requires Lawful(p) && BothOpen(p, w)
    ensures var after := Step(p, w, STRANDING[6]);
            Answered(p, w, 0, "A", STRANDING[6].req).response == Answer(Revoked(0)) && Strands(p, w, STRANDING[6]) &&
            after.now == 0 && |after.db.users| == 1 && after.db.accounts == [] && after.db.nextId == 0 &&
            SessionOf(after, "A") == UNLOCKED &&
            SlotOf(after.store, "A") == Filled(p.derive(NEW_PASSWORD, "new salt"), 15, 0) &&
            SessionOf(after, "B") == UNLOCKED && SlotOf(after.store, "B") == OldSlot(p)
  {
    hide Step;
    Leads(p, w, "A", STRANDING[6].req);
    assert "A" != "B" && OpenFor(w, "B", 0, Some(0));
  }

  lemma StrandingWrite(p: Platform, w: World)
    requires Lawful(p) && WrongKeyFails(p) && p.derive(OLD_PASSWORD, "salt") != p.derive(NEW_PASSWORD, "new salt")
    requires w.now == 0 && |w.db.users| == 1 && w.db.accounts == [] && w.db.nextId == 0
    requires SessionOf(w, "A") == UNLOCKED && SlotOf(w.store, "A") == Filled(p.derive(NEW_PASSWORD, "new salt"), 15, 0)
    requires SessionOf(w, "B") == UNLOCKED && SlotOf(w.store, "B") == OldSlot(p)
    ensures Answered(p, w, 0, "B", STRANDING[7].req).response == Answer(Done)
    ensures Answered(p, Step(p, w, STRANDING[7]), 0, "A", STRANDING[8].req).response == Failed(Unexpected)
  {
    hide Step;
    Leads(p, w, "B", STRANDING[7].req);
    var row := NewRow(p, 0, 0, p.derive(OLD_PASSWORD, "salt"), ENTRY, 1);
    assert "A" != "B" && Step(p, w, STRANDING[7]).db.accounts == [row];
    assert p.open(p.derive(OLD_PASSWORD, "salt"), row.encryptedPassword) == Some("secret");
    assert p.open(p.derive(NEW_PASSWORD, "new salt"), row.encryptedPassword) == None;
  }

  /** The change succeeds, the stranded session then stores an account, and its owner cannot read it. */
  lemma StrandingRun(p: Platform)
    requires Lawful(p) && WrongKeyFails(p) && p.derive(OLD_PASSWORD, "salt") != p.derive(NEW_PASSWORD, "new salt")
    ensures Strands(p, At(p, STRANDING, 6), STRANDING[6])
    ensures ResponseAt(p, STRANDING, 6) == Answer(Revoked(0))
    ensures ResponseAt(p, STRANDING, 7) == Answer(Done)
    ensures ResponseAt(p, STRANDING, 8) == Failed(Unexpected)
  {
    hide Step, Answered, Strands;
    StrandingStart(p);
    StrandingChange(p, At(p, STRANDING, 6));
    assert At(p, STRANDING, 7) == Step(p, At(p, STRANDING, 6), STRANDING[6]);
    StrandingWrite(p, At(p, STRANDING, 7));
    assert At(p, STRANDING, 8) == Step(p, At(p, STRANDING, 7), STRANDING[7]);
  }

  // ---------------------------------------------------------------------------------
  // A device login with a wrong password in a session that is open for somebody else
  // ---------------------------------------------------------------------------------

  const REBINDING := [
    Call(0, "A", GoogleStart("state")),
    Call(0, "A", GoogleCallback("state", Some(FIRST))),
    Call(0, "A", SetupMasterPassword(OLD_PASSWORD, "salt", 0)),
    Call(0, "B", GoogleStart("state")),
    Call(0, "B", GoogleCallback("state", Some(SECOND))),
    Call(0, "B", SetupMasterPassword(NEW_PASSWORD, "new salt", 0)),
    Call(0, "B", RegisterOptions("challenge")),
    Call(0, "B", Register("phone", Reply("credential", "challenge", true))),
    Call(0, "A", AuthenticateOptions("other challenge")),
    Call(0, "A", Authenticate(Reply("credential", "other challenge", true), OLD_PASSWORD)),
    Call(0, "A", CreateAccount(ENTRY, 0)),
    Call(0, "B", GetAccount(1))]

  function NewSlot(p: Platform): Slot {
    Filled(p.derive(NEW_PASSWORD, "new salt"), 15, 0)
  }

  function TwoUsers(p: Platform): seq<User> {
    [User("first", "first@example.com", p.hash(OLD_PASSWORD, 0), "salt", 15),
     User("second", "second@example.com", p.hash(NEW_PASSWORD, 0), "new salt", 15)]
  }

  /** Session A is open under the first user's key, session B under the second user's. */
  ghost predicate EachOpen(p: Platform, w: World, a: Session) {
    w.now == 0 && w.db.users == TwoUsers(p) && w.db.accounts == [] &&
    SessionOf(w, "A") == a && SlotOf(w.store, "A") == OldSlot(p) &&
    SessionOf(w, "B") == NO_SESSION.(userId := Some(1), unlocked := true) && SlotOf(w.store, "B") == NewSlot(p)
  }

  lemma RebindingStart(p: Platform)
    ensures EachOpen(p, At(p, REBINDING, 6), UNLOCKED)
    ensures At(p, REBINDING, 6).db.devices == [] && At(p, REBINDING, 6).db.nextId == 0
  {
    hide Step, Handle;
    var w3 := SignUp(p, INITIAL, "A", FIRST, OLD_PASSWORD, "salt");
    AtThree(p, REBINDING, 0);
    assert "A" != "B" && "first" != "second";
    var w6 := SignUp(p, w3, "B", SECOND, NEW_PASSWORD, "new salt");
    AtThree(p, REBINDING, 3);
  }

  lemma RebindingDevice(p: Platform, w: World)
    requires EachOpen(p, w, UNLOCKED) && w.db.devices == [] && w.db.nextId == 0
    ensures var after := Step(p, Step(p, w, REBINDING[6]), REBINDING[7]);
            EachOpen(p, after, UNLOCKED) && after.db.devices == [Device(0, 1, "phone", "credential")] &&
            after.db.nextId == 1
  {
    hide Step;
    assert "A" != "B";
    Leads(p, w, "B", REBINDING[6].req);
    Leads(p, Step(p, w, REBINDING[6]), "B", REBINDING[7].req);
  }

  lemma RebindingLogin(p: Platform, w: World)
    requires Lawful(p) && EachOpen(p, w, UNLOCKED) && w.db.devices == [Device(0, 1, "phone", "credential")] &&
             w.db.nextId == 1
    ensures var asked := Step(p, w, REBINDING[8]);
            var after := Step(p, asked, REBINDING[9]);
            RebindsSession(p, asked, REBINDING[9]) &&
            Answered(p, asked, 0, "A", REBINDING[9].req).response == Failed(Unauthorized) &&
            EachOpen(p, after, UNLOCKED.(userId := Some(1))) && after.db.nextId == 1
  {
    hide Step;
    assert "A" != "B" && OLD_PASSWORD[0] != NEW_PASSWORD[0];
    Leads(p, w, "A", REBINDING[8].req);
    Leads(p, Step(p, w, REBINDING[8]), "A", REBINDING[9].req);
  }

  lemma RebindingWrite(p: Platform, w: World)
    requires Lawful(p) && WrongKeyFails(p) && p.derive(OLD_PASSWORD, "salt") != p.derive(NEW_PASSWORD, "new salt")
    requires EachOpen(p, w, UNLOCKED.(userId := Some(1))) && w.db.nextId == 1
    ensures Answered(p, w, 0, "A", REBINDING[10].req).response == Answer(Done)
    ensures Answered(p, Step(p, w, REBINDING[10]), 0, "B", REBINDING[11].req).response == Failed(Unexpected)
  {
    hide Step;
    Leads(p, w, "A", REBINDING[10].req);
    var row := NewRow(p, 1, 1, p.derive(OLD_PASSWORD, "salt"), ENTRY, 0);
    assert "A" != "B" && Step(p, w, REBINDING[10]).db.accounts == [row];
    assert p.open(p.derive(OLD_PASSWORD, "salt"), row.encryptedPassword) == Some("secret");
    assert p.open(p.derive(NEW_PASSWORD, "new salt"), row.encryptedPassword) == None;
  }

  /** The login fails, the rebound session then stores an account for the other user, who cannot read it. */
  lemma RebindingRun(p: Platform)
    requires Lawful(p) && WrongKeyFails(p) && p.derive(OLD_PASSWORD, "salt") != p.derive(NEW_PASSWORD, "new salt")
    ensures RebindsSession(p, At(p, REBINDING, 9), REBINDING[9])
    ensures ResponseAt(p, REBINDING, 9) == Failed(Unauthorized)
    ensures ResponseAt(p, REBINDING, 10) == Answer(Done)
    ensures ResponseAt(p, REBINDING, 11) == Failed(Unexpected)
  {
    hide Step, Answered, RebindsSession, EachOpen;
    RebindingStart(p);
    RebindingDevice(p, At(p, REBINDING, 6));
    assert At(p, REBINDING, 7) == Step(p, At(p, REBINDING, 6), REBINDING[6]);
    assert At(p, REBINDING, 8) == Step(p, At(p, REBINDING, 7), REBINDING[7]);
    RebindingLogin(p, At(p, REBINDING, 8));
    assert At(p, REBINDING, 9) == Step(p, At(p, REBINDING, 8), REBINDING[8]);
    assert At(p, REBINDING, 10) == Step(p, At(p, REBINDING, 9), REBINDING[9]);
    RebindingWrite(p, At(p, REBINDING, 10));
    assert At(p, REBINDING, 11) == Step(p, At(p, REBINDING, 10), REBINDING[10]);
  }

  /** The hypotheses of the two runs hold on a lawful platform. */
  lemma RunsHappen()
    ensures Lawful(TOY) && WrongKeyFails(TOY) &&
            TOY.derive(OLD_PASSWORD, "salt") != TOY.derive(NEW_PASSWORD, "new salt")
  {
    LawsHoldTogether();
    assert Letters(OLD_PASSWORD)[0] != Letters(NEW_PASSWORD)[0];
  }
}
