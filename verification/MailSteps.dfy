/**
 The scan and review pipeline as a step system. Every database or provider call is one step;
 scans and approvals in flight keep the rows they read as local snapshots, so that any number of
 scans, edits and reviews can interleave. A request that is never continued models a crash.
 */
module MailSteps {
  import opened Wrappers
  import opened RuleMatcher
  import opened MailTables
  import opened MailScan

  datatype Phase =
    | Idle
    | Listing(account: Id, rules: seq<(Id, EmailRule)>)
    | Inserting(account: Id, pairs: seq<Pair>)

  datatype Scan = Scan(todo: seq<AccountRef>, phase: Phase, scanned: nat, created: nat, failed: nat)

  datatype ApprovalPhase = Found | Acted | Ended

  /** An approve request: what `findOwned` returned to it, and how far it got. */
  datatype Approval = Approval(
    userId: Id,
    candidateId: Id,
    seen: Candidate,
    actionType: string,
    providerType: string,
    phase: ApprovalPhase)

  datatype MailAction = Delete | Spam

  datatype LogEntry = LogEntry(userId: Id, candidateId: Id, account: Id, messageId: string, action: MailAction)

  type Mailbox = set<(Id, string, MailAction)>

  /** `log` and `cascaded` are history: the mailbox actions so far, the rows cascades removed. */
  datatype State = State(
    db: Db,
    scans: seq<Scan>,
    approvals: seq<Approval>,
    mailbox: Mailbox,
    log: seq<LogEntry>,
    cascaded: nat)

  datatype ProviderOutcome = Succeeds | FailsBefore | FailsAfter

  datatype Step =
    | StartScan(order: seq<Id>, user: Option<Id>)
    | ScanReadsRules(scan: nat, ruleOrder: seq<Id>, fails: bool)
    | ScanListsMessages(scan: nat, listing: Option<seq<Message>>)
    | ScanInserts(scan: nat, fails: bool)
    | Connects(userId: Id, displayName: string)
    | Disconnects(userId: Id, id: Id)
    | CreatesRule(userId: Id, data: NewRule)
    | UpdatesRule(userId: Id, id: Id, patch: RulePatch)
    | RemovesRule(userId: Id, id: Id)
    | Excludes(userId: Id, id: Id, now: int)
    | ApproveFinds(userId: Id, id: Id)
    | ApproveActs(approval: nat, outcome: ProviderOutcome)
    | ApproveUpdates(approval: nat, now: int)

  // ---------------------------------------------------------------------------------
  // Steps
  // ---------------------------------------------------------------------------------

  function ActiveAccounts(db: Db, user: Option<Id>): set<Id> {
    set id | id in db.accounts && db.accounts[id].isActive && (user.None? || db.accounts[id].userId == user.value)
  }

  function References(db: Db, order: seq<Id>): seq<AccountRef>
    requires forall id :: id in order ==> id in db.accounts
  {
    seq(|order|, i requires 0 <= i < |order| => AccountRef(order[i], db.accounts[order[i]].providerType))
  }

  ghost function ReadRulesStep(t: Text, db: Db, scan: Scan, ruleOrder: seq<Id>, fails: bool): Scan {
    if !scan.phase.Idle? || scan.todo == [] then scan else
    var account := scan.todo[0];
    var next := scan.(todo := scan.todo[1..]);
    if account.providerType != GMAIL || fails then next.(failed := scan.failed + 1)
    else if !Enumerates(ruleOrder, ActiveRules(db, account.id)) then scan
    else if ruleOrder == [] then next
    else next.(phase := Listing(account.id, ReadRules(db, ruleOrder)))
  }

  function ListStep(t: Text, scan: Scan, listing: Option<seq<Message>>): Scan {
    if !scan.phase.Listing? then scan
    else if listing.None? then scan.(phase := Idle, failed := scan.failed + 1)
    else scan.(phase := Inserting(scan.phase.account, MatchingPairs(t, listing.value, scan.phase.rules)),
               scanned := scan.scanned + 1)
  }

  function InsertStep(db: Db, scan: Scan, fails: bool): (Db, Scan) {
    if !scan.phase.Inserting? then (db, scan)
    else if scan.phase.pairs == [] then (db, scan.(phase := Idle))
    else
      var p := scan.phase.pairs[0];
      var r := InsertCandidate(db, p.ruleId, scan.phase.account, p.message);
      if fails || r == Err(ForeignKeyViolation) then (db, scan.(phase := Idle, failed := scan.failed + 1))
      else
        var next := scan.(phase := Inserting(scan.phase.account, scan.phase.pairs[1..]));
        if r.Ok? then (r.value, next.(created := scan.created + 1)) else (db, next)
  }

  function ActionFor(actionType: string): Option<MailAction> {
    if actionType == DELETE_CANDIDATE then Some(Delete)
    else if actionType == SPAM_CANDIDATE then Some(Spam)
    else None
  }

  function FindForApproval(db: Db, userId: Id, id: Id): Option<Approval> {
    if FindOwned(db, userId, id).Ok? && db.candidates[id].ruleId in db.rules then
      var seen := db.candidates[id];
      Some(Approval(userId, id, seen, db.rules[seen.ruleId].actionType, db.accounts[seen.emailAccountId].providerType,
                    Found))
    else None
  }

  /** The provider call of an approval that needs one; the others go straight on. */
  function Act(s: State, n: nat, outcome: ProviderOutcome): State
    requires n < |s.approvals|
  {
    var a := s.approvals[n];
    var action := ActionFor(a.actionType);
    if !a.phase.Found? then s
    else if action.None? then s.(approvals := s.approvals[n := a.(phase := Acted)])
    else if a.providerType != GMAIL || outcome.FailsBefore? then s.(approvals := s.approvals[n := a.(phase := Ended)])
    else
      s.(approvals := s.approvals[n := a.(phase := if outcome.Succeeds? then Acted else Ended)],
         mailbox := s.mailbox + {(a.seen.emailAccountId, a.seen.externalMessageId, action.value)},
         log := s.log + [LogEntry(a.userId, a.candidateId, a.seen.emailAccountId, a.seen.externalMessageId,
                                  action.value)])
  }

  function WithDb(s: State, r: Result<Db, ServiceError>): State {
    if r.Ok? then s.(db := r.value) else s
  }

  ghost function Apply(t: Text, s: State, step: Step): State {
    match step
    case StartScan(order, user) =>
      if Enumerates(order, ActiveAccounts(s.db, user))
      then s.(scans := s.scans + [Scan(References(s.db, order), Idle, 0, 0, 0)])
      else s
    case ScanReadsRules(n, ruleOrder, fails) =>
      if n < |s.scans| then s.(scans := s.scans[n := ReadRulesStep(t, s.db, s.scans[n], ruleOrder, fails)]) else s
    case ScanListsMessages(n, listing) =>
      if n < |s.scans| then s.(scans := s.scans[n := ListStep(t, s.scans[n], listing)]) else s
    case ScanInserts(n, fails) =>
      if n < |s.scans| then
        var (db, scan) := InsertStep(s.db, s.scans[n], fails);
        s.(db := db, scans := s.scans[n := scan])
      else s
    case Connects(userId, displayName) => s.(db := ConnectAccount(s.db, userId, displayName))
    case Disconnects(userId, id) =>
      if OwnsAccount(s.db, userId, id)
      then s.(db := DeleteAccount(s.db, id), cascaded := s.cascaded + |CandidatesOfAccount(s.db, id)|)
      else s
    case CreatesRule(userId, data) => WithDb(s, CreateRule(s.db, userId, data))
    case UpdatesRule(userId, id, patch) => WithDb(s, UpdateRule(s.db, userId, id, patch))
    case RemovesRule(userId, id) =>
      if OwnsRule(s.db, userId, id)
      then s.(db := DeleteRule(s.db, id), cascaded := s.cascaded + |CandidatesOfRules(s.db, {id})|)
      else s
    case Excludes(userId, id, now) => WithDb(s, Exclude(s.db, userId, id, now))
    case ApproveFinds(userId, id) =>
      var found := FindForApproval(s.db, userId, id);
      if found.Some? then s.(approvals := s.approvals + [found.value]) else s
    case ApproveActs(n, outcome) =>
      if n < |s.approvals| then Act(s, n, outcome) else s
    case ApproveUpdates(n, now) =>
      if n < |s.approvals| && s.approvals[n].phase.Acted? then
        WithDb(s.(approvals := s.approvals[n := s.approvals[n].(phase := Ended)]),
               SetStatus(s.db, s.approvals[n].candidateId, APPROVED, now))
      else s
  }

  ghost predicate Initial(s: State) {
    Consistent(s.db) && s.scans == [] && s.approvals == [] && s.log == [] && s.cascaded == 0
  }

  /** The state after the first n steps of a run. */
  ghost function At(t: Text, s: State, steps: seq<Step>, n: nat): State
    requires n <= |steps|
  {
    if n == 0 then s else Apply(t, At(t, s, steps, n - 1), steps[n - 1])
  }

  // ---------------------------------------------------------------------------------
  // How one step, and a whole run, changes the tables
  // ---------------------------------------------------------------------------------

  /** Identifiers are not reused, owners and copied accounts never change, a settled candidate stays
      settled, and a candidate only disappears together with its rule. */
  ghost predicate Evolves(before: Db, after: Db) {
    before.nextId <= after.nextId &&
    (forall id :: id in after.accounts && id < before.nextId ==>
       id in before.accounts && after.accounts[id].userId == before.accounts[id].userId) &&
    (forall id :: id in after.rules && id < before.nextId ==>
       id in before.rules && after.rules[id].emailAccountId == before.rules[id].emailAccountId) &&
    (forall id :: id in after.candidates && id < before.nextId ==>
       id in before.candidates && SameRow(before.candidates[id], after.candidates[id])) &&
    (forall id :: id in before.candidates && before.candidates[id].ruleId in after.rules ==> id in after.candidates)
  }

  ghost predicate SameRow(before: Candidate, after: Candidate) {
    KeyOf(after) == KeyOf(before) && after.emailAccountId == before.emailAccountId &&
    (!before.status.PENDING? ==> !after.status.PENDING?)
  }

  lemma EvolvesSelf(db: Db)
    ensures Evolves(db, db)
  {
  }

  lemma EvolvesFurther(a: Db, b: Db, c: Db)
    requires Consistent(a) && Evolves(a, b) && Evolves(b, c)
    ensures Evolves(a, c)
  {
    forall id | id in a.candidates && a.candidates[id].ruleId in c.rules
      ensures id in c.candidates
    {
      assert a.candidates[id].ruleId < b.nextId;
      assert a.candidates[id].ruleId in b.rules;
    }
  }

  ghost predicate RulesStillFit(db: Db, account: Id, ids: set<Id>) {
    forall id :: id in ids ==> id < db.nextId && (id in db.rules ==> db.rules[id].emailAccountId == account)
  }

  ghost function SnapshotRules(phase: Phase): set<Id> {
    match phase
    case Idle => {}
    case Listing(_, rules) => set r | r in rules :: r.0
    case Inserting(_, pairs) => set p | p in pairs :: p.ruleId
  }

  /** A snapshot may be stale, but its rules still belong to its account if they still exist. */
  ghost predicate ScanFits(db: Db, scan: Scan) {
    scan.phase.Idle? || RulesStillFit(db, scan.phase.account, SnapshotRules(scan.phase))
  }

  ghost predicate Invariant(s: State) {
    Consistent(s.db) && forall n :: 0 <= n < |s.scans| ==> ScanFits(s.db, s.scans[n])
  }

  lemma FitsLater(before: Db, after: Db, scan: Scan)
    requires ScanFits(before, scan) && Evolves(before, after)
    ensures ScanFits(after, scan)
  {
  }

  lemma InsertEvolves(db: Db, ruleId: Id, account: Id, m: Message)
    requires Consistent(db) && InsertCandidate(db, ruleId, account, m).Ok?
    ensures Evolves(db, InsertCandidate(db, ruleId, account, m).value)
  {
  }

  lemma InsertStepFits(db: Db, scan: Scan, fails: bool)
    requires Consistent(db) && ScanFits(db, scan)
    ensures var (after, next) := InsertStep(db, scan, fails);
            Consistent(after) && Evolves(db, after) && ScanFits(after, next) &&
            |after.candidates| + scan.created == |db.candidates| + next.created
  {
    hide Evolves, Consistent;
    EvolvesSelf(db);
    if scan.phase.Inserting? && scan.phase.pairs != [] {
      var p := scan.phase.pairs[0];
      assert p.ruleId in SnapshotRules(scan.phase);
      ShorterFits(db, scan.phase.account, scan.phase.pairs);
      if InsertCandidate(db, p.ruleId, scan.phase.account, p.message).Ok? {
        InsertKeepsConsistent(db, p.ruleId, scan.phase.account, p.message);
        InsertEvolves(db, p.ruleId, scan.phase.account, p.message);
        FitsLater(db, InsertCandidate(db, p.ruleId, scan.phase.account, p.message).value,
                  scan.(phase := Inserting(scan.phase.account, scan.phase.pairs[1..])));
      }
    }
  }

  lemma ShorterFits(db: Db, account: Id, pairs: seq<Pair>)
    requires pairs != [] && RulesStillFit(db, account, SnapshotRules(Inserting(account, pairs)))
    ensures RulesStillFit(db, account, SnapshotRules(Inserting(account, pairs[1..])))
  {
    forall id | id in SnapshotRules(Inserting(account, pairs[1..]))
      ensures id in SnapshotRules(Inserting(account, pairs))
    {
      var q :| q in pairs[1..] && q.ruleId == id;
      assert q in pairs;
    }
  }

  lemma ReadRulesFits(t: Text, db: Db, scan: Scan, ruleOrder: seq<Id>, fails: bool)
    requires Consistent(db) && ScanFits(db, scan)
    ensures var next := ReadRulesStep(t, db, scan, ruleOrder, fails);
            ScanFits(db, next) && next.created == scan.created
  {
    var next := ReadRulesStep(t, db, scan, ruleOrder, fails);
    if next.phase.Listing? && scan.phase.Idle? {
      forall id | id in SnapshotRules(next.phase)
        ensures id in ActiveRules(db, next.phase.account)
      {
        var r :| r in next.phase.rules && r.0 == id;
        var i :| 0 <= i < |ruleOrder| && next.phase.rules[i] == r;
        assert ruleOrder[i] == id;
      }
    }
  }

  lemma ListFits(t: Text, db: Db, scan: Scan, listing: Option<seq<Message>>)
    requires ScanFits(db, scan)
    ensures var next := ListStep(t, scan, listing);
            ScanFits(db, next) && next.created == scan.created
  {
    if scan.phase.Listing? && listing.Some? {
      var pairs := MatchingPairs(t, listing.value, scan.phase.rules);
      forall p | p in pairs
        ensures p.ruleId in SnapshotRules(scan.phase)
      {
        MatchingPairsMeaning(t, listing.value, scan.phase.rules, p);
        var r :| r in scan.phase.rules && Pairs(t, p.message, r, (p.ruleId, p.message.externalMessageId));
      }
    }
  }

  lemma ConnectEvolves(db: Db, userId: Id, displayName: string)
    requires Consistent(db)
    ensures Evolves(db, ConnectAccount(db, userId, displayName))
  {
  }

  lemma CreateRuleEvolves(db: Db, userId: Id, data: NewRule)
    requires Consistent(db) && CreateRule(db, userId, data).Ok?
    ensures Evolves(db, CreateRule(db, userId, data).value)
  {
  }

  lemma UpdateRuleEvolves(db: Db, userId: Id, id: Id, patch: RulePatch)
    requires Consistent(db) && UpdateRule(db, userId, id, patch).Ok?
    ensures Evolves(db, UpdateRule(db, userId, id, patch).value)
  {
  }

  lemma EditsEvolve(db: Db, step: Step, after: Db)
    requires Consistent(db)
    requires match step
             case Connects(userId, displayName) => after == ConnectAccount(db, userId, displayName)
             case CreatesRule(userId, data) => CreateRule(db, userId, data) == Ok(after)
             case UpdatesRule(userId, id, patch) => UpdateRule(db, userId, id, patch) == Ok(after)
             case _ => false
    ensures Consistent(after) && Evolves(db, after) && after.candidates == db.candidates
  {
    hide Consistent, Evolves;
    match step
    case Connects(userId, displayName) =>
      ConnectKeepsConsistent(db, userId, displayName);
      ConnectEvolves(db, userId, displayName);
    case CreatesRule(userId, data) =>
      CreateRuleKeepsConsistent(db, userId, data);
      CreateRuleEvolves(db, userId, data);
    case UpdatesRule(userId, id, patch) =>
      UpdateRuleKeepsConsistent(db, userId, id, patch);
      UpdateRuleEvolves(db, userId, id, patch);
    case _ =>
  }

  lemma DeleteRuleEvolves(db: Db, id: Id)
    requires Consistent(db)
    ensures Evolves(db, DeleteRule(db, id))
  {
  }

  lemma DeleteRuleCounts(db: Db, id: Id)
    ensures |DeleteRule(db, id).candidates| + |CandidatesOfRules(db, {id})| == |db.candidates|
  {
    RemovedRows(db.candidates, CandidatesOfRules(db, {id}));
  }

  lemma DeleteAccountEvolves(db: Db, id: Id)
    requires Consistent(db)
    ensures Evolves(db, DeleteAccount(db, id))
  {
    var after := DeleteAccount(db, id);
    forall c | c in db.candidates && db.candidates[c].ruleId in after.rules
      ensures c in after.candidates
    {
      assert CandidateConsistent(db, db.candidates[c]);
    }
  }

  lemma DeleteAccountCounts(db: Db, id: Id)
    requires Consistent(db)
    ensures |DeleteAccount(db, id).candidates| + |CandidatesOfAccount(db, id)| == |db.candidates|
  {
    CascadeOfAccount(db, id);
    hide Consistent;
    RemovedRows(db.candidates, CandidatesOfAccount(db, id));
  }

  lemma RemovedRows(rows: map<Id, Candidate>, gone: set<Id>)
    requires gone <= rows.Keys
    ensures |rows - gone| + |gone| == |rows|
  {
    assert (rows - gone).Keys == rows.Keys - gone;
    assert |rows.Keys - gone| == |rows.Keys| - |gone|;
  }

  lemma SetStatusEvolves(db: Db, id: Id, status: Status, now: int)
    requires Consistent(db) && !status.PENDING? && SetStatus(db, id, status, now).Ok?
    ensures var after := SetStatus(db, id, status, now).value;
            Consistent(after) && Evolves(db, after) && |after.candidates| == |db.candidates|
  {
    SetStatusKeepsConsistent(db, id, status, now);
    var after := SetStatus(db, id, status, now).value;
    assert after.candidates.Keys == db.candidates.Keys;
    assert |after.candidates.Keys| == |db.candidates.Keys|;
  }

  function Created(scans: seq<Scan>): nat {
    if scans == [] then 0 else scans[0].created + Created(scans[1..])
  }

  lemma {:induction false} CreatedUpdate(scans: seq<Scan>, n: nat, scan: Scan)
    requires n < |scans|
    ensures Created(scans[n := scan]) + scans[n].created == Created(scans) + scan.created
  {
    if n == 0 {
      assert scans[0 := scan][1..] == scans[1..];
    } else {
      CreatedUpdate(scans[1..], n - 1, scan);
      assert scans[n := scan][1..] == scans[1..][n - 1 := scan];
    }
  }

  lemma {:induction false} CreatedAppend(scans: seq<Scan>, scan: Scan)
    ensures Created(scans + [scan]) == Created(scans) + scan.created
  {
    if scans == [] {
      assert scans + [scan] == [scan];
    } else {
      CreatedAppend(scans[1..], scan);
      assert (scans + [scan])[1..] == scans[1..] + [scan];
    }
  }

  /** Candidates that exist or were cascaded away, less those the scans say they created. */
  ghost function Balance(s: State): int {
    |s.db.candidates| + s.cascaded - Created(s.scans)
  }

  /** What every step keeps. */
  ghost predicate Keeps(before: State, after: State) {
    Invariant(after) && Evolves(before.db, after.db) && Balance(after) == Balance(before)
  }

  lemma ScanChanges(s: State, n: nat, db: Db, scan: Scan)
    requires Invariant(s) && n < |s.scans|
    requires Consistent(db) && Evolves(s.db, db) && ScanFits(db, scan)
    requires |db.candidates| + s.scans[n].created == |s.db.candidates| + scan.created
    ensures Keeps(s, s.(db := db, scans := s.scans[n := scan]))
  {
    CreatedUpdate(s.scans, n, scan);
    forall k | 0 <= k < |s.scans|
      ensures ScanFits(db, s.scans[k])
    {
      FitsLater(s.db, db, s.scans[k]);
    }
  }

  lemma TablesChange(s: State, after: State)
    requires Invariant(s) && Consistent(after.db) && Evolves(s.db, after.db) && after.scans == s.scans
    requires |after.db.candidates| + after.cascaded == |s.db.candidates| + s.cascaded
    ensures Keeps(s, after)
  {
    forall k | 0 <= k < |s.scans|
      ensures ScanFits(after.db, s.scans[k])
    {
      FitsLater(s.db, after.db, s.scans[k]);
    }
  }

  lemma StartKeeps(t: Text, s: State, order: seq<Id>, user: Option<Id>)
    requires Invariant(s)
    ensures Keeps(s, Apply(t, s, StartScan(order, user)))
  {
    EvolvesSelf(s.db);
    if Enumerates(order, ActiveAccounts(s.db, user)) {
      CreatedAppend(s.scans, Scan(References(s.db, order), Idle, 0, 0, 0));
    }
    hide Evolves, Consistent, Enumerates;
  }

  lemma ReadKeeps(t: Text, s: State, n: nat, ruleOrder: seq<Id>, fails: bool)
    requires Invariant(s) && n < |s.scans|
    ensures Keeps(s, Apply(t, s, ScanReadsRules(n, ruleOrder, fails)))
  {
    EvolvesSelf(s.db);
    ReadRulesFits(t, s.db, s.scans[n], ruleOrder, fails);
    ScanChanges(s, n, s.db, ReadRulesStep(t, s.db, s.scans[n], ruleOrder, fails));
    hide Evolves, Consistent, ScanFits, ReadRulesStep, Keeps;
  }

  lemma ListKeeps(t: Text, s: State, n: nat, listing: Option<seq<Message>>)
    requires Invariant(s) && n < |s.scans|
    ensures Keeps(s, Apply(t, s, ScanListsMessages(n, listing)))
  {
    EvolvesSelf(s.db);
    ListFits(t, s.db, s.scans[n], listing);
    ScanChanges(s, n, s.db, ListStep(t, s.scans[n], listing));
    hide Evolves, Consistent, ScanFits, ListStep, Keeps;
  }

  lemma InsertKeeps(t: Text, s: State, n: nat, fails: bool)
    requires Invariant(s) && n < |s.scans|
    ensures Keeps(s, Apply(t, s, ScanInserts(n, fails)))
  {
    InsertStepFits(s.db, s.scans[n], fails);
    var (db, scan) := InsertStep(s.db, s.scans[n], fails);
    ScanChanges(s, n, db, scan);
    hide Evolves, Consistent, ScanFits, InsertStep, Keeps;
  }

  lemma ScanStepKeeps(t: Text, s: State, step: Step)
    requires Invariant(s) && IsScanStep(step)
    ensures Keeps(s, Apply(t, s, step))
  {
    hide Evolves, Consistent, ScanFits;
    if step.StartScan? {
      StartKeeps(t, s, step.order, step.user);
    } else if step.scan >= |s.scans| {
      EvolvesSelf(s.db);
    } else if step.ScanReadsRules? {
      ReadKeeps(t, s, step.scan, step.ruleOrder, step.fails);
    } else if step.ScanListsMessages? {
      ListKeeps(t, s, step.scan, step.listing);
    } else {
      InsertKeeps(t, s, step.scan, step.fails);
    }
  }

  lemma EditStepKeeps(t: Text, s: State, step: Step)
    requires Invariant(s) &&
             (step.Connects? || step.CreatesRule? || step.UpdatesRule? || step.Disconnects? || step.RemovesRule?)
    ensures Keeps(s, Apply(t, s, step))
  {
    var after := Apply(t, s, step);
    match step
    case Connects(_, _) =>
      EditsEvolve(s.db, step, after.db);
      TablesChange(s, after);
    case CreatesRule(userId, data) =>
      if CreateRule(s.db, userId, data).Ok? {
        EditsEvolve(s.db, step, after.db);
        TablesChange(s, after);
      }
    case UpdatesRule(userId, id, patch) =>
      if UpdateRule(s.db, userId, id, patch).Ok? {
        EditsEvolve(s.db, step, after.db);
        TablesChange(s, after);
      }
    case Disconnects(userId, id) =>
      if OwnsAccount(s.db, userId, id) {
        DeleteAccountEvolves(s.db, id);
        DeleteAccountCounts(s.db, id);
        DeletesKeepConsistent(s.db, id);
        TablesChange(s, after);
      }
    case RemovesRule(userId, id) =>
      if OwnsRule(s.db, userId, id) {
        DeleteRuleEvolves(s.db, id);
        DeleteRuleCounts(s.db, id);
        DeletesKeepConsistent(s.db, id);
        TablesChange(s, after);
      }
  }

  predicate IsReviewStep(step: Step) {
    step.Excludes? || step.ApproveFinds? || step.ApproveActs? || step.ApproveUpdates?
  }

  /** A review step leaves the scans alone, and the tables too unless it settles one candidate. */
  lemma ReviewStepSettles(t: Text, s: State, step: Step)
    requires IsReviewStep(step)
    ensures var after := Apply(t, s, step);
            after.scans == s.scans && after.cascaded == s.cascaded &&
            (after.db == s.db || exists id, status, now :: Settles(s.db, after.db, id, status, now))
  {
    if step.Excludes? && Apply(t, s, step).db != s.db {
      assert Settles(s.db, Apply(t, s, step).db, step.id, EXCLUDED, step.now);
    } else if step.ApproveUpdates? && Apply(t, s, step).db != s.db {
      assert Settles(s.db, Apply(t, s, step).db, s.approvals[step.approval].candidateId, APPROVED, step.now);
    }
  }

  ghost predicate Settles(before: Db, after: Db, id: Id, status: Status, now: int) {
    !status.PENDING? && SetStatus(before, id, status, now) == Ok(after)
  }

  lemma ReviewStepKeeps(t: Text, s: State, step: Step)
    requires Invariant(s) && IsReviewStep(step)
    ensures Keeps(s, Apply(t, s, step))
  {
    hide Apply, Evolves, Consistent, ScanFits;
    var after := Apply(t, s, step);
    ReviewStepSettles(t, s, step);
    EvolvesSelf(s.db);
    if after.db != s.db {
      var id, status, now :| Settles(s.db, after.db, id, status, now);
      SetStatusEvolves(s.db, id, status, now);
    }
    TablesChange(s, after);
  }

  lemma StepKeeps(t: Text, s: State, step: Step)
    requires Invariant(s)
    ensures Keeps(s, Apply(t, s, step))
  {
    if IsScanStep(step) {
      ScanStepKeeps(t, s, step);
    } else if IsReviewStep(step) {
      ReviewStepKeeps(t, s, step);
    } else {
      EditStepKeeps(t, s, step);
    }
  }

  // ---------------------------------------------------------------------------------
  // Whole runs
  // ---------------------------------------------------------------------------------

  lemma {:induction false} RunKeeps(t: Text, s: State, steps: seq<Step>, n: nat)
    requires Initial(s) && n <= |steps|
    ensures Invariant(At(t, s, steps, n)) && Balance(At(t, s, steps, n)) == |s.db.candidates|
  {
    if n > 0 {
      RunKeeps(t, s, steps, n - 1);
      StepKeeps(t, At(t, s, steps, n - 1), steps[n - 1]);
    }
  }

  lemma {:induction false} RunEvolves(t: Text, s: State, steps: seq<Step>, i: nat, j: nat)
    requires Initial(s) && i <= j <= |steps|
    ensures Evolves(At(t, s, steps, i).db, At(t, s, steps, j).db)
    decreases j
  {
    hide Consistent, Evolves, Apply;
    RunKeeps(t, s, steps, i);
    EvolvesSelf(At(t, s, steps, i).db);
    if i < j {
      RunEvolves(t, s, steps, i, j - 1);
      RunKeeps(t, s, steps, j - 1);
      StepEvolvesFurther(t, At(t, s, steps, i).db, At(t, s, steps, j - 1), steps[j - 1]);
    }
  }

  lemma StepEvolvesFurther(t: Text, db: Db, s: State, step: Step)
    requires Consistent(db) && Invariant(s) && Evolves(db, s.db)
    ensures Evolves(db, Apply(t, s, step).db)
  {
    StepKeeps(t, s, step);
    EvolvesFurther(db, s.db, Apply(t, s, step).db);
  }

  /** Conservation under any interleaving: the rows are the initial ones, plus what the scans report
      as created, less what cascades removed; and no (rule, message) pair ever has two rows. */
  lemma {:induction false} Conservation(t: Text, s: State, steps: seq<Step>, n: nat)
    requires Initial(s) && n <= |steps|
    ensures var now := At(t, s, steps, n);
            |now.db.candidates| == |s.db.candidates| + Created(now.scans) - now.cascaded &&
            KeysUnique(now.db)
  {
    RunKeeps(t, s, steps, n);
  }

  /** Ownership in every reachable state: the account copied into a candidate is its rule's account,
      even when a scan inserted it from a stale rule snapshot, so `findOwned` agrees with ownership
      through the rule. */
  lemma {:induction false} OwnershipThroughRule(t: Text, s: State, steps: seq<Step>, n: nat, userId: Id, id: Id)
    requires Initial(s) && n <= |steps| && id in At(t, s, steps, n).db.candidates
    ensures var db := At(t, s, steps, n).db;
            CandidateConsistent(db, db.candidates[id]) &&
            (FindOwned(db, userId, id).Ok? <==> OwnsRule(db, userId, db.candidates[id].ruleId))
  {
    RunKeeps(t, s, steps, n);
    OwnershipAgrees(At(t, s, steps, n).db, userId, id);
  }

  /** An ownership test that passed once still holds at any later step at which the row exists, so
      checking it and writing later are as good as one atomic step. */
  lemma {:induction false} OwnershipStable(t: Text, s: State, steps: seq<Step>, i: nat, j: nat, userId: Id, id: Id)
    requires Initial(s) && i <= j <= |steps|
    ensures var before, after := At(t, s, steps, i).db, At(t, s, steps, j).db;
            (OwnsAccount(before, userId, id) && id in after.accounts ==> OwnsAccount(after, userId, id)) &&
            (OwnsRule(before, userId, id) && id in after.rules ==> OwnsRule(after, userId, id)) &&
            (FindOwned(before, userId, id).Ok? && id in after.candidates ==> FindOwned(after, userId, id).Ok?)
  {
    hide Evolves, At, OwnsAccount, OwnsRule, FindOwned;
    RunEvolves(t, s, steps, i, j);
    RunKeeps(t, s, steps, i);
    RunKeeps(t, s, steps, j);
    OwnershipEvolves(At(t, s, steps, i).db, At(t, s, steps, j).db, userId, id);
  }

  lemma OwnershipEvolves(before: Db, after: Db, userId: Id, id: Id)
    requires Consistent(before) && Consistent(after) && Evolves(before, after)
    ensures OwnsAccount(before, userId, id) && id in after.accounts ==> OwnsAccount(after, userId, id)
    ensures OwnsRule(before, userId, id) && id in after.rules ==> OwnsRule(after, userId, id)
    ensures FindOwned(before, userId, id).Ok? && id in after.candidates ==> FindOwned(after, userId, id).Ok?
  {
    if id in before.candidates && id in after.candidates {
      assert CandidateConsistent(before, before.candidates[id]);
      assert CandidateConsistent(after, after.candidates[id]);
    }
  }

  /** No re-queueing: once a (rule, message) pair has left PENDING, then as long as its rule exists it
      has a row, that row is not PENDING, and no other row has the pair. */
  lemma {:induction false} NeverRequeued(t: Text, s: State, steps: seq<Step>, i: nat, j: nat, id: Id)
    requires Initial(s) && i <= j <= |steps|
    requires id in At(t, s, steps, i).db.candidates && !At(t, s, steps, i).db.candidates[id].status.PENDING?
    requires At(t, s, steps, i).db.candidates[id].ruleId in At(t, s, steps, j).db.rules
    ensures var before, after := At(t, s, steps, i).db, At(t, s, steps, j).db;
            id in after.candidates && after.candidates[id].processedAt.Some? &&
            forall other :: other in after.candidates &&
                            KeyOf(after.candidates[other]) == KeyOf(before.candidates[id]) ==>
              other == id && !after.candidates[other].status.PENDING?
  {
    hide At, Evolves, Consistent;
    RunEvolves(t, s, steps, i, j);
    RunKeeps(t, s, steps, i);
    RunKeeps(t, s, steps, j);
    SettledEvolves(At(t, s, steps, i).db, At(t, s, steps, j).db, id);
  }

  lemma SettledEvolves(before: Db, after: Db, id: Id)
    requires Consistent(before) && Consistent(after) && Evolves(before, after)
    requires id in before.candidates && !before.candidates[id].status.PENDING? &&
             before.candidates[id].ruleId in after.rules
    ensures id in after.candidates && after.candidates[id].processedAt.Some?
    ensures forall other :: other in after.candidates &&
                            KeyOf(after.candidates[other]) == KeyOf(before.candidates[id]) ==>
              other == id && !after.candidates[other].status.PENDING?
  {
    assert id < before.nextId;
    assert CandidateConsistent(after, after.candidates[id]);
  }

  // ---------------------------------------------------------------------------------
  // Mailbox safety
  // ---------------------------------------------------------------------------------

  /** Step i is the approve request of this user finding this candidate, in an account of the user,
      with a rule of this action type at that step. */
  ghost predicate FoundAt(t: Text, s: State, steps: seq<Step>, i: nat, userId: Id, candidateId: Id, account: Id,
      messageId: string, actionType: string) {
    i < |steps| && steps[i] == ApproveFinds(userId, candidateId) &&
    var db := At(t, s, steps, i).db;
    OwnedCandidate(db, userId, candidateId) &&
    db.candidates[candidateId].emailAccountId == account && db.candidates[candidateId].externalMessageId == messageId &&
    db.candidates[candidateId].ruleId in db.rules &&
    db.rules[db.candidates[candidateId].ruleId].actionType == actionType
  }

  /** The action type of the rules that ask for this action. */
  ghost function AskedBy(action: MailAction): string {
    match action
    case Delete => "delete_candidate"
    case Spam => "spam_candidate"
  }

  lemma ActionMeaning(actionType: string)
    ensures forall action :: ActionFor(actionType) == Some(action) <==> actionType == AskedBy(action)
    ensures ActionFor(actionType) == None <==> actionType != "delete_candidate" && actionType != "spam_candidate"
  {
    assert "delete_candidate"[0] != "spam_candidate"[0];
  }

  ghost predicate ApprovalExplained(t: Text, s: State, steps: seq<Step>, n: nat, a: Approval) {
    exists i :: 0 <= i < n &&
      FoundAt(t, s, steps, i, a.userId, a.candidateId, a.seen.emailAccountId, a.seen.externalMessageId, a.actionType)
  }

  ghost predicate ActionExplained(t: Text, s: State, steps: seq<Step>, n: nat, e: LogEntry) {
    exists i :: 0 <= i < n &&
      FoundAt(t, s, steps, i, e.userId, e.candidateId, e.account, e.messageId, AskedBy(e.action))
  }

  ghost function Performed(log: seq<LogEntry>): Mailbox {
    set e | e in log :: (e.account, e.messageId, e.action)
  }

  ghost predicate Explained(t: Text, s: State, steps: seq<Step>, n: nat)
    requires n <= |steps|
  {
    var now := At(t, s, steps, n);
    (forall k :: 0 <= k < |now.approvals| ==> ApprovalExplained(t, s, steps, n, now.approvals[k])) &&
    (forall k :: 0 <= k < |now.log| ==> ActionExplained(t, s, steps, n, now.log[k])) &&
    now.mailbox == s.mailbox + Performed(now.log)
  }

  lemma {:induction false} RunExplained(t: Text, s: State, steps: seq<Step>, n: nat)
    requires Initial(s) && n <= |steps|
    ensures Explained(t, s, steps, n)
  {
    if n > 0 {
      RunExplained(t, s, steps, n - 1);
      ApprovalsExplained(t, s, steps, n);
      LogExplained(t, s, steps, n);
    }
  }

  lemma ApprovalsExplained(t: Text, s: State, steps: seq<Step>, n: nat)
    requires 0 < n <= |steps| && Explained(t, s, steps, n - 1)
    ensures var now := At(t, s, steps, n);
            forall k :: 0 <= k < |now.approvals| ==> ApprovalExplained(t, s, steps, n, now.approvals[k])
  {
    hide Apply, FoundAt;
    var before, now := At(t, s, steps, n - 1), At(t, s, steps, n);
    forall k | 0 <= k < |now.approvals|
      ensures ApprovalExplained(t, s, steps, n, now.approvals[k])
    {
      if k < |before.approvals| {
        assert ApprovalExplained(t, s, steps, n - 1, before.approvals[k]);
        SameRequest(t, before, steps[n - 1], k);
      } else {
        NewRequest(t, s, steps, n - 1, k);
      }
    }
  }

  lemma NewRequest(t: Text, s: State, steps: seq<Step>, i: nat, k: nat)
    requires i < |steps| && |At(t, s, steps, i).approvals| <= k < |At(t, s, steps, i + 1).approvals|
    ensures var a := At(t, s, steps, i + 1).approvals[k];
            FoundAt(t, s, steps, i, a.userId, a.candidateId, a.seen.emailAccountId, a.seen.externalMessageId,
                    a.actionType)
  {
  }

  lemma SameRequest(t: Text, s: State, step: Step, k: nat)
    requires k < |s.approvals|
    ensures var after := Apply(t, s, step).approvals;
            |after| >= |s.approvals| && after[k] == s.approvals[k].(phase := after[k].phase)
  {
  }

  lemma LogExplained(t: Text, s: State, steps: seq<Step>, n: nat)
    requires 0 < n <= |steps| && Explained(t, s, steps, n - 1)
    ensures var now := At(t, s, steps, n);
            (forall k :: 0 <= k < |now.log| ==> ActionExplained(t, s, steps, n, now.log[k])) &&
            now.mailbox == s.mailbox + Performed(now.log)
  {
    hide Apply, FoundAt;
    var before, now := At(t, s, steps, n - 1), At(t, s, steps, n);
    forall k | 0 <= k < |before.log|
      ensures ActionExplained(t, s, steps, n, before.log[k])
    {
      assert ActionExplained(t, s, steps, n - 1, before.log[k]);
    }
    LogGrowth(t, before, steps[n - 1]);
    if now.log != before.log {
      var k :| 0 <= k < |before.approvals| && LogsActionOf(before, now, before.approvals[k]);
      assert ApprovalExplained(t, s, steps, n - 1, before.approvals[k]);
      var e := now.log[|before.log|];
      ActionMeaning(before.approvals[k].actionType);
      assert Performed(now.log) == Performed(before.log) + {(e.account, e.messageId, e.action)};
    }
  }

  /** The step performed, and logged, the action this approval asks for. */
  ghost predicate LogsActionOf(before: State, now: State, a: Approval) {
    ActionFor(a.actionType).Some? &&
    var e := LogEntry(a.userId, a.candidateId, a.seen.emailAccountId, a.seen.externalMessageId,
                      ActionFor(a.actionType).value);
    now.log == before.log + [e] && now.mailbox == before.mailbox + {(e.account, e.messageId, e.action)}
  }

  lemma LogGrowth(t: Text, s: State, step: Step)
    ensures var after := Apply(t, s, step);
            (after.log == s.log && after.mailbox == s.mailbox) ||
            exists k :: 0 <= k < |s.approvals| && LogsActionOf(s, after, s.approvals[k])
  {
    if step.ApproveActs? && step.approval < |s.approvals| {
      var after := Apply(t, s, step);
      assert after.log == s.log || LogsActionOf(s, after, s.approvals[step.approval]);
    }
  }

  /** Mailbox safety over every run: every action on the mailbox goes back to an approve request of
      the owning user on a candidate whose rule asked for that action when the request read it, and
      the mailbox differs from the initial one by exactly the logged actions. */
  lemma {:induction false} MailboxSafety(t: Text, s: State, steps: seq<Step>, n: nat, k: nat)
    requires Initial(s) && n <= |steps| && k < |At(t, s, steps, n).log|
    ensures ActionExplained(t, s, steps, n, At(t, s, steps, n).log[k])
    ensures At(t, s, steps, n).mailbox == s.mailbox + Performed(At(t, s, steps, n).log)
  {
    RunExplained(t, s, steps, n);
  }

  predicate IsScanStep(step: Step) {
    step.StartScan? || step.ScanReadsRules? || step.ScanListsMessages? || step.ScanInserts?
  }

  /** Only the provider call of an approval in flight touches the mailbox; scans never do. */
  lemma OnlyApprovalsTouchMailbox(t: Text, s: State, step: Step)
    ensures IsScanStep(step) ==> Apply(t, s, step).mailbox == s.mailbox && Apply(t, s, step).log == s.log
    ensures Apply(t, s, step).mailbox != s.mailbox ==>
              step.ApproveActs? && !step.outcome.FailsBefore? && step.approval < |s.approvals| &&
              s.approvals[step.approval].phase.Found? && ActionFor(s.approvals[step.approval].actionType).Some?
  {
  }

  ghost predicate AlwaysImportant(t: Text, s: State, steps: seq<Step>, n: nat, account: Id, messageId: string)
    requires n <= |steps|
  {
    forall i, id :: 0 <= i < n && id in At(t, s, steps, i).db.candidates ==>
      var db := At(t, s, steps, i).db;
      db.candidates[id].emailAccountId == account && db.candidates[id].externalMessageId == messageId &&
      db.candidates[id].ruleId in db.rules ==>
        db.rules[db.candidates[id].ruleId].actionType == "important"
  }

  /** A message that is only ever queued by `important` rules is never touched in the mailbox. */
  lemma {:induction false} ImportantNeverTouched(t: Text, s: State, steps: seq<Step>, n: nat, account: Id,
      messageId: string)
    requires Initial(s) && n <= |steps| && AlwaysImportant(t, s, steps, n, account, messageId)
    ensures forall e :: e in At(t, s, steps, n).log ==> !(e.account == account && e.messageId == messageId)
    ensures forall action :: (account, messageId, action) in At(t, s, steps, n).mailbox ==>
              (account, messageId, action) in s.mailbox
  {
    RunExplained(t, s, steps, n);
    var log := At(t, s, steps, n).log;
    forall e | e in log
      ensures !(e.account == account && e.messageId == messageId)
    {
      var k :| 0 <= k < |log| && log[k] == e;
      assert ActionExplained(t, s, steps, n, e);
      var i :| 0 <= i < n &&
        FoundAt(t, s, steps, i, e.userId, e.candidateId, e.account, e.messageId, AskedBy(e.action));
      assert AskedBy(e.action)[0] != "important"[0];
    }
  }

  /** An approval only comes past its action by performing it. */
  lemma ActedStep(t: Text, s: State, step: Step, k: nat)
    requires k < |Apply(t, s, step).approvals|
    ensures var after := Apply(t, s, step);
            var a := after.approvals[k];
            s.log <= after.log &&
            (a.phase.Acted? && ActionFor(a.actionType).Some? ==>
               (k < |s.approvals| && s.approvals[k] == a) ||
               LogEntry(a.userId, a.candidateId, a.seen.emailAccountId, a.seen.externalMessageId,
                        ActionFor(a.actionType).value) in after.log)
  {
  }

  /** In every reachable state an approval that reached its database update has its action logged. */
  lemma {:induction false} UpdatesFollowActions(t: Text, s: State, steps: seq<Step>, n: nat, k: nat)
    requires Initial(s) && n <= |steps| && k < |At(t, s, steps, n).approvals|
    ensures var now := At(t, s, steps, n);
            var a := now.approvals[k];
            a.phase.Acted? && ActionFor(a.actionType).Some? ==>
              LogEntry(a.userId, a.candidateId, a.seen.emailAccountId, a.seen.externalMessageId,
                       ActionFor(a.actionType).value) in now.log
  {
    hide Apply;
    if n > 0 {
      var before := At(t, s, steps, n - 1);
      if k < |before.approvals| {
        UpdatesFollowActions(t, s, steps, n - 1, k);
      }
      ActedStep(t, before, steps[n - 1], k);
    }
  }

  // ---------------------------------------------------------------------------------
  // Approved rows and the provider
  // ---------------------------------------------------------------------------------

  function EntryOf(a: Approval): LogEntry
    requires ActionFor(a.actionType).Some?
  {
    LogEntry(a.userId, a.candidateId, a.seen.emailAccountId, a.seen.externalMessageId, ActionFor(a.actionType).value)
  }

  /** The provider call of this approval asks for nothing, or succeeds. */
  predicate CallSucceeds(a: Approval, outcome: ProviderOutcome) {
    (a.actionType != "delete_candidate" && a.actionType != "spam_candidate") ||
    (a.providerType == "gmail" && outcome.Succeeds?)
  }

  /** Step i is the successful provider call of approval k for this candidate. */
  ghost predicate ActedAt(t: Text, s: State, steps: seq<Step>, i: nat, k: nat, id: Id) {
    i < |steps| && steps[i].ApproveActs? && steps[i].approval == k &&
    var before := At(t, s, steps, i);
    k < |before.approvals| && before.approvals[k].candidateId == id && before.approvals[k].phase.Found? &&
    CallSucceeds(before.approvals[k], steps[i].outcome) &&
    (ActionFor(before.approvals[k].actionType).Some? ==> EntryOf(before.approvals[k]) in At(t, s, steps, i + 1).log)
  }

  ghost predicate ActedBefore(t: Text, s: State, steps: seq<Step>, n: nat, id: Id) {
    exists i, k :: 0 <= i < n && ActedAt(t, s, steps, i, k, id)
  }

  /** An approval becomes Acted only by its own successful provider call. */
  lemma ActedByCall(t: Text, s: State, step: Step, k: nat)
    requires k < |Apply(t, s, step).approvals| && Apply(t, s, step).approvals[k].phase.Acted?
    ensures k < |s.approvals| && s.approvals[k].candidateId == Apply(t, s, step).approvals[k].candidateId
    ensures s.approvals[k].phase.Acted? ||
            (step.ApproveActs? && step.approval == k && s.approvals[k].phase.Found? &&
             CallSucceeds(s.approvals[k], step.outcome) &&
             (ActionFor(s.approvals[k].actionType).Some? ==> EntryOf(s.approvals[k]) in Apply(t, s, step).log))
  {
    if step.ApproveActs? && step.approval == k {
      ActedInCall(s, k, step.outcome);
    } else {
      ActedElsewhere(t, s, step, k);
    }
    hide Act, CallSucceeds;
  }

  lemma ActedInCall(s: State, k: nat, outcome: ProviderOutcome)
    requires k < |s.approvals| && Act(s, k, outcome).approvals[k].phase.Acted?
    ensures s.approvals[k].candidateId == Act(s, k, outcome).approvals[k].candidateId
    ensures s.approvals[k].phase.Acted? ||
            (s.approvals[k].phase.Found? && CallSucceeds(s.approvals[k], outcome) &&
             (ActionFor(s.approvals[k].actionType).Some? ==> EntryOf(s.approvals[k]) in Act(s, k, outcome).log))
  {
    ActionMeaning(s.approvals[k].actionType);
    hide ActionFor;
  }

  lemma ActedElsewhere(t: Text, s: State, step: Step, k: nat)
    requires k < |Apply(t, s, step).approvals| && Apply(t, s, step).approvals[k].phase.Acted?
    requires !(step.ApproveActs? && step.approval == k)
    ensures k < |s.approvals| && s.approvals[k] == Apply(t, s, step).approvals[k]
  {
    hide ActionFor;
  }

  lemma {:induction false} ActedHasCall(t: Text, s: State, steps: seq<Step>, n: nat, k: nat)
    requires Initial(s) && n <= |steps| && k < |At(t, s, steps, n).approvals| &&
             At(t, s, steps, n).approvals[k].phase.Acted?
    ensures ActedBefore(t, s, steps, n, At(t, s, steps, n).approvals[k].candidateId)
  {
    hide Apply, CallSucceeds;
    if n > 0 {
      var before, id := At(t, s, steps, n - 1), At(t, s, steps, n).approvals[k].candidateId;
      ActedByCall(t, before, steps[n - 1], k);
      if before.approvals[k].phase.Acted? {
        ActedHasCall(t, s, steps, n - 1, k);
        var i, j :| 0 <= i < n - 1 && ActedAt(t, s, steps, i, j, id);
        assert 0 <= i < n && ActedAt(t, s, steps, i, j, id);
      } else {
        assert ActedAt(t, s, steps, n - 1, k, id);
      }
    }
  }

  lemma EndedStays(t: Text, s: State, step: Step, k: nat)
    requires k < |s.approvals| && s.approvals[k].phase.Ended?
    ensures k < |Apply(t, s, step).approvals| && Apply(t, s, step).approvals[k] == s.approvals[k]
  {
  }

  lemma FailedCallEnds(t: Text, s: State, k: nat, outcome: ProviderOutcome)
    requires k < |s.approvals| && s.approvals[k].phase.Found? && !CallSucceeds(s.approvals[k], outcome)
    ensures var after := Apply(t, s, ApproveActs(k, outcome));
            after.db == s.db && |after.approvals| == |s.approvals| && after.approvals[k].phase.Ended?
  {
    ActionMeaning(s.approvals[k].actionType);
  }

  lemma EndedChangesNothing(t: Text, s: State, k: nat, now: int)
    requires k < |s.approvals| && s.approvals[k].phase.Ended?
    ensures Apply(t, s, ApproveUpdates(k, now)) == s
  {
  }

  /** A failed provider call changes no row, and its approval never changes one at any later step of
      the run. */
  lemma {:induction false} ProviderFailureChangesNoRow(t: Text, s: State, steps: seq<Step>, i: nat, n: nat, k: nat)
    requires i < n <= |steps| && k < |At(t, s, steps, i).approvals| && steps[i].ApproveActs? && steps[i].approval == k
    requires At(t, s, steps, i).approvals[k].phase.Found?
    requires !CallSucceeds(At(t, s, steps, i).approvals[k], steps[i].outcome)
    ensures At(t, s, steps, i + 1).db == At(t, s, steps, i).db
    ensures k < |At(t, s, steps, n).approvals| && At(t, s, steps, n).approvals[k].phase.Ended?
    ensures forall now :: Apply(t, At(t, s, steps, n), ApproveUpdates(k, now)) == At(t, s, steps, n)
    decreases n
  {
    hide Apply, CallSucceeds;
    FailedCallEnds(t, At(t, s, steps, i), k, steps[i].outcome);
    if n > i + 1 {
      ProviderFailureChangesNoRow(t, s, steps, i, n - 1, k);
      EndedStays(t, At(t, s, steps, n - 1), steps[n - 1], k);
    }
    forall now
      ensures Apply(t, At(t, s, steps, n), ApproveUpdates(k, now)) == At(t, s, steps, n)
    {
      EndedChangesNothing(t, At(t, s, steps, n), k, now);
    }
  }

  /** A row becomes APPROVED only by the update of an approval that is past its provider call. */
  lemma ApprovedByUpdate(t: Text, s: State, step: Step, id: Id)
    requires id in Apply(t, s, step).db.candidates && Apply(t, s, step).db.candidates[id].status.APPROVED?
    ensures (id in s.db.candidates && s.db.candidates[id].status.APPROVED?) ||
            (step.ApproveUpdates? && step.approval < |s.approvals| && s.approvals[step.approval].phase.Acted? &&
             s.approvals[step.approval].candidateId == id)
  {
  }

  /** A provider failure leaves the status unchanged, over every run: a row that is APPROVED and was
      not so initially has an approval whose provider call succeeded and was logged, or whose rule asked
      for no mailbox action. */
  lemma {:induction false} ApprovedRowsActed(t: Text, s: State, steps: seq<Step>, n: nat, id: Id)
    requires Initial(s) && n <= |steps|
    requires id in At(t, s, steps, n).db.candidates && At(t, s, steps, n).db.candidates[id].status.APPROVED?
    ensures (id in s.db.candidates && s.db.candidates[id].status.APPROVED?) || ActedBefore(t, s, steps, n, id)
  {
    hide Apply, ActedAt;
    if n > 0 {
      var before, step := At(t, s, steps, n - 1), steps[n - 1];
      ApprovedByUpdate(t, before, step, id);
      if id in before.db.candidates && before.db.candidates[id].status.APPROVED? {
        ApprovedRowsActed(t, s, steps, n - 1, id);
      } else {
        ActedHasCall(t, s, steps, n - 1, step.approval);
      }
    }
  }

  // ---------------------------------------------------------------------------------
  // Retrying an approval
  // ---------------------------------------------------------------------------------

  /** An approve request that acts on the mailbox and is then lost. */
  ghost function Interrupted(t: Text, s: State, userId: Id, id: Id): State {
    Apply(t, Apply(t, s, ApproveFinds(userId, id)), ApproveActs(|s.approvals|, Succeeds))
  }

  ghost function CleanApprove(t: Text, s: State, userId: Id, id: Id, now: int): State {
    Apply(t, Interrupted(t, s, userId, id), ApproveUpdates(|s.approvals|, now))
  }

  ghost function InterruptedTimes(t: Text, s: State, userId: Id, id: Id, times: nat): State {
    if times == 0 then s else Interrupted(t, InterruptedTimes(t, s, userId, id, times - 1), userId, id)
  }

  /** Retrying after any number of interruptions ends with the rows and the mailbox of one clean
      approve. */
  lemma {:induction false} RetryIsIdempotent(t: Text, s: State, userId: Id, id: Id, now: int, times: nat)
    ensures var retried, clean := CleanApprove(t, InterruptedTimes(t, s, userId, id, times), userId, id, now),
        CleanApprove(t, s, userId, id, now);
            retried.db == clean.db && retried.mailbox == clean.mailbox
  {
    var lost := InterruptedTimes(t, s, userId, id, times);
    InterruptionsAddOneAction(t, s, userId, id, times);
    ApproveEffect(t, lost, userId, id, now);
    ApproveEffect(t, s, userId, id, now);
  }

  ghost function MailboxEffect(db: Db, userId: Id, id: Id): Mailbox {
    var found := FindForApproval(db, userId, id);
    if found.Some? && ActionFor(found.value.actionType).Some? && found.value.providerType == GMAIL
    then {(found.value.seen.emailAccountId, found.value.seen.externalMessageId,
           ActionFor(found.value.actionType).value)}
    else {}
  }

  ghost predicate Completes(db: Db, userId: Id, id: Id) {
    var found := FindForApproval(db, userId, id);
    found.Some? && (ActionFor(found.value.actionType).None? || found.value.providerType == GMAIL)
  }

  lemma ApproveEffect(t: Text, s: State, userId: Id, id: Id, now: int)
    ensures Interrupted(t, s, userId, id).db == s.db
    ensures Interrupted(t, s, userId, id).mailbox == s.mailbox + MailboxEffect(s.db, userId, id)
    ensures CleanApprove(t, s, userId, id, now).mailbox == s.mailbox + MailboxEffect(s.db, userId, id)
    ensures CleanApprove(t, s, userId, id, now).db ==
              if Completes(s.db, userId, id) then SetStatus(s.db, id, APPROVED, now).value else s.db
  {
    var found := Apply(t, s, ApproveFinds(userId, id));
    if FindForApproval(s.db, userId, id).Some? {
      assert found.approvals[|s.approvals|] == FindForApproval(s.db, userId, id).value;
    }
  }

  /** The candidate is the user's, and the account can be acted on if its rule asks for an action. */
  ghost predicate Approvable(db: Db, userId: Id, id: Id) {
    OwnedCandidate(db, userId, id) && db.candidates[id].ruleId in db.rules &&
    (db.rules[db.candidates[id].ruleId].actionType == "delete_candidate" ||
     db.rules[db.candidates[id].ruleId].actionType == "spam_candidate" ==>
       db.accounts[db.candidates[id].emailAccountId].providerType == "gmail")
  }

  /** What the rule of the candidate asks for: deletion, the spam folder, or nothing. */
  ghost function Asked(db: Db, id: Id): Mailbox
    requires id in db.candidates && db.candidates[id].ruleId in db.rules
  {
    var c, actionType := db.candidates[id], db.rules[db.candidates[id].ruleId].actionType;
    if actionType == "delete_candidate" then {(c.emailAccountId, c.externalMessageId, Delete)}
    else if actionType == "spam_candidate" then {(c.emailAccountId, c.externalMessageId, Spam)}
    else {}
  }

  /** A completed approval does to the mailbox what the rule asks for and nothing else, and marks the
      candidate approved at the given time; one that cannot complete does neither. */
  lemma ApproveMeaning(t: Text, s: State, userId: Id, id: Id, now: int)
    ensures var after := CleanApprove(t, s, userId, id, now);
            (Approvable(s.db, userId, id) ==>
               after.mailbox == s.mailbox + Asked(s.db, id) && Settled(s.db, after.db, id, APPROVED, now)) &&
            (!Approvable(s.db, userId, id) ==> after.mailbox == s.mailbox && after.db == s.db)
  {
    ApproveEffect(t, s, userId, id, now);
    EffectMeaning(s.db, userId, id);
    if id in s.db.candidates {
      StatusMeaning(s.db, id, APPROVED, now);
    }
    hide Settled, Approvable, Completes, MailboxEffect, CleanApprove, SetStatus;
  }

  lemma EffectMeaning(db: Db, userId: Id, id: Id)
    ensures Completes(db, userId, id) <==> Approvable(db, userId, id)
    ensures Approvable(db, userId, id) ==> MailboxEffect(db, userId, id) == Asked(db, id)
    ensures !Approvable(db, userId, id) ==> MailboxEffect(db, userId, id) == {}
    ensures Approvable(db, userId, id) ==> id in db.candidates && db.candidates[id].ruleId in db.rules
  {
    if OwnedCandidate(db, userId, id) && db.candidates[id].ruleId in db.rules {
      ActionMeaning(db.rules[db.candidates[id].ruleId].actionType);
    }
    hide ActionFor;
  }

  lemma {:induction false} InterruptionsAddOneAction(t: Text, s: State, userId: Id, id: Id, times: nat)
    ensures var lost := InterruptedTimes(t, s, userId, id, times);
            lost.db == s.db &&
            lost.mailbox == (if times == 0 then s.mailbox else s.mailbox + MailboxEffect(s.db, userId, id))
  {
    if times > 0 {
      InterruptionsAddOneAction(t, s, userId, id, times - 1);
      ApproveEffect(t, InterruptedTimes(t, s, userId, id, times - 1), userId, id, 0);
    }
  }

  // ---------------------------------------------------------------------------------
  // A scan that nothing interleaves with
  // ---------------------------------------------------------------------------------

  function Later(faultAfter: Option<nat>): Option<nat> {
    if faultAfter.Some? && faultAfter.value > 0 then Some(faultAfter.value - 1) else None
  }

  /** k insert steps of scan n in a row; the one at `faultAfter` meets a database failure. */
  ghost function InsertSteps(t: Text, s: State, n: nat, faultAfter: Option<nat>, k: nat): State
    decreases k
  {
    if k == 0 then s else
    InsertSteps(t, Apply(t, s, ScanInserts(n, faultAfter == Some(0))), n, Later(faultAfter), k - 1)
  }

  lemma {:induction false} IdleInserts(t: Text, s: State, n: nat, faultAfter: Option<nat>, k: nat)
    requires n < |s.scans| && s.scans[n].phase.Idle?
    ensures InsertSteps(t, s, n, faultAfter, k) == s
    decreases k
  {
    if k > 0 {
      assert s.scans[n := s.scans[n]] == s.scans;
      assert Apply(t, s, ScanInserts(n, faultAfter == Some(0))) == s;
      IdleInserts(t, s, n, Later(faultAfter), k - 1);
    }
  }

  /** The insert step that ends the account: no pair is left, or the database fails. */
  lemma InsertStepEnds(t: Text, s: State, n: nat, fails: bool)
    requires n < |s.scans| && s.scans[n].phase.Inserting?
    requires var phase := s.scans[n].phase;
             phase.pairs == [] || fails ||
             InsertCandidate(s.db, phase.pairs[0].ruleId, phase.account, phase.pairs[0].message) ==
               Err(ForeignKeyViolation)
    ensures var scan := s.scans[n];
            Apply(t, s, ScanInserts(n, fails)) ==
              s.(scans := s.scans[n := scan.(phase := Idle,
                                             failed := scan.failed + if scan.phase.pairs == [] then 0 else 1)])
  {
  }

  /** The insert step that goes on to the next pair, with a new row or past a duplicate. */
  lemma InsertStepGoesOn(t: Text, s: State, n: nat)
    requires n < |s.scans| && s.scans[n].phase.Inserting? && s.scans[n].phase.pairs != []
    requires var phase := s.scans[n].phase;
             InsertCandidate(s.db, phase.pairs[0].ruleId, phase.account,
                             phase.pairs[0].message) != Err(ForeignKeyViolation)
    ensures var scan := s.scans[n];
            var r := InsertCandidate(s.db, scan.phase.pairs[0].ruleId, scan.phase.account, scan.phase.pairs[0].message);
            Apply(t, s, ScanInserts(n, false)) ==
              s.(db := if r.Ok? then r.value else s.db,
                 scans := s.scans[n := scan.(phase := Inserting(scan.phase.account, scan.phase.pairs[1..]),
                                             created := scan.created + if r.Ok? then 1 else 0)])
  {
  }

  ghost function Finished(scan: Scan, r: Inserted): Scan {
    scan.(phase := Idle, created := scan.created + r.created, failed := scan.failed + if r.completed then 0 else 1)
  }

  lemma {:induction false} InsertStepsRefineLoop(t: Text, s: State, n: nat, faultAfter: Option<nat>)
    requires n < |s.scans| && s.scans[n].phase.Inserting?
    ensures var scan := s.scans[n];
            var r := InsertPairs(s.db, scan.phase.account, scan.phase.pairs, faultAfter);
            InsertSteps(t, s, n, faultAfter, |scan.phase.pairs| + 1) ==
              s.(db := r.db, scans := s.scans[n := Finished(scan, r)])
    decreases |s.scans[n].phase.pairs|
  {
    hide Apply, InsertCandidate;
    var scan, fails := s.scans[n], faultAfter == Some(0);
    var pairs := scan.phase.pairs;
    var next := Apply(t, s, ScanInserts(n, fails));
    if pairs == [] || fails ||
       InsertCandidate(s.db, pairs[0].ruleId, scan.phase.account, pairs[0].message) == Err(ForeignKeyViolation)
    {
      InsertStepEnds(t, s, n, fails);
      IdleInserts(t, next, n, Later(faultAfter), |pairs|);
    } else {
      InsertStepGoesOn(t, s, n);
      InsertStepsRefineLoop(t, next, n, Later(faultAfter));
    }
  }

  /** One account of scan n, all its steps in a row. */
  ghost function AccountSteps(t: Text, s: State, n: nat, run: AccountRun): State {
    var read := Apply(t, s, ScanReadsRules(n, run.ruleOrder, run.queryFails));
    var listed := Apply(t, read, ScanListsMessages(n, run.listing));
    if n < |listed.scans| && listed.scans[n].phase.Inserting?
    then InsertSteps(t, listed, n, run.faultAfter, |listed.scans[n].phase.pairs| + 1)
    else listed
  }

  /** Without interleaving the steps compute exactly what the loops compute for the account. */
  lemma AccountStepsRefineLoop(t: Text, s: State, n: nat, run: AccountRun)
    requires n < |s.scans| && s.scans[n].phase.Idle? && s.scans[n].todo != []
    requires Enumerates(run.ruleOrder, ActiveRules(s.db, s.scans[n].todo[0].id))
    ensures var scan := s.scans[n];
            var r := ScanAccount(t, s.db, scan.todo[0], run);
            AccountSteps(t, s, n, run) ==
              s.(db := r.db, scans := s.scans[n := Scan(scan.todo[1..], Idle, scan.scanned + r.scanned,
                                                        scan.created + r.created, scan.failed + r.failed)])
  {
    var read := Apply(t, s, ScanReadsRules(n, run.ruleOrder, run.queryFails));
    var listed := Apply(t, read, ScanListsMessages(n, run.listing));
    if listed.scans[n].phase.Inserting? {
      InsertStepsRefineLoop(t, listed, n, run.faultAfter);
    }
  }
}
