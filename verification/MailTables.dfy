/**
 The mail tables as the schema defines them: unique keys, foreign keys and cascades.
 Every function here is one atomic database call, or the query in front of one.
 */
module MailTables {
  import opened Wrappers
  import opened RuleMatcher

  type Id = nat

  const GMAIL := "gmail"
  const DELETE_CANDIDATE := "delete_candidate"
  const SPAM_CANDIDATE := "spam_candidate"
  const IMPORTANT := "important"

  datatype EmailAccount = EmailAccount(userId: Id, providerType: string, displayName: string, isActive: bool)

  datatype EmailRule = EmailRule(
    emailAccountId: Id,
    logicalOperator: LogicalOperator,
    actionType: string,
    isActive: bool,
    conditions: seq<Condition>)

  datatype Status = PENDING | APPROVED | EXCLUDED | PROCESSED

  datatype Candidate = Candidate(
    ruleId: Id,
    emailAccountId: Id,
    externalMessageId: string,
    sender: string,
    subject: string,
    receivedAt: int,
    status: Status,
    processedAt: Option<int>)

  /** `nextId` stands for the fresh identifiers the database hands out. */
  datatype Db = Db(
    accounts: map<Id, EmailAccount>,
    rules: map<Id, EmailRule>,
    candidates: map<Id, Candidate>,
    nextId: Id)

  datatype DbError = UniqueViolation | ForeignKeyViolation
  datatype ServiceError = NotFound | UnsupportedProvider | ProviderFailed

  // ---------------------------------------------------------------------------------
  // Keys and consistency
  // ---------------------------------------------------------------------------------

  type Key = (Id, string)

  function KeyOf(c: Candidate): Key {
    (c.ruleId, c.externalMessageId)
  }

  function Keys(db: Db): set<Key> {
    set id | id in db.candidates :: KeyOf(db.candidates[id])
  }

  ghost predicate KeysUnique(db: Db) {
    forall i, j :: i in db.candidates && j in db.candidates && KeyOf(db.candidates[i]) == KeyOf(db.candidates[j]) ==>
      i == j
  }

  ghost predicate IdsIssued(db: Db) {
    (forall id :: id in db.accounts ==> id < db.nextId) &&
    (forall id :: id in db.rules ==> id < db.nextId) &&
    (forall id :: id in db.candidates ==> id < db.nextId)
  }

  /** The foreign keys hold and the account copied into a candidate is its rule's account. */
  ghost predicate CandidateConsistent(db: Db, c: Candidate) {
    c.ruleId in db.rules && c.emailAccountId in db.accounts &&
    db.rules[c.ruleId].emailAccountId == c.emailAccountId &&
    (c.processedAt.None? <==> c.status.PENDING?)
  }

  ghost predicate Consistent(db: Db) {
    IdsIssued(db) && KeysUnique(db) &&
    (forall id :: id in db.rules ==> db.rules[id].emailAccountId in db.accounts) &&
    (forall id :: id in db.candidates ==> CandidateConsistent(db, db.candidates[id]))
  }

  lemma KeysOfAddedRow(db: Db, id: Id, row: Candidate)
    requires id !in db.candidates
    ensures Keys(db.(candidates := db.candidates[id := row])) == Keys(db) + {KeyOf(row)}
  {
    var after := db.(candidates := db.candidates[id := row]);
    assert KeyOf(after.candidates[id]) == KeyOf(row);
    forall k | k in Keys(db)
      ensures k in Keys(after)
    {
      var i :| i in db.candidates && KeyOf(db.candidates[i]) == k;
      assert i in after.candidates && KeyOf(after.candidates[i]) == k;
    }
  }

  lemma RowsPerKey(db: Db)
    requires KeysUnique(db)
    ensures |Keys(db)| == |db.candidates|
  {
    DistinctKeysCount(db.candidates, db.candidates.Keys);
    assert Keys(db) == KeysAt(db.candidates, db.candidates.Keys);
  }

  ghost function KeysAt(rows: map<Id, Candidate>, ids: set<Id>): set<Key>
    requires ids <= rows.Keys
  {
    set id | id in ids :: KeyOf(rows[id])
  }

  lemma {:induction false} DistinctKeysCount(rows: map<Id, Candidate>, ids: set<Id>)
    requires ids <= rows.Keys
    requires forall i, j :: i in ids && j in ids && KeyOf(rows[i]) == KeyOf(rows[j]) ==> i == j
    ensures |KeysAt(rows, ids)| == |ids|
    decreases |ids|
  {
    if ids != {} {
      var id :| id in ids;
      var rest := ids - {id};
      DistinctKeysCount(rows, rest);
      assert KeysAt(rows, ids) == KeysAt(rows, rest) + {KeyOf(rows[id])};
      assert KeyOf(rows[id]) !in KeysAt(rows, rest);
    }
  }

  // ---------------------------------------------------------------------------------
  // Candidates
  // ---------------------------------------------------------------------------------

  function PendingRow(ruleId: Id, accountId: Id, m: Message): Candidate {
    Candidate(ruleId, accountId, m.externalMessageId, m.sender, m.subject, m.receivedAt, PENDING, None)
  }

  /** The row shows this message: its id, sender, subject and date. */
  ghost predicate Shows(row: Candidate, m: Message) {
    row.externalMessageId == m.externalMessageId && row.sender == m.sender && row.subject == m.subject &&
    row.receivedAt == m.receivedAt
  }

  /** The row waits for review, for this rule, account and message. */
  ghost predicate PendingFor(row: Candidate, ruleId: Id, accountId: Id, m: Message) {
    row.ruleId == ruleId && row.emailAccountId == accountId && Shows(row, m) &&
    row.status == PENDING && row.processedAt == None
  }

  function InsertCandidate(db: Db, ruleId: Id, accountId: Id, m: Message): Result<Db, DbError> {
    if ruleId !in db.rules || accountId !in db.accounts then Err(ForeignKeyViolation)
    else if (ruleId, m.externalMessageId) in Keys(db) then Err(UniqueViolation)
    else Ok(db.(candidates := db.candidates[db.nextId := PendingRow(ruleId, accountId, m)], nextId := db.nextId + 1))
  }

  lemma InsertKeepsConsistent(db: Db, ruleId: Id, accountId: Id, m: Message)
    requires Consistent(db)
    requires ruleId in db.rules ==> db.rules[ruleId].emailAccountId == accountId
    requires InsertCandidate(db, ruleId, accountId, m).Ok?
    ensures var after := InsertCandidate(db, ruleId, accountId, m).value;
            Consistent(after) &&
            Keys(after) == Keys(db) + {(ruleId, m.externalMessageId)} &&
            |after.candidates| == |db.candidates| + 1
  {
    var row := PendingRow(ruleId, accountId, m);
    KeysOfAddedRow(db, db.nextId, row);
    UniqueAfterAdding(db, db.nextId, row);
    var after := InsertCandidate(db, ruleId, accountId, m).value;
    assert Keys(after) == Keys(db.(candidates := db.candidates[db.nextId := row]));
    assert KeysUnique(after);
    forall i | i in after.candidates
      ensures CandidateConsistent(after, after.candidates[i])
    {
      assert i in db.candidates ==> CandidateConsistent(db, db.candidates[i]);
    }
    hide KeysUnique, Keys, CandidateConsistent;
  }

  lemma UniqueAfterAdding(db: Db, id: Id, row: Candidate)
    requires KeysUnique(db) && id !in db.candidates && KeyOf(row) !in Keys(db)
    ensures KeysUnique(db.(candidates := db.candidates[id := row]))
  {
    assert forall i :: i in db.candidates ==> KeyOf(db.candidates[i]) in Keys(db);
  }

  /** `findOwned`: the candidate, if its account belongs to the user. */
  function FindOwned(db: Db, userId: Id, id: Id): Result<Candidate, ServiceError> {
    if id in db.candidates && db.candidates[id].emailAccountId in db.accounts &&
       db.accounts[db.candidates[id].emailAccountId].userId == userId
    then Ok(db.candidates[id])
    else Err(NotFound)
  }

  /** An update by primary key; it fails when the row is gone. */
  function SetStatus(db: Db, id: Id, status: Status, now: int): Result<Db, ServiceError> {
    if id in db.candidates
    then Ok(db.(candidates := db.candidates[id := db.candidates[id].(status := status, processedAt := Some(now))]))
    else Err(NotFound)
  }

  lemma SetStatusKeepsConsistent(db: Db, id: Id, status: Status, now: int)
    requires Consistent(db) && !status.PENDING? && SetStatus(db, id, status, now).Ok?
    ensures var after := SetStatus(db, id, status, now).value;
            Consistent(after) && Keys(after) == Keys(db) && after.candidates.Keys == db.candidates.Keys
  {
    var after := SetStatus(db, id, status, now).value;
    assert forall i :: i in db.candidates ==> KeyOf(after.candidates[i]) == KeyOf(db.candidates[i]);
    forall k
      ensures k in Keys(after) <==> k in Keys(db)
    {
      if k in Keys(db) {
        var i :| i in db.candidates && KeyOf(db.candidates[i]) == k;
        assert KeyOf(after.candidates[i]) == k;
      }
    }
  }

  /** This row, and nothing else, has the new status and the time it was settled. */
  ghost predicate Settled(before: Db, after: Db, id: Id, status: Status, now: int) {
    id in before.candidates && after == before.(candidates := after.candidates) &&
    after.candidates.Keys == before.candidates.Keys &&
    after.candidates[id] == before.candidates[id].(status := status, processedAt := Some(now)) &&
    forall other :: other in before.candidates && other != id ==> after.candidates[other] == before.candidates[other]
  }

  lemma StatusMeaning(db: Db, id: Id, status: Status, now: int)
    ensures var r := SetStatus(db, id, status, now);
            (r.Ok? <==> id in db.candidates) && (r.Ok? ==> Settled(db, r.value, id, status, now))
  {
  }

  /** The candidate exists and its account is the user's. */
  ghost predicate OwnedCandidate(db: Db, userId: Id, id: Id) {
    id in db.candidates && db.candidates[id].emailAccountId in db.accounts &&
    db.accounts[db.candidates[id].emailAccountId].userId == userId
  }

  lemma FoundMeaning(db: Db, userId: Id, id: Id)
    ensures FindOwned(db, userId, id) == if OwnedCandidate(db, userId, id) then Ok(db.candidates[id]) else Err(NotFound)
  {
  }

  function Exclude(db: Db, userId: Id, id: Id, now: int): Result<Db, ServiceError> {
    var found := FindOwned(db, userId, id);
    if found.Err? then Err(found.error) else SetStatus(db, id, EXCLUDED, now)
  }

  // ---------------------------------------------------------------------------------
  // Accounts and rules
  // ---------------------------------------------------------------------------------

  function ConnectAccount(db: Db, userId: Id, displayName: string): Db {
    db.(accounts := db.accounts[db.nextId := EmailAccount(userId, GMAIL, displayName, true)], nextId := db.nextId + 1)
  }

  predicate OwnsAccount(db: Db, userId: Id, id: Id) {
    id in db.accounts && db.accounts[id].userId == userId
  }

  predicate OwnsRule(db: Db, userId: Id, id: Id) {
    id in db.rules && OwnsAccount(db, userId, db.rules[id].emailAccountId)
  }

  /** The candidates that deleting these rules, or this account, takes with it. */
  function CandidatesOfRules(db: Db, rules: set<Id>): set<Id> {
    set id | id in db.candidates && db.candidates[id].ruleId in rules
  }

  function CandidatesOfAccount(db: Db, account: Id): set<Id> {
    set id | id in db.candidates && db.candidates[id].emailAccountId == account
  }

  function RulesOfAccount(db: Db, account: Id): set<Id> {
    set id | id in db.rules && db.rules[id].emailAccountId == account
  }

  function DeleteRule(db: Db, id: Id): Db {
    db.(rules := db.rules - {id}, candidates := db.candidates - CandidatesOfRules(db, {id}))
  }

  function DeleteAccount(db: Db, id: Id): Db {
    var rules := RulesOfAccount(db, id);
    db.(accounts := db.accounts - {id},
        rules := db.rules - rules,
        candidates := db.candidates - CandidatesOfRules(db, rules) - CandidatesOfAccount(db, id))
  }

  function Disconnect(db: Db, userId: Id, id: Id): Result<Db, ServiceError> {
    if OwnsAccount(db, userId, id) then Ok(DeleteAccount(db, id)) else Err(NotFound)
  }

  datatype NewRule = NewRule(emailAccountId: Id, logicalOperator: LogicalOperator, actionType: string,
                             conditions: seq<Condition>)

  datatype RulePatch = RulePatch(
    logicalOperator: Option<LogicalOperator>,
    actionType: Option<string>,
    isActive: Option<bool>,
    conditions: Option<seq<Condition>>)

  function CreateRule(db: Db, userId: Id, data: NewRule): Result<Db, ServiceError> {
    if !OwnsAccount(db, userId, data.emailAccountId) then Err(NotFound) else
    var rule := EmailRule(data.emailAccountId, data.logicalOperator, data.actionType, true, data.conditions);
    Ok(db.(rules := db.rules[db.nextId := rule], nextId := db.nextId + 1))
  }

  /** Absent fields stay; an empty action type counts as absent; conditions are replaced as a whole. */
  function Patched(rule: EmailRule, data: RulePatch): EmailRule {
    EmailRule(
      rule.emailAccountId,
      if data.logicalOperator.Some? then data.logicalOperator.value else rule.logicalOperator,
      if data.actionType.Some? && data.actionType.value != "" then data.actionType.value else rule.actionType,
      if data.isActive.Some? then data.isActive.value else rule.isActive,
      if data.conditions.Some? then data.conditions.value else rule.conditions)
  }

  function UpdateRule(db: Db, userId: Id, id: Id, data: RulePatch): Result<Db, ServiceError> {
    if !OwnsRule(db, userId, id) then Err(NotFound)
    else Ok(db.(rules := db.rules[id := Patched(db.rules[id], data)]))
  }

  function RemoveRule(db: Db, userId: Id, id: Id): Result<Db, ServiceError> {
    if !OwnsRule(db, userId, id) then Err(NotFound) else Ok(DeleteRule(db, id))
  }

  lemma ConnectKeepsConsistent(db: Db, userId: Id, displayName: string)
    requires Consistent(db)
    ensures Consistent(ConnectAccount(db, userId, displayName))
  {
  }

  lemma CreateRuleKeepsConsistent(db: Db, userId: Id, data: NewRule)
    requires Consistent(db) && CreateRule(db, userId, data).Ok?
    ensures Consistent(CreateRule(db, userId, data).value)
  {
  }

  lemma UpdateRuleKeepsConsistent(db: Db, userId: Id, id: Id, patch: RulePatch)
    requires Consistent(db) && UpdateRule(db, userId, id, patch).Ok?
    ensures Consistent(UpdateRule(db, userId, id, patch).value)
  {
  }

  lemma DeletesKeepConsistent(db: Db, id: Id)
    requires Consistent(db)
    ensures Consistent(DeleteRule(db, id)) && Consistent(DeleteAccount(db, id))
  {
  }

  /** Under consistency, deleting an account cascades to exactly the candidates that name it. */
  lemma CascadeOfAccount(db: Db, id: Id)
    requires Consistent(db)
    ensures CandidatesOfRules(db, RulesOfAccount(db, id)) == CandidatesOfAccount(db, id)
    ensures DeleteAccount(db, id).candidates == db.candidates - CandidatesOfAccount(db, id)
  {
  }

  /** The ownership test on the copied account agrees with ownership through the rule. */
  lemma OwnershipAgrees(db: Db, userId: Id, id: Id)
    requires Consistent(db) && id in db.candidates
    ensures FindOwned(db, userId, id).Ok? <==> OwnsRule(db, userId, db.candidates[id].ruleId)
  {
  }
}
