/** What the mail services do, field by field, for every table, every scan and every run. */
module MailMeaning {
  import opened Wrappers
  import opened RuleMatcher
  import opened MailTables
  import opened MailScan
  import opened MailSteps

  // ---------------------------------------------------------------------------------
  // Accounts and rules
  // ---------------------------------------------------------------------------------

  /** Connecting adds one active Gmail account of the user under a new id, and changes nothing else. */
  lemma ConnectMeaning(db: Db, userId: Id, displayName: string)
    requires IdsIssued(db)
    ensures var after, id := ConnectAccount(db, userId, displayName), db.nextId;
            id !in db.accounts && after.accounts.Keys == db.accounts.Keys + {id} &&
            after.accounts[id].userId == userId && after.accounts[id].displayName == displayName &&
            after.accounts[id].providerType == "gmail" && after.accounts[id].isActive &&
            (forall a :: a in db.accounts ==> after.accounts[a] == db.accounts[a]) &&
            after.rules == db.rules && after.candidates == db.candidates
  {
  }

  /** Disconnecting is not-found exactly when the account is missing or another user's; otherwise the
      account goes with exactly its rules and its candidates, and everything else stays as it was. */
  lemma DisconnectMeaning(db: Db, userId: Id, id: Id)
    requires Consistent(db)
    ensures var r := Disconnect(db, userId, id);
            (r == Err(NotFound) <==> id !in db.accounts || db.accounts[id].userId != userId) &&
            (r.Err? ==> r.error == NotFound) &&
            (r.Ok? ==>
               (forall a :: a in r.value.accounts <==> a in db.accounts && a != id) &&
               (forall rule :: rule in r.value.rules <==> rule in db.rules && db.rules[rule].emailAccountId != id) &&
               (forall c :: c in r.value.candidates <==> c in db.candidates && db.candidates[c].emailAccountId != id) &&
               RowsUnchanged(db, r.value))
  {
    if OwnsAccount(db, userId, id) {
      CascadeOfAccount(db, id);
    }
    hide Consistent;
  }

  /** The rows that are still there are as they were. */
  ghost predicate RowsUnchanged(before: Db, after: Db) {
    (forall a :: a in after.accounts ==> a in before.accounts && after.accounts[a] == before.accounts[a]) &&
    (forall r :: r in after.rules ==> r in before.rules && after.rules[r] == before.rules[r]) &&
    (forall c :: c in after.candidates ==> c in before.candidates && after.candidates[c] == before.candidates[c])
  }

  ghost predicate RuleOfUser(db: Db, userId: Id, id: Id) {
    id in db.rules && db.rules[id].emailAccountId in db.accounts &&
    db.accounts[db.rules[id].emailAccountId].userId == userId
  }

  /** A rule is created exactly on an account of the user, with the given fields, active, under a new id. */
  lemma CreateRuleMeaning(db: Db, userId: Id, data: NewRule)
    requires IdsIssued(db)
    ensures var r, id := CreateRule(db, userId, data), db.nextId;
            (r.Ok? <==> data.emailAccountId in db.accounts && db.accounts[data.emailAccountId].userId == userId) &&
            (r.Err? ==> r.error == NotFound) &&
            (r.Ok? ==>
               id !in db.rules && r.value.rules.Keys == db.rules.Keys + {id} &&
               r.value.rules[id].emailAccountId == data.emailAccountId &&
               r.value.rules[id].logicalOperator == data.logicalOperator &&
               r.value.rules[id].actionType == data.actionType && r.value.rules[id].isActive &&
               r.value.rules[id].conditions == data.conditions &&
               (forall other :: other in db.rules ==> r.value.rules[other] == db.rules[other]) &&
               r.value.accounts == db.accounts && r.value.candidates == db.candidates)
  {
  }

  /** The given value, or the one from before. */
  ghost predicate Written<T>(given: Option<T>, before: T, after: T) {
    (given.Some? ==> after == given.value) && (given.None? ==> after == before)
  }

  /** A rule is updated exactly when it is the user's: each given field is written and the others stay,
      an empty action type writes nothing, conditions are replaced as a whole, and no other row changes. */
  lemma UpdateRuleMeaning(db: Db, userId: Id, id: Id, data: RulePatch)
    ensures var r := UpdateRule(db, userId, id, data);
            (r.Ok? <==> RuleOfUser(db, userId, id)) && (r.Err? ==> r.error == NotFound) &&
            (r.Ok? ==>
               r.value.rules.Keys == db.rules.Keys && r.value.accounts == db.accounts &&
               r.value.candidates == db.candidates &&
               (forall other :: other in db.rules && other != id ==> r.value.rules[other] == db.rules[other]) &&
               var before, after := db.rules[id], r.value.rules[id];
               after.emailAccountId == before.emailAccountId &&
               Written(data.logicalOperator, before.logicalOperator, after.logicalOperator) &&
               Written(data.isActive, before.isActive, after.isActive) &&
               Written(data.conditions, before.conditions, after.conditions) &&
               Written(if data.actionType == Some("") then None else data.actionType, before.actionType,
                       after.actionType))
  {
  }

  /** A rule is removed exactly when it is the user's, with exactly its candidates. */
  lemma RemoveRuleMeaning(db: Db, userId: Id, id: Id)
    ensures var r := RemoveRule(db, userId, id);
            (r.Ok? <==> RuleOfUser(db, userId, id)) && (r.Err? ==> r.error == NotFound) &&
            (r.Ok? ==>
               r.value.accounts == db.accounts &&
               (forall rule :: rule in r.value.rules <==> rule in db.rules && rule != id) &&
               (forall c :: c in r.value.candidates <==> c in db.candidates && db.candidates[c].ruleId != id) &&
               RowsUnchanged(db, r.value))
  {
  }

  /** Some row is for this rule and this message. */
  ghost predicate Queued(db: Db, ruleId: Id, messageId: string) {
    exists id :: id in db.candidates && db.candidates[id].ruleId == ruleId &&
                 db.candidates[id].externalMessageId == messageId
  }

  /** An insert breaks a foreign key exactly when the rule or the account is gone, the unique key exactly
      when the rule has a row for the message; otherwise it adds one pending row for them. */
  lemma InsertMeaning(db: Db, ruleId: Id, accountId: Id, m: Message)
    requires IdsIssued(db)
    ensures var r := InsertCandidate(db, ruleId, accountId, m);
            (r == Err(ForeignKeyViolation) <==> ruleId !in db.rules || accountId !in db.accounts) &&
            (r == Err(UniqueViolation) <==>
             ruleId in db.rules && accountId in db.accounts && Queued(db, ruleId, m.externalMessageId)) &&
            (r.Ok? ==>
               r.value.accounts == db.accounts && r.value.rules == db.rules && db.nextId !in db.candidates &&
               r.value.candidates.Keys == db.candidates.Keys + {db.nextId} &&
               PendingFor(r.value.candidates[db.nextId], ruleId, accountId, m) && OldRowsKept(db, r.value))
  {
    KeyQueued(db, ruleId, m.externalMessageId);
  }

  lemma KeyQueued(db: Db, ruleId: Id, messageId: string)
    ensures (ruleId, messageId) in Keys(db) <==> Queued(db, ruleId, messageId)
  {
    if (ruleId, messageId) in Keys(db) {
      var id :| id in db.candidates && KeyOf(db.candidates[id]) == (ruleId, messageId);
    }
    if id :| id in db.candidates && db.candidates[id].ruleId == ruleId &&
             db.candidates[id].externalMessageId == messageId
    {
      assert KeyOf(db.candidates[id]) == (ruleId, messageId);
    }
  }

  // ---------------------------------------------------------------------------------
  // One scan
  // ---------------------------------------------------------------------------------

  ghost predicate Active(db: Db, ruleId: Id, account: Id) {
    ruleId in db.rules && db.rules[ruleId].isActive && db.rules[ruleId].emailAccountId == account
  }

  /** The row waits for review for a listed message that an active rule of this account matches. */
  ghost predicate QueuedFor(t: Text, db: Db, account: AccountRef, run: AccountRun, row: Candidate) {
    account.providerType == "gmail" && !run.queryFails && run.listing.Some? && Active(db, row.ruleId, account.id) &&
    exists m :: m in run.listing.value && PendingFor(row, row.ruleId, account.id, m) &&
                MessageMatchesRule(t, m, db.rules[row.ruleId].logicalOperator, db.rules[row.ruleId].conditions)
  }

  /** Every row a scan creates is a pending row of one of its accounts, for an active rule of that account
      and a message listed for it that the rule matches. */
  lemma NewRowsMeaning(t: Text, db: Db, accounts: seq<AccountRef>, outside: Outside)
    requires Consistent(db) && AccountsExist(db, accounts) && OrdersFit(db, accounts, outside)
    ensures var after := ScanAccounts(t, db, accounts, outside).db;
            forall id :: id in after.candidates && id !in db.candidates ==>
              exists i :: 0 <= i < |accounts| &&
                          QueuedFor(t, db, accounts[i], outside(accounts[i].id), after.candidates[id])
  {
    hide ScanAccounts, Contribution, RowOfPairs, QueuedFor;
    ScanMeaning(t, db, accounts, outside);
    var after := ScanAccounts(t, db, accounts, outside).db;
    forall id | id in after.candidates && id !in db.candidates
      ensures exists i :: 0 <= i < |accounts| &&
                          QueuedFor(t, db, accounts[i], outside(accounts[i].id), after.candidates[id])
    {
      var row := after.candidates[id];
      assert RowOfScan(t, db, accounts, outside, row);
      var i :| 0 <= i < |accounts| &&
        RowOfPairs(Contribution(t, db, accounts[i], outside(accounts[i].id)), accounts[i].id, row);
      ContributedRow(t, db, accounts[i], outside(accounts[i].id), row);
    }
  }

  lemma ContributedRow(t: Text, db: Db, account: AccountRef, run: AccountRun, row: Candidate)
    requires Enumerates(run.ruleOrder, ActiveRules(db, account.id))
    requires RowOfPairs(Contribution(t, db, account, run), account.id, row)
    ensures QueuedFor(t, db, account, run, row)
  {
    var pairs := Contribution(t, db, account, run);
    var i :| 0 <= i < |pairs| && RowOfPair(pairs, i, account.id, row);
    ContributedPair(t, db, account, run, pairs[i]);
  }

  lemma ContributedPair(t: Text, db: Db, account: AccountRef, run: AccountRun, p: Pair)
    requires Enumerates(run.ruleOrder, ActiveRules(db, account.id))
    requires p in Contribution(t, db, account, run)
    ensures account.providerType == "gmail" && !run.queryFails && run.listing.Some? && p.message in run.listing.value
    ensures Active(db, p.ruleId, account.id)
    ensures MessageMatchesRule(t, p.message, db.rules[p.ruleId].logicalOperator, db.rules[p.ruleId].conditions)
  {
    var rules := ReadRules(db, run.ruleOrder);
    assert p in MatchingPairs(t, run.listing.value, rules);
    MatchingPairsMeaning(t, run.listing.value, rules, p);
    var r :| r in rules && Pairs(t, p.message, r, (p.ruleId, p.message.externalMessageId));
    var i :| 0 <= i < |rules| && rules[i] == r;
    assert run.ruleOrder[i] in ActiveRules(db, account.id);
  }

  /** Nothing fails for this account, and one of its active rules matches this listed message. */
  ghost predicate Due(t: Text, db: Db, account: AccountRef, run: AccountRun, ruleId: Id, m: Message) {
    account.providerType == "gmail" && !run.queryFails && run.listing.Some? && run.faultAfter == None &&
    m in run.listing.value && Active(db, ruleId, account.id) &&
    MessageMatchesRule(t, m, db.rules[ruleId].logicalOperator, db.rules[ruleId].conditions)
  }

  /** When neither the queries, the provider nor an insert of an account fails, every message listed for
      it that one of its active rules matches has a row for that rule afterwards. */
  lemma MatchesAreQueued(t: Text, db: Db, accounts: seq<AccountRef>, outside: Outside, i: nat, ruleId: Id, m: Message)
    requires Consistent(db) && AccountsExist(db, accounts) && OrdersFit(db, accounts, outside)
    requires i < |accounts| && Due(t, db, accounts[i], outside(accounts[i].id), ruleId, m)
    ensures Queued(ScanAccounts(t, db, accounts, outside).db, ruleId, m.externalMessageId)
  {
    hide ScanAccounts, ContributedKeys, NewRowsOfScan;
    var k := (ruleId, m.externalMessageId);
    MatchContributed(t, db, accounts[i], outside(accounts[i].id), ruleId, m);
    ContributedByOwner(t, db, accounts, outside, k);
    ScanMeaning(t, db, accounts, outside);
    KeyQueued(ScanAccounts(t, db, accounts, outside).db, ruleId, m.externalMessageId);
  }

  lemma MatchContributed(t: Text, db: Db, account: AccountRef, run: AccountRun, ruleId: Id, m: Message)
    requires Enumerates(run.ruleOrder, ActiveRules(db, account.id))
    requires Due(t, db, account, run, ruleId, m)
    ensures (ruleId, m.externalMessageId) in PairKeys(Contribution(t, db, account, run))
  {
    var rules := ReadRules(db, run.ruleOrder);
    assert ruleId in ActiveRules(db, account.id);
    var i :| 0 <= i < |run.ruleOrder| && run.ruleOrder[i] == ruleId;
    assert rules[i] in rules && Pairs(t, m, rules[i], (ruleId, m.externalMessageId));
    MatchedKeys(t, run.listing.value, rules, (ruleId, m.externalMessageId));
  }

  /** Message by message, and for one message rule by rule. */
  ghost predicate Earlier(a: (nat, nat), b: (nat, nat)) {
    a.0 < b.0 || (a.0 == b.0 && a.1 < b.1)
  }

  ghost predicate Increasing(at: seq<(nat, nat)>) {
    forall i, j :: 0 <= i < j < |at| ==> Earlier(at[i], at[j])
  }

  /** Each pair is the message and the rule at its position. */
  ghost predicate PairsAt(messages: seq<Message>, rules: seq<(Id, EmailRule)>, pairs: seq<Pair>, at: seq<(nat, nat)>) {
    |at| == |pairs| &&
    forall k :: 0 <= k < |at| ==>
      at[k].0 < |messages| && at[k].1 < |rules| && pairs[k] == Pair(rules[at[k].1].0, messages[at[k].0])
  }

  /** The positions are those of the messages and rules that match. */
  ghost predicate MatchesAt(t: Text, messages: seq<Message>, rules: seq<(Id, EmailRule)>, at: seq<(nat, nat)>) {
    forall a: nat, b: nat :: (a, b) in at <==> IsMatch(t, messages, rules, a, b)
  }

  ghost predicate IsMatch(t: Text, messages: seq<Message>, rules: seq<(Id, EmailRule)>, a: nat, b: nat) {
    a < |messages| && b < |rules| &&
    MessageMatchesRule(t, messages[a], rules[b].1.logicalOperator, rules[b].1.conditions)
  }

  /** The positions, each moved on by some messages and rules. */
  ghost function Moved(at: seq<(nat, nat)>, a: nat, b: nat): (r: seq<(nat, nat)>)
    ensures |r| == |at| && forall k :: 0 <= k < |at| ==> r[k] == (at[k].0 + a, at[k].1 + b)
  {
    seq(|at|, k requires 0 <= k < |at| => (at[k].0 + a, at[k].1 + b))
  }

  lemma MovedMembers(at: seq<(nat, nat)>, a: nat, b: nat, x: nat, y: nat)
    ensures (x, y) in Moved(at, a, b) <==> x >= a && y >= b && (x - a, y - b) in at
  {
    if x >= a && y >= b && (x - a, y - b) in at {
      var k :| 0 <= k < |at| && at[k] == (x - a, y - b);
      assert Moved(at, a, b)[k] == (x, y);
    }
  }

  lemma JoinedIncreasing(here: seq<(nat, nat)>, rest: seq<(nat, nat)>, a: nat, b: nat)
    requires Increasing(here) && Increasing(rest)
    requires forall p, q :: p in here && q in Moved(rest, a, b) ==> Earlier(p, q)
    ensures Increasing(here + Moved(rest, a, b))
  {
    var there := Moved(rest, a, b);
    forall i, j | 0 <= i < j < |here + there|
      ensures Earlier((here + there)[i], (here + there)[j])
    {
      if i >= |here| {
        assert Earlier(rest[i - |here|], rest[j - |here|]);
      } else if j >= |here| {
        assert here[i] in here && there[j - |here|] in there;
      }
    }
  }

  /** The positions for one message. */
  lemma {:induction false} RuleOrder(t: Text, m: Message, rules: seq<(Id, EmailRule)>) returns (at: seq<(nat, nat)>)
    ensures Increasing(at) && PairsAt([m], rules, RulePairs(t, m, rules), at) && MatchesAt(t, [m], rules, at)
  {
    if rules == [] {
      return [];
    }
    var rest := RuleOrder(t, m, rules[1..]);
    var here := if MessageMatchesRule(t, m, rules[0].1.logicalOperator, rules[0].1.conditions) then [(0, 0)] else [];
    at := here + Moved(rest, 0, 1);
    RulesIncreasing(here, rest);
    RulesPlaced(t, m, rules, here, RulePairs(t, m, rules[1..]), rest);
    RulesComplete(t, m, rules, here, rest);
    hide PairsAt, MatchesAt, Increasing;
  }

  lemma RulesIncreasing(here: seq<(nat, nat)>, rest: seq<(nat, nat)>)
    requires Increasing(rest) && here in {[], [(0, 0)]}
    ensures Increasing(here + Moved(rest, 0, 1))
  {
    JoinedIncreasing(here, rest, 0, 1);
  }

  lemma RulesPlaced(t: Text, m: Message, rules: seq<(Id, EmailRule)>, here: seq<(nat, nat)>, later: seq<Pair>,
      rest: seq<(nat, nat)>)
    requires rules != [] && here in {[], [(0, 0)]} && PairsAt([m], rules[1..], later, rest)
    ensures PairsAt([m], rules, (if here == [] then [] else [Pair(rules[0].0, m)]) + later, here + Moved(rest, 0, 1))
  {
  }

  lemma RulesComplete(t: Text, m: Message, rules: seq<(Id, EmailRule)>, here: seq<(nat, nat)>, rest: seq<(nat, nat)>)
    requires rules != [] && MatchesAt(t, [m], rules[1..], rest)
    requires here == if IsMatch(t, [m], rules, 0, 0) then [(0, 0)] else []
    ensures MatchesAt(t, [m], rules, here + Moved(rest, 0, 1))
  {
    forall a: nat, b: nat
      ensures (a, b) in here + Moved(rest, 0, 1) <==> IsMatch(t, [m], rules, a, b)
    {
      MovedMembers(rest, 0, 1, a, b);
      assert b > 0 ==> (IsMatch(t, [m], rules, a, b) <==> IsMatch(t, [m], rules[1..], a, b - 1));
    }
  }

  /** The pairs an account goes through are its matching positions, each once, message by message and rule
      by rule: a failure cuts off the later messages, and within its message the later rules. */
  lemma {:induction false} PairOrder(t: Text, messages: seq<Message>, rules: seq<(Id, EmailRule)>)
    returns (at: seq<(nat, nat)>)
    ensures Increasing(at) && PairsAt(messages, rules, MatchingPairs(t, messages, rules), at)
    ensures MatchesAt(t, messages, rules, at)
  {
    if messages == [] {
      return [];
    }
    var here := RuleOrder(t, messages[0], rules);
    var rest := PairOrder(t, messages[1..], rules);
    at := here + Moved(rest, 1, 0);
    MessagesIncreasing(messages, rules, RulePairs(t, messages[0], rules), here, rest);
    MessagesPlaced(messages, rules, RulePairs(t, messages[0], rules), here, MatchingPairs(t, messages[1..], rules),
                   rest);
    MessagesComplete(t, messages, rules, here, rest);
    hide PairsAt, MatchesAt, Increasing;
  }

  lemma MessagesIncreasing(messages: seq<Message>, rules: seq<(Id, EmailRule)>, now: seq<Pair>,
      here: seq<(nat, nat)>, rest: seq<(nat, nat)>)
    requires messages != [] && Increasing(here) && Increasing(rest) && PairsAt([messages[0]], rules, now, here)
    ensures Increasing(here + Moved(rest, 1, 0))
  {
    forall p, q | p in here && q in Moved(rest, 1, 0)
      ensures Earlier(p, q)
    {
      var i :| 0 <= i < |here| && here[i] == p;
      assert p.0 == 0;
    }
    JoinedIncreasing(here, rest, 1, 0);
  }

  lemma MessagesPlaced(messages: seq<Message>, rules: seq<(Id, EmailRule)>, now: seq<Pair>, here: seq<(nat, nat)>,
      later: seq<Pair>, rest: seq<(nat, nat)>)
    requires messages != [] && PairsAt([messages[0]], rules, now, here) && PairsAt(messages[1..], rules, later, rest)
    ensures PairsAt(messages, rules, now + later, here + Moved(rest, 1, 0))
  {
  }

  lemma MessagesComplete(t: Text, messages: seq<Message>, rules: seq<(Id, EmailRule)>, here: seq<(nat, nat)>,
      rest: seq<(nat, nat)>)
    requires messages != [] && MatchesAt(t, [messages[0]], rules, here) && MatchesAt(t, messages[1..], rules, rest)
    ensures MatchesAt(t, messages, rules, here + Moved(rest, 1, 0))
  {
    forall a: nat, b: nat
      ensures (a, b) in here + Moved(rest, 1, 0) <==> IsMatch(t, messages, rules, a, b)
    {
      MovedMembers(rest, 1, 0, a, b);
      assert a > 0 ==> (IsMatch(t, messages, rules, a, b) <==> IsMatch(t, messages[1..], rules, a - 1, b));
      assert a == 0 ==> (IsMatch(t, messages, rules, a, b) <==> IsMatch(t, [messages[0]], rules, a, b));
    }
  }

  /** The account is asked for its messages and answers: it is a Gmail account with an active rule. */
  ghost predicate IsScanned(db: Db, account: AccountRef, run: AccountRun) {
    account.providerType == "gmail" && !run.queryFails && run.listing.Some? &&
    exists ruleId :: Active(db, ruleId, account.id)
  }

  /** Its provider is unknown, a query or the listing fails, or an insert among its matching pairs does. */
  ghost predicate IsFailed(t: Text, db: Db, account: AccountRef, run: AccountRun)
    requires forall id :: id in run.ruleOrder ==> id in db.rules
  {
    account.providerType != "gmail" || run.queryFails ||
    ((exists ruleId :: Active(db, ruleId, account.id)) &&
     (run.listing == None ||
      (run.faultAfter.Some? &&
       run.faultAfter.value < |MatchingPairs(t, run.listing.value, ReadRules(db, run.ruleOrder))|)))
  }

  lemma AccountCounters(t: Text, db: Db, account: AccountRef, run: AccountRun)
    requires Consistent(db) && account.id in db.accounts
    requires Enumerates(run.ruleOrder, ActiveRules(db, account.id))
    ensures var r := ScanAccount(t, db, account, run);
            r.scanned == (if IsScanned(db, account, run) then 1 else 0) &&
            r.failed == (if IsFailed(t, db, account, run) then 1 else 0) &&
            (!IsScanned(db, account, run) ==> r.created == 0 && r.db == db)
  {
    assert forall id :: id in run.ruleOrder <==> Active(db, id, account.id);
    assert run.ruleOrder != [] ==> Active(db, run.ruleOrder[0], account.id);
    if run.listing.Some? {
      var pairs := MatchingPairs(t, run.listing.value, ReadRules(db, run.ruleOrder));
      ContributionBelongs(t, db, account, run);
      InsertPairsMeaning(db, account.id, pairs, run.faultAfter);
    }
    hide Consistent, Enumerates, ActiveRules, MatchingPairs, InsertPairs, Grew;
  }

  ghost function ScannedAmong(db: Db, accounts: seq<AccountRef>, outside: Outside): nat
    decreases |accounts|
  {
    if accounts == [] then 0
    else
      (if IsScanned(db, accounts[0], outside(accounts[0].id)) then 1 else 0) +
      ScannedAmong(db, accounts[1..], outside)
  }

  ghost function FailedAmong(t: Text, db: Db, accounts: seq<AccountRef>, outside: Outside): nat
    requires OrdersFit(db, accounts, outside)
    decreases |accounts|
  {
    if accounts == [] then 0 else
    assert OrdersFit(db, accounts[1..], outside) by { OrdersFitLater(db, db, accounts, outside); }
    (if IsFailed(t, db, accounts[0], outside(accounts[0].id)) then 1 else 0) +
    FailedAmong(t, db, accounts[1..], outside)
  }

  lemma {:induction false} CountersIgnoreCandidates(t: Text, db: Db, other: Db, accounts: seq<AccountRef>,
                                                    outside: Outside)
    requires OrdersFit(db, accounts, outside) && OrdersFit(other, accounts, outside) && other.rules == db.rules
    ensures ScannedAmong(db, accounts, outside) == ScannedAmong(other, accounts, outside)
    ensures FailedAmong(t, db, accounts, outside) == FailedAmong(t, other, accounts, outside)
    decreases |accounts|
  {
    if accounts != [] {
      OrdersFitLater(db, db, accounts, outside);
      OrdersFitLater(db, other, accounts, outside);
      CountersIgnoreCandidates(t, db, other, accounts[1..], outside);
      assert forall ruleId, a :: Active(db, ruleId, a) <==> Active(other, ruleId, a);
      ReadRulesAgree(db, other, outside(accounts[0].id).ruleOrder);
    }
  }

  /** The scan counts the accounts whose messages were listed, and the accounts at which something failed;
      an account without active rules is in neither. */
  lemma {:induction false} ScanCounters(t: Text, db: Db, accounts: seq<AccountRef>, outside: Outside)
    requires Consistent(db) && AccountsExist(db, accounts) && OrdersFit(db, accounts, outside)
    ensures var r := ScanAccounts(t, db, accounts, outside);
            r.scanned == ScannedAmong(db, accounts, outside) && r.failed == FailedAmong(t, db, accounts, outside)
    decreases |accounts|
  {
    if accounts != [] {
      var account, run := accounts[0], outside(accounts[0].id);
      var next := ScanAccount(t, db, account, run).db;
      AccountCounters(t, db, account, run);
      ScanAccountMeaning(t, db, account, run);
      ScanKeepsRules(t, db, account, run);
      OrdersFitLater(db, db, accounts, outside);
      OrdersFitLater(db, next, accounts, outside);
      assert AccountsExist(next, accounts[1..]);
      ScanCounters(t, next, accounts[1..], outside);
      CountersIgnoreCandidates(t, db, next, accounts[1..], outside);
      hide ScanAccount, IsScanned, IsFailed, Consistent, OrdersFit, Grown;
    }
  }

  /** What a scan has done: the accounts it counted, the rows it added, and none it should have added
      missing. */
  ghost predicate ScanMeans(t: Text, db: Db, accounts: seq<AccountRef>, outside: Outside, r: Report)
    requires OrdersFit(db, accounts, outside)
  {
    r.scanned == ScannedAmong(db, accounts, outside) && r.failed == FailedAmong(t, db, accounts, outside) &&
    |r.db.candidates| == |db.candidates| + r.created && OldRowsKept(db, r.db) &&
    (forall id :: id in r.db.candidates && id !in db.candidates ==>
       exists i :: 0 <= i < |accounts| &&
                   QueuedFor(t, db, accounts[i], outside(accounts[i].id), r.db.candidates[id])) &&
    (forall i, ruleId, m :: 0 <= i < |accounts| && Due(t, db, accounts[i], outside(accounts[i].id), ruleId, m) ==>
       Queued(r.db, ruleId, m.externalMessageId))
  }

  lemma ScanMeansAll(t: Text, db: Db, accounts: seq<AccountRef>, outside: Outside)
    requires Consistent(db) && AccountsExist(db, accounts) && OrdersFit(db, accounts, outside)
    ensures ScanMeans(t, db, accounts, outside, ScanAccounts(t, db, accounts, outside))
  {
    hide ScanAccounts, QueuedFor, Queued, Consistent, NewRowsOfScan;
    ScanCounters(t, db, accounts, outside);
    NewRowsMeaning(t, db, accounts, outside);
    ScanMeaning(t, db, accounts, outside);
    forall i, ruleId, m | 0 <= i < |accounts| && Due(t, db, accounts[i], outside(accounts[i].id), ruleId, m)
      ensures Queued(ScanAccounts(t, db, accounts, outside).db, ruleId, m.externalMessageId)
    {
      MatchesAreQueued(t, db, accounts, outside, i, ruleId, m);
    }
  }

  // ---------------------------------------------------------------------------------
  // Which accounts and rules a scan takes, over every run
  // ---------------------------------------------------------------------------------

  ghost predicate Wanted(db: Db, user: Option<Id>, account: Id) {
    account in db.accounts && db.accounts[account].isActive &&
    (user.Some? ==> db.accounts[account].userId == user.value)
  }

  /** A user's scan takes exactly the active accounts of the user, the scheduled scan all active ones,
      each once and with its provider. */
  lemma StartMeaning(t: Text, s: State, order: seq<Id>, user: Option<Id>)
    ensures var after := Apply(t, s, StartScan(order, user));
            var fits := (forall i, j :: 0 <= i < j < |order| ==> order[i] != order[j]) &&
                        forall id :: id in order <==> Wanted(s.db, user, id);
            (!fits ==> after == s) &&
            (fits ==>
               after == s.(scans := after.scans) && |after.scans| == |s.scans| + 1 &&
               after.scans[..|s.scans|] == s.scans &&
               var scan := after.scans[|s.scans|];
               scan.phase == Idle && scan.scanned == scan.created == scan.failed == 0 && |scan.todo| == |order| &&
               forall i :: 0 <= i < |order| ==>
                 order[i] in s.db.accounts && scan.todo[i].id == order[i] &&
                 scan.todo[i].providerType == s.db.accounts[order[i]].providerType)
  {
    assert forall id :: id in ActiveAccounts(s.db, user) <==> Wanted(s.db, user, id);
    assert forall i :: 0 <= i < |order| ==> order[i] in order;
  }

  /** Step i starts a scan of this account: it is active, and the user's if a user asked. */
  ghost predicate TakenAt(t: Text, s: State, steps: seq<Step>, i: nat, account: Id) {
    i < |steps| && steps[i].StartScan? && Wanted(At(t, s, steps, i).db, steps[i].user, account)
  }

  ghost predicate Taken(t: Text, s: State, steps: seq<Step>, n: nat, account: Id) {
    exists i :: 0 <= i < n && TakenAt(t, s, steps, i, account)
  }

  /** Step i reads this rule of this account, which is active then. */
  ghost predicate ReadAt(t: Text, s: State, steps: seq<Step>, i: nat, account: Id, ruleId: Id, rule: EmailRule) {
    i < |steps| && steps[i].ScanReadsRules? && !steps[i].fails &&
    var db := At(t, s, steps, i).db;
    ruleId in db.rules && db.rules[ruleId] == rule && rule.isActive && rule.emailAccountId == account
  }

  ghost predicate RuleRead(t: Text, s: State, steps: seq<Step>, n: nat, account: Id, ruleId: Id, rule: EmailRule) {
    exists i :: 0 <= i < n && ReadAt(t, s, steps, i, account, ruleId, rule)
  }

  /** Step i lists this message for this account. */
  ghost predicate ListedAt(t: Text, s: State, steps: seq<Step>, i: nat, account: Id, m: Message) {
    i < |steps| && steps[i].ScanListsMessages? && steps[i].listing.Some? && m in steps[i].listing.value &&
    var scans := At(t, s, steps, i).scans;
    steps[i].scan < |scans| && scans[steps[i].scan].phase.Listing? && scans[steps[i].scan].phase.account == account
  }

  ghost predicate Listed(t: Text, s: State, steps: seq<Step>, n: nat, account: Id, m: Message) {
    exists i :: 0 <= i < n && ListedAt(t, s, steps, i, account, m)
  }

  /** The message was listed for the account, and matches the rule as it was when it was read. */
  ghost predicate MatchFound(t: Text, s: State, steps: seq<Step>, n: nat, account: Id, ruleId: Id, m: Message) {
    Listed(t, s, steps, n, account, m) &&
    exists rule :: RuleRead(t, s, steps, n, account, ruleId, rule) &&
                   MessageMatchesRule(t, m, rule.logicalOperator, rule.conditions)
  }

  ghost predicate PhaseExplained(t: Text, s: State, steps: seq<Step>, n: nat, phase: Phase) {
    match phase
    case Idle => true
    case Listing(account, rules) =>
      Taken(t, s, steps, n, account) && forall r :: r in rules ==> RuleRead(t, s, steps, n, account, r.0, r.1)
    case Inserting(account, pairs) =>
      Taken(t, s, steps, n, account) &&
      forall p :: p in pairs ==> MatchFound(t, s, steps, n, account, p.ruleId, p.message)
  }

  ghost predicate ScanExplained(t: Text, s: State, steps: seq<Step>, n: nat, scan: Scan) {
    (forall k :: 0 <= k < |scan.todo| ==> Taken(t, s, steps, n, scan.todo[k].id)) &&
    PhaseExplained(t, s, steps, n, scan.phase)
  }

  ghost predicate RowExplained(t: Text, s: State, steps: seq<Step>, n: nat, row: Candidate) {
    Taken(t, s, steps, n, row.emailAccountId) &&
    exists m :: Shows(row, m) && MatchFound(t, s, steps, n, row.emailAccountId, row.ruleId, m)
  }

  lemma MatchStaysFound(t: Text, s: State, steps: seq<Step>, n: nat, account: Id, ruleId: Id, m: Message)
    requires MatchFound(t, s, steps, n, account, ruleId, m)
    ensures MatchFound(t, s, steps, n + 1, account, ruleId, m)
  {
    hide ListedAt, ReadAt;
    var i :| 0 <= i < n && ListedAt(t, s, steps, i, account, m);
    var rule :| RuleRead(t, s, steps, n, account, ruleId, rule) &&
                MessageMatchesRule(t, m, rule.logicalOperator, rule.conditions);
    RuleStaysRead(t, s, steps, n, account, ruleId, rule);
  }

  lemma RuleStaysRead(t: Text, s: State, steps: seq<Step>, n: nat, account: Id, ruleId: Id, rule: EmailRule)
    requires RuleRead(t, s, steps, n, account, ruleId, rule)
    ensures RuleRead(t, s, steps, n + 1, account, ruleId, rule)
  {
    hide ReadAt;
  }

  lemma StaysTaken(t: Text, s: State, steps: seq<Step>, n: nat, account: Id)
    requires Taken(t, s, steps, n, account)
    ensures Taken(t, s, steps, n + 1, account)
  {
    hide TakenAt;
  }

  lemma ScanStaysExplained(t: Text, s: State, steps: seq<Step>, n: nat, scan: Scan)
    requires ScanExplained(t, s, steps, n, scan)
    ensures ScanExplained(t, s, steps, n + 1, scan)
  {
    hide Taken, MatchFound, RuleRead;
    forall k | 0 <= k < |scan.todo|
      ensures Taken(t, s, steps, n + 1, scan.todo[k].id)
    {
      StaysTaken(t, s, steps, n, scan.todo[k].id);
    }
    if !scan.phase.Idle? {
      StaysTaken(t, s, steps, n, scan.phase.account);
    }
    if scan.phase.Listing? {
      forall r | r in scan.phase.rules
        ensures RuleRead(t, s, steps, n + 1, scan.phase.account, r.0, r.1)
      {
        RuleStaysRead(t, s, steps, n, scan.phase.account, r.0, r.1);
      }
    }
    if scan.phase.Inserting? {
      forall p | p in scan.phase.pairs
        ensures MatchFound(t, s, steps, n + 1, scan.phase.account, p.ruleId, p.message)
      {
        MatchStaysFound(t, s, steps, n, scan.phase.account, p.ruleId, p.message);
      }
    }
  }

  lemma RowStaysExplained(t: Text, s: State, steps: seq<Step>, n: nat, row: Candidate)
    requires RowExplained(t, s, steps, n, row)
    ensures RowExplained(t, s, steps, n + 1, row)
  {
    hide Taken, MatchFound;
    StaysTaken(t, s, steps, n, row.emailAccountId);
    var m :| Shows(row, m) && MatchFound(t, s, steps, n, row.emailAccountId, row.ruleId, m);
    MatchStaysFound(t, s, steps, n, row.emailAccountId, row.ruleId, m);
  }

  /** What the snapshots of the scans in flight contain has happened. */
  lemma {:induction false} ScansExplained(t: Text, s: State, steps: seq<Step>, n: nat, k: nat)
    requires Initial(s) && n <= |steps| && k < |At(t, s, steps, n).scans|
    ensures ScanExplained(t, s, steps, n, At(t, s, steps, n).scans[k])
  {
    hide Apply, ScanExplained;
    if n > 0 {
      var before, step := At(t, s, steps, n - 1), steps[n - 1];
      if k < |before.scans| {
        ScansExplained(t, s, steps, n - 1, k);
        ScanStaysExplained(t, s, steps, n - 1, before.scans[k]);
        if step.ScanReadsRules? && step.scan == k {
          ReadExplained(t, s, steps, n, k);
        } else if step.ScanListsMessages? && step.scan == k {
          ListExplained(t, s, steps, n, k);
        } else if step.ScanInserts? && step.scan == k {
          InsertExplained(t, s, steps, n, k);
        } else {
          OneScanMoves(t, before, step, k);
        }
      } else {
        StartExplained(t, s, steps, n, k);
      }
    }
  }

  lemma OneScanMoves(t: Text, s: State, step: Step, k: nat)
    requires k < |s.scans|
    requires !((step.ScanReadsRules? || step.ScanListsMessages? || step.ScanInserts?) && step.scan == k)
    ensures k < |Apply(t, s, step).scans| && Apply(t, s, step).scans[k] == s.scans[k]
  {
  }

  lemma StartExplained(t: Text, s: State, steps: seq<Step>, n: nat, k: nat)
    requires 0 < n <= |steps| && |At(t, s, steps, n - 1).scans| <= k < |At(t, s, steps, n).scans|
    ensures ScanExplained(t, s, steps, n, At(t, s, steps, n).scans[k])
  {
    var before, scan := At(t, s, steps, n - 1), At(t, s, steps, n).scans[k];
    var order, user := steps[n - 1].order, steps[n - 1].user;
    StartMeaning(t, before, order, user);
    hide At, Apply;
    forall i | 0 <= i < |scan.todo|
      ensures Taken(t, s, steps, n, scan.todo[i].id)
    {
      assert scan.todo[i].id == order[i] && order[i] in order;
      assert TakenAt(t, s, steps, n - 1, order[i]);
    }
  }

  lemma ReadExplained(t: Text, s: State, steps: seq<Step>, n: nat, k: nat)
    requires 0 < n <= |steps| && k < |At(t, s, steps, n - 1).scans|
    requires steps[n - 1].ScanReadsRules? && steps[n - 1].scan == k
    requires ScanExplained(t, s, steps, n, At(t, s, steps, n - 1).scans[k])
    ensures k < |At(t, s, steps, n).scans| && ScanExplained(t, s, steps, n, At(t, s, steps, n).scans[k])
  {
    var before, step := At(t, s, steps, n - 1), steps[n - 1];
    var scan := before.scans[k];
    var next := ReadRulesStep(t, before.db, scan, step.ruleOrder, step.fails);
    assert At(t, s, steps, n).scans[k] == next;
    hide At, Apply, Taken, MatchFound;
    if scan.phase.Idle? && next.phase.Listing? {
      forall r | r in next.phase.rules
        ensures RuleRead(t, s, steps, n, next.phase.account, r.0, r.1)
      {
        var i :| 0 <= i < |next.phase.rules| && next.phase.rules[i] == r;
        assert r.0 == step.ruleOrder[i] && step.ruleOrder[i] in ActiveRules(before.db, next.phase.account);
        assert ReadAt(t, s, steps, n - 1, next.phase.account, r.0, r.1);
      }
    }
  }

  lemma ListExplained(t: Text, s: State, steps: seq<Step>, n: nat, k: nat)
    requires 0 < n <= |steps| && k < |At(t, s, steps, n - 1).scans|
    requires steps[n - 1].ScanListsMessages? && steps[n - 1].scan == k
    requires ScanExplained(t, s, steps, n, At(t, s, steps, n - 1).scans[k])
    ensures k < |At(t, s, steps, n).scans| && ScanExplained(t, s, steps, n, At(t, s, steps, n).scans[k])
  {
    var before, step := At(t, s, steps, n - 1), steps[n - 1];
    var scan := before.scans[k];
    var next := ListStep(t, scan, step.listing);
    assert At(t, s, steps, n).scans[k] == next;
    hide At, Apply, Taken, RuleRead;
    if scan.phase.Listing? && step.listing.Some? {
      forall p | p in next.phase.pairs
        ensures MatchFound(t, s, steps, n, next.phase.account, p.ruleId, p.message)
      {
        MatchingPairsMeaning(t, step.listing.value, scan.phase.rules, p);
        var r :| r in scan.phase.rules && Pairs(t, p.message, r, (p.ruleId, p.message.externalMessageId));
        assert RuleRead(t, s, steps, n, scan.phase.account, r.0, r.1);
        assert ListedAt(t, s, steps, n - 1, scan.phase.account, p.message);
      }
    }
  }

  lemma InsertExplained(t: Text, s: State, steps: seq<Step>, n: nat, k: nat)
    requires 0 < n <= |steps| && k < |At(t, s, steps, n - 1).scans|
    requires steps[n - 1].ScanInserts? && steps[n - 1].scan == k
    requires ScanExplained(t, s, steps, n, At(t, s, steps, n - 1).scans[k])
    ensures k < |At(t, s, steps, n).scans| && ScanExplained(t, s, steps, n, At(t, s, steps, n).scans[k])
  {
    var before, step := At(t, s, steps, n - 1), steps[n - 1];
    var scan := before.scans[k];
    var next := InsertStep(before.db, scan, step.fails).1;
    assert At(t, s, steps, n).scans[k] == next;
    hide At, Apply, Taken, RuleRead, MatchFound, InsertCandidate;
    if scan.phase.Inserting? && next.phase.Inserting? {
      assert forall p :: p in next.phase.pairs ==> p in scan.phase.pairs;
    }
  }

  ghost predicate SameContents(before: Candidate, after: Candidate) {
    after == before.(status := after.status, processedAt := after.processedAt)
  }

  /** A row is there after a step because it was, or because the step inserted it. */
  lemma RowsFromInserts(t: Text, s: State, step: Step, id: Id)
    requires id in Apply(t, s, step).db.candidates
    ensures var row := Apply(t, s, step).db.candidates[id];
            (id in s.db.candidates && SameContents(s.db.candidates[id], row)) ||
            (step.ScanInserts? && step.scan < |s.scans| &&
             var phase := s.scans[step.scan].phase;
             phase.Inserting? && phase.pairs != [] &&
             PendingFor(row, phase.pairs[0].ruleId, phase.account, phase.pairs[0].message))
  {
    hide Enumerates, ReadRules, ActiveRules, ActiveAccounts, FindForApproval, ListStep, ReadRulesStep;
    if IsReviewStep(step) {
      ReviewStepSettles(t, s, step);
      hide Apply;
    }
  }

  /** Over every run, however it interleaves: a row that was not there at the start shows a message that
      some step listed for its account, and that matched its rule when some step read it; the rule was
      active and the account's then, and the account was active when a scan took it, and the user's if a
      user had asked for the scan. */
  lemma {:induction false} RowsExplained(t: Text, s: State, steps: seq<Step>, n: nat, id: Id)
    requires Initial(s) && n <= |steps|
    requires id in At(t, s, steps, n).db.candidates && id !in s.db.candidates
    ensures RowExplained(t, s, steps, n, At(t, s, steps, n).db.candidates[id])
  {
    hide Apply, Taken, MatchFound, Initial;
    if n > 0 {
      var before, step, row := At(t, s, steps, n - 1), steps[n - 1], At(t, s, steps, n).db.candidates[id];
      RowsFromInserts(t, before, step, id);
      if id in before.db.candidates && SameContents(before.db.candidates[id], row) {
        RowsExplained(t, s, steps, n - 1, id);
        RowStaysExplained(t, s, steps, n - 1, before.db.candidates[id]);
      } else {
        ScansExplained(t, s, steps, n - 1, step.scan);
        ScanStaysExplained(t, s, steps, n - 1, before.scans[step.scan]);
      }
    }
  }

  // ---------------------------------------------------------------------------------
  // The provider call of an approval in flight
  // ---------------------------------------------------------------------------------

  /** What an action type asks of the mailbox for this message of this account. */
  ghost function AskedFor(actionType: string, account: Id, messageId: string): Mailbox {
    if actionType == "delete_candidate" then {(account, messageId, Delete)}
    else if actionType == "spam_candidate" then {(account, messageId, Spam)}
    else {}
  }

  /** The call of an approval that has found its candidate changes no table. It has effect unless the
      account is not a Gmail account or the provider fails before acting; the approval goes on exactly when
      nothing was asked or the provider reports success, so that a lost success ends it. */
  lemma CallMeaning(t: Text, s: State, k: nat, outcome: ProviderOutcome)
    requires k < |s.approvals| && s.approvals[k].phase.Found?
    ensures var after, a := Apply(t, s, ApproveActs(k, outcome)), s.approvals[k];
            var asked := AskedFor(a.actionType, a.seen.emailAccountId, a.seen.externalMessageId);
            var reached := a.providerType == "gmail" && !outcome.FailsBefore?;
            after.db == s.db && after.scans == s.scans && |after.approvals| == |s.approvals| &&
            after.mailbox == s.mailbox + (if reached then asked else {}) &&
            |after.log| == |s.log| + (if reached then |asked| else 0) &&
            after.approvals[k] ==
              a.(phase := if asked == {} || (a.providerType == "gmail" && outcome.Succeeds?) then Acted else Ended) &&
            forall other :: 0 <= other < |s.approvals| && other != k ==> after.approvals[other] == s.approvals[other]
  {
    ActionMeaning(s.approvals[k].actionType);
  }
}
