/** The per-account summary of approved important mail, against a direct count through the rules. */
module MailSummary {
  import opened MailTables

  datatype SummaryLine = SummaryLine(emailAccountId: Id, displayName: string, importantCount: nat)

  /** The rows the group-by query selects, by the account copied into the row. */
  function Selected(db: Db, userId: Id): set<Id> {
    set id | id in db.candidates && db.candidates[id].status.APPROVED? &&
             db.candidates[id].ruleId in db.rules && db.rules[db.candidates[id].ruleId].actionType == IMPORTANT &&
             OwnsAccount(db, userId, db.candidates[id].emailAccountId)
  }

  /** One entry for each account that has a selected row, and none for the others. */
  function GroupCounts(db: Db, userId: Id): map<Id, nat> {
    var accounts := set id | id in Selected(db, userId) :: db.candidates[id].emailAccountId;
    map a | a in accounts :: |set id | id in Selected(db, userId) && db.candidates[id].emailAccountId == a|
  }

  function Line(db: Db, userId: Id, account: Id): SummaryLine
    requires OwnsAccount(db, userId, account)
  {
    var counts := GroupCounts(db, userId);
    SummaryLine(account, db.accounts[account].displayName, if account in counts then counts[account] else 0)
  }

  function AccountsOf(db: Db, userId: Id): set<Id> {
    set id | id in db.accounts && db.accounts[id].userId == userId
  }

  function ImportantSummary(db: Db, userId: Id, order: seq<Id>): seq<SummaryLine>
    requires forall i :: 0 <= i < |order| ==> OwnsAccount(db, userId, order[i])
  {
    seq(|order|, i requires 0 <= i < |order| => Line(db, userId, order[i]))
  }

  /** The direct count: approved candidates whose rule is important and belongs to the account. */
  ghost function ImportantOfAccount(db: Db, account: Id): set<Id> {
    set id | id in db.candidates && db.candidates[id].status.APPROVED? && db.candidates[id].ruleId in db.rules &&
             db.rules[db.candidates[id].ruleId].actionType == "important" &&
             db.rules[db.candidates[id].ruleId].emailAccountId == account
  }

  ghost function ImportantOfUser(db: Db, userId: Id): set<Id> {
    set id | id in db.candidates && db.candidates[id].status.APPROVED? &&
             OwnsRule(db, userId, db.candidates[id].ruleId) &&
             db.rules[db.candidates[id].ruleId].actionType == "important"
  }

  ghost function Total(lines: seq<SummaryLine>): nat {
    if lines == [] then 0 else lines[0].importantCount + Total(lines[1..])
  }

  lemma LineCountsDirectly(db: Db, userId: Id, account: Id)
    requires Consistent(db) && OwnsAccount(db, userId, account)
    ensures Line(db, userId, account).importantCount == |ImportantOfAccount(db, account)|
  {
    var group := set id | id in Selected(db, userId) && db.candidates[id].emailAccountId == account;
    assert group == ImportantOfAccount(db, account) by {
      assert forall id :: id in db.candidates ==> CandidateConsistent(db, db.candidates[id]);
    }
    if account !in GroupCounts(db, userId) {
      assert forall id :: id in Selected(db, userId) ==> db.candidates[id].emailAccountId != account;
      assert group == {};
    }
  }

  /** The accounts query: each of the user's accounts once, in some order. */
  ghost predicate ListsAccounts(db: Db, userId: Id, order: seq<Id>) {
    Distinct(order) && Elements(order) == AccountsOf(db, userId)
  }

  ghost predicate Distinct(order: seq<Id>) {
    forall i, j :: 0 <= i < j < |order| ==> order[i] != order[j]
  }

  ghost function Elements(order: seq<Id>): set<Id> {
    set id | id in order
  }

  ghost function OfAccounts(db: Db, userId: Id, accounts: set<Id>): set<Id> {
    set id | id in ImportantOfUser(db, userId) && db.rules[db.candidates[id].ruleId].emailAccountId in accounts
  }

  lemma {:induction false} TotalCounts(db: Db, userId: Id, order: seq<Id>)
    requires Consistent(db) && Distinct(order)
    requires forall i :: 0 <= i < |order| ==> OwnsAccount(db, userId, order[i])
    ensures Total(ImportantSummary(db, userId, order)) == |OfAccounts(db, userId, Elements(order))|
  {
    if order == [] {
      assert OfAccounts(db, userId, Elements(order)) == {};
    } else {
      hide Line, OfAccounts, ImportantOfAccount, Consistent, GroupCounts, OwnsAccount;
      var first, rest := order[0], order[1..];
      TotalCounts(db, userId, rest);
      LineCountsDirectly(db, userId, first);
      assert ImportantSummary(db, userId, order)[1..] == ImportantSummary(db, userId, rest);
      assert first !in rest;
      FirstAccountApart(db, userId, first, Elements(rest));
      assert Elements(order) == {first} + Elements(rest);
    }
  }

  lemma FirstAccountApart(db: Db, userId: Id, first: Id, others: set<Id>)
    requires Consistent(db) && OwnsAccount(db, userId, first) && first !in others
    ensures |OfAccounts(db, userId, {first} + others)| ==
              |ImportantOfAccount(db, first)| + |OfAccounts(db, userId, others)|
  {
    var here, there := ImportantOfAccount(db, first), OfAccounts(db, userId, others);
    assert OfAccounts(db, userId, {first} + others) == here + there;
    assert here !! there;
  }

  lemma {:induction false} DistinctCount(order: seq<Id>)
    requires Distinct(order)
    ensures |Elements(order)| == |order|
  {
    if order != [] {
      DistinctCount(order[1..]);
      assert Elements(order) == {order[0]} + Elements(order[1..]);
      assert order[0] !in Elements(order[1..]);
    }
  }

  /** The summary lists each of the user's accounts once, every count is the direct count through the
      rules, and the counts add up to all of the user's approved important candidates. */
  lemma SummaryAgrees(db: Db, userId: Id, order: seq<Id>)
    requires Consistent(db) && ListsAccounts(db, userId, order)
    ensures forall i :: 0 <= i < |order| ==> order[i] in Elements(order)
    ensures |ImportantSummary(db, userId, order)| == |AccountsOf(db, userId)|
    ensures forall a :: a in order <==> a in db.accounts && db.accounts[a].userId == userId
    ensures forall i :: 0 <= i < |order| ==>
              ImportantSummary(db, userId, order)[i].emailAccountId == order[i] && order[i] in db.accounts &&
              ImportantSummary(db, userId, order)[i].displayName == db.accounts[order[i]].displayName
    ensures forall i :: 0 <= i < |order| ==>
              ImportantSummary(db, userId, order)[i].importantCount == |ImportantOfAccount(db, order[i])|
    ensures Total(ImportantSummary(db, userId, order)) == |ImportantOfUser(db, userId)|
  {
    forall i | 0 <= i < |order|
      ensures OwnsAccount(db, userId, order[i])
      ensures Line(db, userId, order[i]).importantCount == |ImportantOfAccount(db, order[i])|
    {
      assert order[i] in Elements(order);
      assert order[i] in AccountsOf(db, userId);
      LineCountsDirectly(db, userId, order[i]);
    }
    assert forall a :: a in order <==> a in Elements(order);
    TotalCounts(db, userId, order);
    assert OfAccounts(db, userId, Elements(order)) == ImportantOfUser(db, userId);
    DistinctCount(order);
  }
}
