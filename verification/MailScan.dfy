/** One scan that nothing interleaves with: what it computes and what its failures leave behind. */
module MailScan {
  import opened Wrappers
  import opened RuleMatcher
  import opened MailTables

  datatype AccountRef = AccountRef(id: Id, providerType: string)

  datatype Pair = Pair(ruleId: Id, message: Message)

  /** What the outside world does while one account is scanned: the order in which the rule query
      lists its rows, whether it fails, the mailbox listing (absent when the provider fails), and
      the insert call at which the database fails, if any. */
  datatype AccountRun = AccountRun(
    queryFails: bool,
    ruleOrder: seq<Id>,
    listing: Option<seq<Message>>,
    faultAfter: Option<nat>)

  type Outside = Id -> AccountRun

  datatype Inserted = Inserted(db: Db, created: nat, completed: bool)

  datatype Report = Report(db: Db, scanned: nat, created: nat, failed: nat)

  ghost predicate Enumerates(order: seq<Id>, ids: set<Id>) {
    (forall i, j :: 0 <= i < j < |order| ==> order[i] != order[j]) && forall id :: id in order <==> id in ids
  }

  function ActiveRules(db: Db, account: Id): set<Id> {
    set id | id in db.rules && db.rules[id].emailAccountId == account && db.rules[id].isActive
  }

  /** The rows the rule query returns, in the order the database lists them. */
  function ReadRules(db: Db, order: seq<Id>): seq<(Id, EmailRule)>
    requires forall id :: id in order ==> id in db.rules
  {
    seq(|order|, i requires 0 <= i < |order| => (order[i], db.rules[order[i]]))
  }

  function RulePairs(t: Text, m: Message, rules: seq<(Id, EmailRule)>): seq<Pair> {
    if rules == [] then []
    else if MessageMatchesRule(t, m, rules[0].1.logicalOperator, rules[0].1.conditions)
    then [Pair(rules[0].0, m)] + RulePairs(t, m, rules[1..])
    else RulePairs(t, m, rules[1..])
  }

  /** The matching pairs in the order the loops reach them: message by message, rule by rule. */
  function MatchingPairs(t: Text, messages: seq<Message>, rules: seq<(Id, EmailRule)>): seq<Pair> {
    if messages == [] then [] else RulePairs(t, messages[0], rules) + MatchingPairs(t, messages[1..], rules)
  }

  function InsertPairs(db: Db, account: Id, pairs: seq<Pair>, faultAfter: Option<nat>): Inserted
    decreases |pairs|
  {
    if pairs == [] then Inserted(db, 0, true)
    else if faultAfter == Some(0) then Inserted(db, 0, false)
    else
      var later := if faultAfter.Some? then Some(faultAfter.value - 1) else None;
      match InsertCandidate(db, pairs[0].ruleId, account, pairs[0].message)
      case Ok(next) =>
        var rest := InsertPairs(next, account, pairs[1..], later);
        rest.(created := rest.created + 1)
      case Err(error) =>
        if error.UniqueViolation? then InsertPairs(db, account, pairs[1..], later) else Inserted(db, 0, false)
  }

  function ScanAccount(t: Text, db: Db, account: AccountRef, run: AccountRun): Report
    requires forall id :: id in run.ruleOrder ==> id in db.rules
  {
    if account.providerType != GMAIL || run.queryFails then Report(db, 0, 0, 1)
    else if run.ruleOrder == [] then Report(db, 0, 0, 0)
    else if run.listing.None? then Report(db, 0, 0, 1)
    else
      var pairs := MatchingPairs(t, run.listing.value, ReadRules(db, run.ruleOrder));
      var r := InsertPairs(db, account.id, pairs, run.faultAfter);
      Report(r.db, 1, r.created, if r.completed then 0 else 1)
  }

  /** The rule queries list exactly the active rules of each account. */
  ghost predicate OrdersFit(db: Db, accounts: seq<AccountRef>, outside: Outside) {
    forall k :: 0 <= k < |accounts| ==> Enumerates(outside(accounts[k].id).ruleOrder, ActiveRules(db, accounts[k].id))
  }

  ghost function ScanAccounts(t: Text, db: Db, accounts: seq<AccountRef>, outside: Outside): (r: Report)
    requires OrdersFit(db, accounts, outside)
    ensures r.db.rules == db.rules && r.db.accounts == db.accounts
    decreases |accounts|
  {
    if accounts == [] then Report(db, 0, 0, 0) else
    var first := ScanAccount(t, db, accounts[0], outside(accounts[0].id));
    ScanKeepsRules(t, db, accounts[0], outside(accounts[0].id));
    assert OrdersFit(first.db, accounts[1..], outside) by {
      assert forall k :: 0 <= k < |accounts[1..]| ==> accounts[1..][k] == accounts[k + 1];
    }
    var rest := ScanAccounts(t, first.db, accounts[1..], outside);
    Report(rest.db, first.scanned + rest.scanned, first.created + rest.created, first.failed + rest.failed)
  }

  lemma {:induction false} InsertsKeepRules(db: Db, account: Id, pairs: seq<Pair>, faultAfter: Option<nat>)
    ensures var after := InsertPairs(db, account, pairs, faultAfter).db;
            after.rules == db.rules && after.accounts == db.accounts
    decreases |pairs|
  {
    if pairs != [] && faultAfter != Some(0) {
      var later := if faultAfter.Some? then Some(faultAfter.value - 1) else None;
      var r := InsertCandidate(db, pairs[0].ruleId, account, pairs[0].message);
      InsertsKeepRules(if r.Ok? then r.value else db, account, pairs[1..], later);
    }
  }

  lemma ScanKeepsRules(t: Text, db: Db, account: AccountRef, run: AccountRun)
    requires forall id :: id in run.ruleOrder ==> id in db.rules
    ensures var after := ScanAccount(t, db, account, run).db;
            after.rules == db.rules && after.accounts == db.accounts
  {
    if run.listing.Some? {
      var pairs := MatchingPairs(t, run.listing.value, ReadRules(db, run.ruleOrder));
      InsertsKeepRules(db, account.id, pairs, run.faultAfter);
    }
  }

  // ---------------------------------------------------------------------------------
  // What a scan means
  // ---------------------------------------------------------------------------------

  /** The pairs whose insert is reached before the fault. */
  ghost function Reached(pairs: seq<Pair>, faultAfter: Option<nat>): seq<Pair> {
    if faultAfter.Some? && faultAfter.value < |pairs| then pairs[..faultAfter.value] else pairs
  }

  ghost function PairKey(p: Pair): Key {
    (p.ruleId, p.message.externalMessageId)
  }

  ghost function PairKeys(pairs: seq<Pair>): set<Key> {
    set p | p in pairs :: PairKey(p)
  }

  ghost predicate FirstOfKey(pairs: seq<Pair>, i: nat)
    requires i < |pairs|
  {
    forall j :: 0 <= j < i ==> PairKey(pairs[j]) != PairKey(pairs[i])
  }

  /** The row is the pending row of the first pair with its key. */
  ghost predicate RowOfPairs(pairs: seq<Pair>, account: Id, row: Candidate) {
    exists i :: 0 <= i < |pairs| && RowOfPair(pairs, i, account, row)
  }

  ghost predicate RowOfPair(pairs: seq<Pair>, i: nat, account: Id, row: Candidate)
    requires i < |pairs|
  {
    FirstOfKey(pairs, i) && PendingFor(row, pairs[i].ruleId, account, pairs[i].message)
  }

  ghost predicate OldRowsKept(before: Db, after: Db) {
    forall id :: id in before.candidates ==> id in after.candidates && after.candidates[id] == before.candidates[id]
  }

  /** Old rows are untouched; every new row is the pending row of one of the pairs. */
  ghost predicate Grown(before: Db, after: Db, account: Id, pairs: seq<Pair>) {
    OldRowsKept(before, after) &&
    forall id :: id in after.candidates && id !in before.candidates ==> RowOfPairs(pairs, account, after.candidates[id])
  }

  ghost predicate PairsBelong(db: Db, account: Id, pairs: seq<Pair>) {
    account in db.accounts &&
    forall p :: p in pairs ==> p.ruleId in db.rules && db.rules[p.ruleId].emailAccountId == account
  }

  /** `after` is `before` with one new row for each pair whose key was not there yet. */
  ghost predicate Grew(before: Db, after: Db, account: Id, pairs: seq<Pair>, created: nat) {
    Consistent(after) && Grown(before, after, account, pairs) &&
    Keys(after) == Keys(before) + PairKeys(pairs) &&
    |after.candidates| == |before.candidates| + created
  }

  lemma {:induction false} InsertPairsMeaning(db: Db, account: Id, pairs: seq<Pair>, faultAfter: Option<nat>)
    requires Consistent(db) && PairsBelong(db, account, pairs)
    ensures var r := InsertPairs(db, account, pairs, faultAfter);
            Grew(db, r.db, account, Reached(pairs, faultAfter), r.created) &&
            (r.completed <==> Reached(pairs, faultAfter) == pairs)
    decreases |pairs|
  {
    if pairs == [] || faultAfter == Some(0) {
      assert PairKeys([]) == {};
      assert faultAfter == Some(0) ==> pairs[..0] == [];
    } else {
      var later := if faultAfter.Some? then Some(faultAfter.value - 1) else None;
      var p := pairs[0];
      assert p in pairs;
      var r := InsertCandidate(db, p.ruleId, account, p.message);
      assert Reached(pairs, faultAfter) == [p] + Reached(pairs[1..], later);
      if r.Ok? {
        InsertKeepsConsistent(db, p.ruleId, account, p.message);
        BelongLater(db, r.value, account, pairs);
        InsertPairsMeaning(r.value, account, pairs[1..], later);
        var rest := InsertPairs(r.value, account, pairs[1..], later);
        GrewByInsert(db, r.value, rest.db, account, p, Reached(pairs[1..], later), rest.created);
      } else {
        BelongLater(db, db, account, pairs);
        InsertPairsMeaning(db, account, pairs[1..], later);
        var rest := InsertPairs(db, account, pairs[1..], later);
        GrewByDuplicate(db, rest.db, account, p, Reached(pairs[1..], later), rest.created);
      }
    }
  }

  lemma BelongLater(db: Db, next: Db, account: Id, pairs: seq<Pair>)
    requires PairsBelong(db, account, pairs) && pairs != [] && next.rules == db.rules && next.accounts == db.accounts
    ensures PairsBelong(next, account, pairs[1..])
  {
    assert forall p :: p in pairs[1..] ==> p in pairs;
  }

  lemma PairKeysCons(p: Pair, rest: seq<Pair>)
    ensures PairKeys([p] + rest) == {PairKey(p)} + PairKeys(rest)
  {
    assert forall q :: q in [p] + rest <==> q == p || q in rest;
  }

  lemma GrewByInsert(db: Db, next: Db, after: Db, account: Id, p: Pair, rest: seq<Pair>, created: nat)
    requires InsertCandidate(db, p.ruleId, account, p.message) == Ok(next) && db.nextId !in db.candidates
    requires Keys(next) == Keys(db) + {PairKey(p)} && |next.candidates| == |db.candidates| + 1
    requires Grew(next, after, account, rest, created)
    ensures Grew(db, after, account, [p] + rest, created + 1)
  {
    PairKeysCons(p, rest);
    GrownByInsert(db, next, after, account, p, rest);
  }

  lemma GrownByInsert(db: Db, next: Db, after: Db, account: Id, p: Pair, rest: seq<Pair>)
    requires InsertCandidate(db, p.ruleId, account, p.message) == Ok(next) && db.nextId !in db.candidates
    requires Grown(next, after, account, rest) && KeysUnique(after)
    ensures Grown(db, after, account, [p] + rest)
  {
    forall id | id in after.candidates && id !in db.candidates
      ensures RowOfPairs([p] + rest, account, after.candidates[id])
    {
      var row := after.candidates[id];
      if id in next.candidates {
        assert RowOfPair([p] + rest, 0, account, row);
      } else {
        assert KeyOf(after.candidates[db.nextId]) == PairKey(p);
        LaterRow(p, rest, account, row);
      }
    }
  }

  lemma LaterRow(p: Pair, rest: seq<Pair>, account: Id, row: Candidate)
    requires RowOfPairs(rest, account, row) && KeyOf(row) != PairKey(p)
    ensures RowOfPairs([p] + rest, account, row)
  {
    hide RowOfPair, KeyOf, PairKey;
    var i :| 0 <= i < |rest| && RowOfPair(rest, i, account, row);
    LaterRowOfPair(p, rest, i, account, row);
  }

  lemma LaterRowOfPair(p: Pair, rest: seq<Pair>, i: nat, account: Id, row: Candidate)
    requires i < |rest| && RowOfPair(rest, i, account, row) && KeyOf(row) != PairKey(p)
    ensures RowOfPair([p] + rest, i + 1, account, row)
  {
    FirstOfKeyLater(p, rest, i);
    hide FirstOfKey;
  }

  lemma FirstOfKeyLater(p: Pair, rest: seq<Pair>, i: nat)
    requires i < |rest| && FirstOfKey(rest, i) && PairKey(p) != PairKey(rest[i])
    ensures FirstOfKey([p] + rest, i + 1)
  {
    hide PairKey;
    assert forall j :: 1 <= j < |[p] + rest| ==> ([p] + rest)[j] == rest[j - 1];
  }

  lemma GrewByDuplicate(db: Db, after: Db, account: Id, p: Pair, rest: seq<Pair>, created: nat)
    requires InsertCandidate(db, p.ruleId, account, p.message) == Err(UniqueViolation)
    requires Grew(db, after, account, rest, created)
    ensures Grew(db, after, account, [p] + rest, created)
  {
    PairKeysCons(p, rest);
    var earlier :| earlier in db.candidates && KeyOf(db.candidates[earlier]) == PairKey(p);
    forall id | id in after.candidates && id !in db.candidates
      ensures RowOfPairs([p] + rest, account, after.candidates[id])
    {
      LaterRow(p, rest, account, after.candidates[id]);
    }
  }

  /** The pairs one account contributes: those reached before its first failure. */
  ghost function Contribution(t: Text, db: Db, account: AccountRef, run: AccountRun): seq<Pair>
    requires forall id :: id in run.ruleOrder ==> id in db.rules
  {
    if account.providerType != GMAIL || run.queryFails || run.listing.None? then []
    else Reached(MatchingPairs(t, run.listing.value, ReadRules(db, run.ruleOrder)), run.faultAfter)
  }

  /** A key is among the matching pairs exactly when some listed message matches some read rule. */
  ghost predicate MatchedBy(t: Text, messages: seq<Message>, rules: seq<(Id, EmailRule)>, k: Key) {
    exists m, r :: m in messages && r in rules && Pairs(t, m, r, k)
  }

  ghost predicate Pairs(t: Text, m: Message, r: (Id, EmailRule), k: Key) {
    k == (r.0, m.externalMessageId) && MessageMatchesRule(t, m, r.1.logicalOperator, r.1.conditions)
  }

  lemma {:induction false} RulePairsMeaning(t: Text, m: Message, rules: seq<(Id, EmailRule)>, p: Pair)
    ensures p in RulePairs(t, m, rules) <==>
              p.message == m && exists r :: r in rules && Pairs(t, m, r, (p.ruleId, m.externalMessageId))
  {
    if rules != [] {
      RulePairsMeaning(t, m, rules[1..], p);
      assert rules == [rules[0]] + rules[1..];
      assert forall r :: r in rules <==> r == rules[0] || r in rules[1..];
      assert MessageMatchesRule(t, m, rules[0].1.logicalOperator, rules[0].1.conditions) <==>
             Pairs(t, m, rules[0], (rules[0].0, m.externalMessageId));
      assert p == Pair(rules[0].0, m) <==> p.ruleId == rules[0].0 && p.message == m;
    }
  }

  lemma {:induction false} MatchingPairsMeaning(t: Text, messages: seq<Message>, rules: seq<(Id, EmailRule)>, p: Pair)
    ensures p in MatchingPairs(t, messages, rules) <==>
              p.message in messages &&
              exists r :: r in rules && Pairs(t, p.message, r, (p.ruleId, p.message.externalMessageId))
  {
    if messages != [] {
      RulePairsMeaning(t, messages[0], rules, p);
      MatchingPairsMeaning(t, messages[1..], rules, p);
      assert messages == [messages[0]] + messages[1..];
    }
  }

  lemma MatchedKeys(t: Text, messages: seq<Message>, rules: seq<(Id, EmailRule)>, k: Key)
    ensures k in PairKeys(MatchingPairs(t, messages, rules)) <==> MatchedBy(t, messages, rules, k)
  {
    var pairs := MatchingPairs(t, messages, rules);
    if k in PairKeys(pairs) {
      var p :| p in pairs && (p.ruleId, p.message.externalMessageId) == k;
      MatchingPairsMeaning(t, messages, rules, p);
      var r :| r in rules && Pairs(t, p.message, r, k);
    }
    if MatchedBy(t, messages, rules, k) {
      var m, r :| m in messages && r in rules && Pairs(t, m, r, k);
      MatchingPairsMeaning(t, messages, rules, Pair(k.0, m));
    }
  }

  lemma ContributionBelongs(t: Text, db: Db, account: AccountRef, run: AccountRun)
    requires Consistent(db) && account.id in db.accounts
    requires Enumerates(run.ruleOrder, ActiveRules(db, account.id))
    ensures forall p :: p in Contribution(t, db, account, run) ==> p.ruleId in ActiveRules(db, account.id)
    ensures run.listing.Some? ==>
              PairsBelong(db, account.id, MatchingPairs(t, run.listing.value, ReadRules(db, run.ruleOrder)))
  {
    if run.listing.Some? {
      var rules := ReadRules(db, run.ruleOrder);
      var pairs := MatchingPairs(t, run.listing.value, rules);
      forall p | p in pairs
        ensures p.ruleId in ActiveRules(db, account.id)
      {
        MatchingPairsMeaning(t, run.listing.value, rules, p);
        var r :| r in rules && Pairs(t, p.message, r, (p.ruleId, p.message.externalMessageId));
        var i :| 0 <= i < |rules| && rules[i] == r;
        assert run.ruleOrder[i] == p.ruleId;
      }
    }
  }

  lemma ScanAccountMeaning(t: Text, db: Db, account: AccountRef, run: AccountRun)
    requires Consistent(db) && account.id in db.accounts
    requires Enumerates(run.ruleOrder, ActiveRules(db, account.id))
    ensures var r := ScanAccount(t, db, account, run);
            Grew(db, r.db, account.id, Contribution(t, db, account, run), r.created)
  {
    assert PairKeys([]) == {};
    if account.providerType == GMAIL && !run.queryFails && run.listing.Some? {
      ContributionBelongs(t, db, account, run);
      var pairs := MatchingPairs(t, run.listing.value, ReadRules(db, run.ruleOrder));
      InsertPairsMeaning(db, account.id, pairs, run.faultAfter);
      if run.ruleOrder == [] {
        forall k
          ensures k !in PairKeys(Reached(pairs, run.faultAfter))
        {
          MatchedKeys(t, run.listing.value, ReadRules(db, run.ruleOrder), k);
          assert forall p :: p in Reached(pairs, run.faultAfter) ==> p in pairs;
        }
      }
    }
  }

  ghost predicate AccountsExist(db: Db, accounts: seq<AccountRef>) {
    forall k :: 0 <= k < |accounts| ==> accounts[k].id in db.accounts
  }

  /** The keys all scanned accounts contribute; it depends on the rules, not on the candidates. */
  ghost function ContributedKeys(t: Text, db: Db, accounts: seq<AccountRef>, outside: Outside): set<Key>
    requires OrdersFit(db, accounts, outside)
    decreases |accounts|
  {
    if accounts == [] then {} else
    assert OrdersFit(db, accounts[1..], outside) by {
      assert forall k :: 0 <= k < |accounts[1..]| ==> accounts[1..][k] == accounts[k + 1];
    }
    PairKeys(Contribution(t, db, accounts[0], outside(accounts[0].id))) + ContributedKeys(t, db, accounts[1..], outside)
  }

  lemma {:induction false} ContributionsIgnoreCandidates(t: Text, db: Db, other: Db, accounts: seq<AccountRef>,
      outside: Outside)
    requires OrdersFit(db, accounts, outside) && other.rules == db.rules
    ensures OrdersFit(other, accounts, outside)
    ensures ContributedKeys(t, db, accounts, outside) == ContributedKeys(t, other, accounts, outside)
    decreases |accounts|
  {
    assert forall a :: ActiveRules(db, a) == ActiveRules(other, a);
    if accounts != [] {
      assert forall k :: 0 <= k < |accounts[1..]| ==> accounts[1..][k] == accounts[k + 1];
      ContributionsIgnoreCandidates(t, db, other, accounts[1..], outside);
      var run := outside(accounts[0].id);
      assert ReadRules(db, run.ruleOrder) == ReadRules(other, run.ruleOrder);
    }
  }

  /** The row is the pending row of one of the pairs that some account contributes. */
  ghost predicate RowOfScan(t: Text, db: Db, accounts: seq<AccountRef>, outside: Outside, row: Candidate)
    requires OrdersFit(db, accounts, outside)
  {
    exists i :: 0 <= i < |accounts| &&
      RowOfPairs(Contribution(t, db, accounts[i], outside(accounts[i].id)), accounts[i].id, row)
  }

  ghost predicate NewRowsOfScan(t: Text, db: Db, accounts: seq<AccountRef>, outside: Outside, after: Db)
    requires OrdersFit(db, accounts, outside)
  {
    forall id :: id in after.candidates && id !in db.candidates ==>
      RowOfScan(t, db, accounts, outside, after.candidates[id])
  }

  /** The meaning of a scan, failures included: the table grows by exactly the pairs each account
      reached before its failure, `createdCandidates` is the exact growth, old rows do not change, and
      a new row is pending and carries the message of the first pair with its key. */
  lemma {:induction false} ScanMeaning(t: Text, db: Db, accounts: seq<AccountRef>, outside: Outside)
    requires Consistent(db) && AccountsExist(db, accounts) && OrdersFit(db, accounts, outside)
    ensures var r := ScanAccounts(t, db, accounts, outside);
            ScanGrew(db, r.db, ContributedKeys(t, db, accounts, outside), r.created) &&
            NewRowsOfScan(t, db, accounts, outside, r.db)
    decreases |accounts|
  {
    if accounts != [] {
      var account, run := accounts[0], outside(accounts[0].id);
      ScanAccountMeaning(t, db, account, run);
      ScanKeepsRules(t, db, account, run);
      var first := ScanAccount(t, db, account, run);
      OrdersFitLater(db, first.db, accounts, outside);
      ContributionsIgnoreCandidates(t, db, first.db, accounts[1..], outside);
      assert AccountsExist(first.db, accounts[1..]);
      ScanMeaning(t, first.db, accounts[1..], outside);
      var rest := ScanAccounts(t, first.db, accounts[1..], outside);
      ScanGrewBoth(db, first.db, rest.db, account.id, Contribution(t, db, account, run), first.created,
        ContributedKeys(t, db, accounts[1..], outside), rest.created);
      NewRowsBoth(t, db, first.db, rest.db, accounts, outside);
    }
  }

  lemma NewRowsBoth(t: Text, db: Db, next: Db, after: Db, accounts: seq<AccountRef>, outside: Outside)
    requires accounts != [] && OrdersFit(db, accounts, outside) && OrdersFit(next, accounts[1..], outside)
    requires next.rules == db.rules && OldRowsKept(next, after)
    requires Grown(db, next, accounts[0].id, Contribution(t, db, accounts[0], outside(accounts[0].id)))
    requires NewRowsOfScan(t, next, accounts[1..], outside, after)
    ensures NewRowsOfScan(t, db, accounts, outside, after)
  {
    hide Contribution, RowOfPairs;
    forall id | id in after.candidates && id !in db.candidates
      ensures RowOfScan(t, db, accounts, outside, after.candidates[id])
    {
      if id !in next.candidates {
        var rest := accounts[1..];
        var i :| 0 <= i < |rest| &&
          RowOfPairs(Contribution(t, next, rest[i], outside(rest[i].id)), rest[i].id, after.candidates[id]);
        assert rest[i] == accounts[i + 1];
        SameContribution(t, db, next, accounts[i + 1], outside(accounts[i + 1].id));
      }
    }
  }

  lemma SameContribution(t: Text, db: Db, other: Db, account: AccountRef, run: AccountRun)
    requires other.rules == db.rules && forall id :: id in run.ruleOrder ==> id in db.rules
    ensures Contribution(t, db, account, run) == Contribution(t, other, account, run)
  {
    assert ReadRules(db, run.ruleOrder) == ReadRules(other, run.ruleOrder);
  }

  ghost predicate ScanGrew(before: Db, after: Db, keys: set<Key>, created: nat) {
    Consistent(after) && Keys(after) == Keys(before) + keys &&
    |after.candidates| == |before.candidates| + created && OldRowsKept(before, after)
  }

  lemma OrdersFitLater(db: Db, next: Db, accounts: seq<AccountRef>, outside: Outside)
    requires OrdersFit(db, accounts, outside) && accounts != [] && next.rules == db.rules
    ensures OrdersFit(db, accounts[1..], outside) && OrdersFit(next, accounts[1..], outside)
  {
    assert forall k :: 0 <= k < |accounts[1..]| ==> accounts[1..][k] == accounts[k + 1];
    assert forall a :: ActiveRules(db, a) == ActiveRules(next, a);
  }

  lemma ScanGrewBoth(db: Db, next: Db, after: Db, account: Id, pairs: seq<Pair>, created: nat, keys: set<Key>,
      more: nat)
    requires Grew(db, next, account, pairs, created) && ScanGrew(next, after, keys, more)
    ensures ScanGrew(db, after, PairKeys(pairs) + keys, created + more)
  {
  }

  /** The contributed keys of one account's rules come from that account's own run. */
  lemma {:induction false} ContributedByOwner(t: Text, db: Db, accounts: seq<AccountRef>, outside: Outside, k: Key)
    requires Consistent(db) && AccountsExist(db, accounts) && OrdersFit(db, accounts, outside) && k.0 in db.rules
    ensures k in ContributedKeys(t, db, accounts, outside) <==>
              exists i :: 0 <= i < |accounts| && accounts[i].id == db.rules[k.0].emailAccountId &&
                          k in PairKeys(Contribution(t, db, accounts[i], outside(accounts[i].id)))
    decreases |accounts|
  {
    if accounts != [] {
      var first, rest := accounts[0], accounts[1..];
      assert forall i :: 0 <= i < |rest| ==> rest[i] == accounts[i + 1];
      ContributedByOwner(t, db, rest, outside, k);
      ContributionBelongs(t, db, first, outside(first.id));
      if i :| 0 <= i < |accounts| && accounts[i].id == db.rules[k.0].emailAccountId &&
              k in PairKeys(Contribution(t, db, accounts[i], outside(accounts[i].id)))
      {
        assert i > 0 ==> rest[i - 1] == accounts[i];
      }
    }
  }

  /** A new row for a rule of this account is the row of the account's own contribution. */
  lemma RowByOwner(t: Text, db: Db, accounts: seq<AccountRef>, outside: Outside, row: Candidate)
    returns (account: AccountRef)
    requires Consistent(db) && AccountsExist(db, accounts) && OrdersFit(db, accounts, outside)
    requires RowOfScan(t, db, accounts, outside, row) && row.ruleId in db.rules
    ensures account.id == db.rules[row.ruleId].emailAccountId && account.providerType == GMAIL
    ensures Enumerates(outside(account.id).ruleOrder, ActiveRules(db, account.id))
    ensures RowOfPairs(Contribution(t, db, account, outside(account.id)), account.id, row)
  {
    var i :| 0 <= i < |accounts| &&
      RowOfPairs(Contribution(t, db, accounts[i], outside(accounts[i].id)), accounts[i].id, row);
    account := accounts[i];
    ContributionBelongs(t, db, account, outside(account.id));
  }

  lemma RowOfPairsOne(pairs: seq<Pair>, account: Id, row: Candidate, other: Candidate)
    requires RowOfPairs(pairs, account, row) && RowOfPairs(pairs, account, other) && KeyOf(row) == KeyOf(other)
    ensures row == other
  {
    var i :| 0 <= i < |pairs| && RowOfPair(pairs, i, account, row);
    var j :| 0 <= j < |pairs| && RowOfPair(pairs, j, account, other);
    assert PairKey(pairs[i]) == PairKey(pairs[j]);
  }

  /** Isolation: what a scan adds for one account, keys and contents, depends on that account's own run
      only, whatever fails elsewhere. */
  lemma FailureIsolated(t: Text, db: Db, accounts: seq<AccountRef>, outside: Outside, other: Outside, account: Id,
      k: Key)
    requires Consistent(db) && AccountsExist(db, accounts)
    requires OrdersFit(db, accounts, outside) && OrdersFit(db, accounts, other)
    requires outside(account) == other(account)
    requires k.0 in db.rules && db.rules[k.0].emailAccountId == account
    ensures var one, two := ScanAccounts(t, db, accounts, outside).db, ScanAccounts(t, db, accounts, other).db;
            (k in Keys(one) <==> k in Keys(two)) &&
            forall id, jd :: id in one.candidates && jd in two.candidates &&
                             KeyOf(one.candidates[id]) == k == KeyOf(two.candidates[jd]) ==>
              one.candidates[id] == two.candidates[jd]
  {
    hide ScanAccounts, ContributedKeys;
    ScanMeaning(t, db, accounts, outside);
    ScanMeaning(t, db, accounts, other);
    ContributedByOwner(t, db, accounts, outside, k);
    ContributedByOwner(t, db, accounts, other, k);
    var one, two := ScanAccounts(t, db, accounts, outside).db, ScanAccounts(t, db, accounts, other).db;
    forall id, jd | id in one.candidates && jd in two.candidates &&
      KeyOf(one.candidates[id]) == k == KeyOf(two.candidates[jd])
      ensures one.candidates[id] == two.candidates[jd]
    {
      SameRowInBoth(t, db, accounts, outside, other, account, one, two, id, jd);
    }
  }

  lemma SameRowInBoth(t: Text, db: Db, accounts: seq<AccountRef>, outside: Outside, other: Outside, account: Id,
      one: Db, two: Db, id: Id, jd: Id)
    requires Consistent(db) && AccountsExist(db, accounts) && OrdersFit(db, accounts, outside) &&
             OrdersFit(db, accounts, other)
    requires outside(account) == other(account)
    requires KeysUnique(one) && OldRowsKept(db, one) && NewRowsOfScan(t, db, accounts, outside, one)
    requires KeysUnique(two) && OldRowsKept(db, two) && NewRowsOfScan(t, db, accounts, other, two)
    requires id in one.candidates && jd in two.candidates && KeyOf(one.candidates[id]) == KeyOf(two.candidates[jd])
    requires one.candidates[id].ruleId in db.rules && db.rules[one.candidates[id].ruleId].emailAccountId == account
    ensures one.candidates[id] == two.candidates[jd]
  {
    hide RowOfPairs, RowOfScan, Contribution;
    if id in db.candidates || jd in db.candidates {
      assert id in db.candidates ==> KeyOf(two.candidates[id]) == KeyOf(two.candidates[jd]);
      assert jd in db.candidates ==> KeyOf(one.candidates[jd]) == KeyOf(one.candidates[id]);
    } else {
      var a := RowByOwner(t, db, accounts, outside, one.candidates[id]);
      var b := RowByOwner(t, db, accounts, other, two.candidates[jd]);
      assert a == b;
      RowOfPairsOne(Contribution(t, db, a, outside(account)), account, one.candidates[id], two.candidates[jd]);
    }
  }

  // ---------------------------------------------------------------------------------
  // Scanning again, and scanning after a rule edit
  // ---------------------------------------------------------------------------------

  /** The account is scanned to its end. */
  ghost predicate Finishes(run: AccountRun) {
    !run.queryFails && run.listing.Some? && run.faultAfter.None?
  }

  ghost predicate SameMailbox(first: AccountRun, second: AccountRun) {
    second.listing.Some? ==> second.listing == first.listing
  }

  lemma ContributionWithin(t: Text, db: Db, account: AccountRef, first: AccountRun, second: AccountRun)
    requires Enumerates(first.ruleOrder, ActiveRules(db, account.id)) &&
             Enumerates(second.ruleOrder, ActiveRules(db, account.id))
    requires Finishes(first) && SameMailbox(first, second)
    ensures PairKeys(Contribution(t, db, account, second)) <= PairKeys(Contribution(t, db, account, first))
  {
    if account.providerType == GMAIL && !second.queryFails && second.listing.Some? {
      var messages := first.listing.value;
      var earlier, later := ReadRules(db, first.ruleOrder), ReadRules(db, second.ruleOrder);
      var pairs := MatchingPairs(t, messages, later);
      forall k | k in PairKeys(Contribution(t, db, account, second))
        ensures k in PairKeys(Contribution(t, db, account, first))
      {
        var p :| p in Contribution(t, db, account, second) && (p.ruleId, p.message.externalMessageId) == k;
        assert p in pairs;
        MatchedKeys(t, messages, later, k);
        var m, r :| m in messages && r in later && Pairs(t, m, r, k);
        var i :| 0 <= i < |later| && later[i] == r;
        assert second.ruleOrder[i] in first.ruleOrder;
        var j :| 0 <= j < |first.ruleOrder| && first.ruleOrder[j] == r.0;
        assert earlier[j] == r;
        MatchedKeys(t, messages, earlier, k);
      }
    }
  }

  /** Scanning unchanged mailboxes with unchanged rules again creates only rows of accounts that the
      first scan did not finish; if it finished all of them, it creates nothing. */
  lemma RescanCreatesNothing(t: Text, db: Db, accounts: seq<AccountRef>, first: Outside, second: Outside)
    requires Consistent(db) && AccountsExist(db, accounts)
    requires OrdersFit(db, accounts, first) && OrdersFit(db, accounts, second)
    requires forall i :: 0 <= i < |accounts| && Finishes(first(accounts[i].id)) ==>
               SameMailbox(first(accounts[i].id), second(accounts[i].id))
    ensures var once := ScanAccounts(t, db, accounts, first).db;
            OrdersFit(once, accounts, second) &&
            var again := ScanAccounts(t, once, accounts, second);
            (forall k :: k in Keys(again.db) && k !in Keys(once) ==>
               k.0 in db.rules && LeftUnfinished(accounts, first, db.rules[k.0].emailAccountId)) &&
            ((forall i :: 0 <= i < |accounts| ==> Finishes(first(accounts[i].id))) ==> again.created == 0)
  {
    hide ScanAccounts, ContributedKeys, Contribution;
    ScanMeaning(t, db, accounts, first);
    var once := ScanAccounts(t, db, accounts, first).db;
    assert once.rules == db.rules;
    ContributionsIgnoreCandidates(t, db, once, accounts, second);
    ScanMeaning(t, once, accounts, second);
    var again := ScanAccounts(t, once, accounts, second);
    forall k | k in Keys(again.db) && k !in Keys(once)
      ensures k.0 in db.rules && LeftUnfinished(accounts, first, db.rules[k.0].emailAccountId)
    {
      KeyHasRule(again.db, k);
      ContributedByOwner(t, db, accounts, first, k);
      ContributedByOwner(t, db, accounts, second, k);
      var i :| 0 <= i < |accounts| && accounts[i].id == db.rules[k.0].emailAccountId &&
               k in PairKeys(Contribution(t, db, accounts[i], second(accounts[i].id)));
      if Finishes(first(accounts[i].id)) {
        ContributionWithin(t, db, accounts[i], first(accounts[i].id), second(accounts[i].id));
      }
    }
    if forall i :: 0 <= i < |accounts| ==> Finishes(first(accounts[i].id)) {
      assert Keys(again.db) == Keys(once);
      RowsPerKey(once);
      RowsPerKey(again.db);
    }
  }

  ghost predicate LeftUnfinished(accounts: seq<AccountRef>, run: Outside, account: Id) {
    exists i :: 0 <= i < |accounts| && accounts[i].id == account && !Finishes(run(account))
  }

  lemma KeyHasRule(db: Db, k: Key)
    requires Consistent(db) && k in Keys(db)
    ensures k.0 in db.rules
  {
    var id :| id in db.candidates && KeyOf(db.candidates[id]) == k;
    assert CandidateConsistent(db, db.candidates[id]);
  }

  /** The edit that adds one condition to a rule through the update route. */
  ghost function WithCondition(db: Db, ruleId: Id, c: Condition): Db
    requires ruleId in db.rules && db.rules[ruleId].emailAccountId in db.accounts
  {
    var owner := db.accounts[db.rules[ruleId].emailAccountId].userId;
    UpdateRule(db, owner, ruleId, RulePatch(None, None, None, Some(db.rules[ruleId].conditions + [c]))).value
  }

  ghost predicate MatchesLess(t: Text, less: Db, more: Db) {
    less.rules.Keys == more.rules.Keys && less.accounts == more.accounts &&
    (forall id :: id in less.rules ==>
       less.rules[id].emailAccountId == more.rules[id].emailAccountId &&
       less.rules[id].isActive == more.rules[id].isActive) &&
    (forall id, m :: id in less.rules && Matches(t, less, id, m) ==> Matches(t, more, id, m))
  }

  ghost predicate Matches(t: Text, db: Db, id: Id, m: Message)
    requires id in db.rules
  {
    MessageMatchesRule(t, m, db.rules[id].logicalOperator, db.rules[id].conditions)
  }

  ghost predicate SameRules(less: Db, more: Db, account: Id) {
    forall id :: id in less.rules && less.rules[id].emailAccountId == account ==>
      id in more.rules && more.rules[id] == less.rules[id]
  }

  lemma {:induction false} NarrowerRulesContributeLess(t: Text, less: Db, more: Db, accounts: seq<AccountRef>,
      outside: Outside)
    requires MatchesLess(t, less, more) && OrdersFit(less, accounts, outside)
    requires forall k :: 0 <= k < |accounts| ==>
               outside(accounts[k].id).faultAfter.None? || SameRules(less, more, accounts[k].id)
    ensures OrdersFit(more, accounts, outside)
    ensures ContributedKeys(t, less, accounts, outside) <= ContributedKeys(t, more, accounts, outside)
    decreases |accounts|
  {
    assert forall a :: ActiveRules(less, a) == ActiveRules(more, a);
    hide MatchesLess, SameRules, Contribution;
    if accounts != [] {
      assert forall k :: 0 <= k < |accounts[1..]| ==> accounts[1..][k] == accounts[k + 1];
      NarrowerRulesContributeLess(t, less, more, accounts[1..], outside);
      NarrowerRulesInAccount(t, less, more, accounts[0], outside(accounts[0].id));
    }
  }

  lemma ReadRulesAgree(db: Db, other: Db, order: seq<Id>)
    requires forall id :: id in order ==> id in db.rules && id in other.rules && other.rules[id] == db.rules[id]
    ensures ReadRules(db, order) == ReadRules(other, order)
  {
  }

  lemma NarrowerRulesInAccount(t: Text, less: Db, more: Db, account: AccountRef, run: AccountRun)
    requires MatchesLess(t, less, more) && Enumerates(run.ruleOrder, ActiveRules(less, account.id))
    requires run.faultAfter.None? || SameRules(less, more, account.id)
    ensures PairKeys(Contribution(t, less, account, run)) <= PairKeys(Contribution(t, more, account, run))
  {
    hide MatchesLess;
    assert forall id :: id in run.ruleOrder ==> id in ActiveRules(less, account.id);
    if SameRules(less, more, account.id) {
      ReadRulesAgree(less, more, run.ruleOrder);
    } else if account.providerType == GMAIL && !run.queryFails && run.listing.Some? {
      NarrowerRulesMatchLess(t, less, more, run.listing.value, run.ruleOrder);
    }
  }

  lemma NarrowerRulesMatchLess(t: Text, less: Db, more: Db, messages: seq<Message>, order: seq<Id>)
    requires MatchesLess(t, less, more) && forall id :: id in order ==> id in less.rules
    ensures PairKeys(MatchingPairs(t, messages, ReadRules(less, order))) <=
              PairKeys(MatchingPairs(t, messages, ReadRules(more, order)))
  {
    var narrow, wide := ReadRules(less, order), ReadRules(more, order);
    forall k | k in PairKeys(MatchingPairs(t, messages, narrow))
      ensures k in PairKeys(MatchingPairs(t, messages, wide))
    {
      MatchedKeys(t, messages, narrow, k);
      var m, r :| m in messages && r in narrow && Pairs(t, m, r, k);
      var i :| 0 <= i < |narrow| && narrow[i] == r;
      assert Matches(t, less, order[i], m);
      assert wide[i] in wide && Pairs(t, m, wide[i], k);
      MatchedKeys(t, messages, wide, k);
    }
  }

  /** Rule edits lifted to scans: adding a condition to a non-empty AND rule only shrinks what the
      next scan queues, adding one to an OR rule only grows it, when no database failure cuts the scan
      of the rule's own account short. */
  lemma AddedConditionAndScan(t: Text, db: Db, ruleId: Id, c: Condition, accounts: seq<AccountRef>, outside: Outside)
    requires Consistent(db) && ruleId in db.rules && AccountsExist(db, accounts) && OrdersFit(db, accounts, outside)
    requires outside(db.rules[ruleId].emailAccountId).faultAfter.None?
    ensures var edited := WithCondition(db, ruleId, c);
            OrdersFit(edited, accounts, outside) &&
            var before, after := Keys(ScanAccounts(t, db, accounts, outside).db),
                Keys(ScanAccounts(t, edited, accounts, outside).db);
            (db.rules[ruleId].logicalOperator.AND? && db.rules[ruleId].conditions != [] ==> after <= before) &&
            (db.rules[ruleId].logicalOperator.OR? ==> before <= after)
  {
    var edited := WithCondition(db, ruleId, c);
    var rule := db.rules[ruleId];
    EditedRule(db, ruleId, c);
    EditFits(db, edited, accounts, outside);
    EditNarrowsOrWidens(t, db, ruleId, c);
    assert forall a :: a != rule.emailAccountId ==> SameRules(db, edited, a) && SameRules(edited, db, a);
    hide MatchesLess, SameRules, WithCondition, ScanAccounts, ContributedKeys, NewRowsOfScan, Consistent;
    if rule.logicalOperator.AND? && rule.conditions != [] {
      NarrowerScan(t, edited, db, accounts, outside, rule.emailAccountId);
    }
    if rule.logicalOperator.OR? {
      NarrowerScan(t, db, edited, accounts, outside, rule.emailAccountId);
    }
  }

  lemma NarrowerScan(t: Text, less: Db, more: Db, accounts: seq<AccountRef>, outside: Outside, edited: Id)
    requires Consistent(less) && Consistent(more) && Keys(less) == Keys(more) && MatchesLess(t, less, more)
    requires AccountsExist(less, accounts) && OrdersFit(less, accounts, outside) && OrdersFit(more, accounts, outside)
    requires outside(edited).faultAfter.None? && forall a :: a != edited ==> SameRules(less, more, a)
    ensures Keys(ScanAccounts(t, less, accounts, outside).db) <= Keys(ScanAccounts(t, more, accounts, outside).db)
  {
    assert AccountsExist(more, accounts);
    hide MatchesLess, SameRules, ScanAccounts, ContributedKeys, NewRowsOfScan, Consistent;
    ScanMeaning(t, less, accounts, outside);
    ScanMeaning(t, more, accounts, outside);
    NarrowerRulesContributeLess(t, less, more, accounts, outside);
  }

  lemma EditedRule(db: Db, ruleId: Id, c: Condition)
    requires Consistent(db) && ruleId in db.rules
    ensures var edited, rule := WithCondition(db, ruleId, c), db.rules[ruleId];
            edited == db.(rules := db.rules[ruleId := rule.(conditions := rule.conditions + [c])]) &&
            Consistent(edited) && Keys(edited) == Keys(db)
  {
    var rule := db.rules[ruleId];
    UpdateRuleKeepsConsistent(db, db.accounts[rule.emailAccountId].userId, ruleId,
      RulePatch(None, None, None, Some(rule.conditions + [c])));
  }

  lemma EditNarrowsOrWidens(t: Text, db: Db, ruleId: Id, c: Condition)
    requires Consistent(db) && ruleId in db.rules
    ensures var edited, rule := WithCondition(db, ruleId, c), db.rules[ruleId];
            (rule.logicalOperator.AND? && rule.conditions != [] ==> MatchesLess(t, edited, db)) &&
            (rule.logicalOperator.OR? ==> MatchesLess(t, db, edited))
  {
    var edited, rule := WithCondition(db, ruleId, c), db.rules[ruleId];
    EditedRule(db, ruleId, c);
    forall id, m | id in db.rules
      ensures rule.logicalOperator.OR? && Matches(t, db, id, m) ==> Matches(t, edited, id, m)
      ensures rule.logicalOperator.AND? && rule.conditions != [] && Matches(t, edited, id, m) ==> Matches(t, db, id, m)
    {
      AddedCondition(t, m, rule.conditions, c);
    }
  }

  lemma EditFits(db: Db, edited: Db, accounts: seq<AccountRef>, outside: Outside)
    requires OrdersFit(db, accounts, outside) && edited.rules.Keys == db.rules.Keys
    requires forall id :: id in db.rules ==>
               edited.rules[id].emailAccountId == db.rules[id].emailAccountId &&
               edited.rules[id].isActive == db.rules[id].isActive
    ensures OrdersFit(edited, accounts, outside)
  {
    assert forall a :: ActiveRules(db, a) == ActiveRules(edited, a);
  }
}
