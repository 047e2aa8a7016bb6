/** The mail services as classes over the tables, each method proved against its specification. */
module MailServices {
  import opened Wrappers
  import opened RuleMatcher
  import opened MailTables
  import opened MailScan
  import opened MailSteps
  import opened MailMeaning

  class MailDatabase {
    var emailAccounts: map<Id, EmailAccount>
    var emailRules: map<Id, EmailRule>
    var emailCandidates: map<Id, Candidate>
    var nextId: Id

    function Tables(): Db
      reads this
    {
      Db(emailAccounts, emailRules, emailCandidates, nextId)
    }

    constructor ()
      ensures Tables() == Db(map[], map[], map[], 0) && Consistent(Tables())
    {
      emailAccounts, emailRules, emailCandidates, nextId := map[], map[], map[], 0;
    }

    method FreshId() returns (id: Id)
      modifies this`nextId
      ensures id == old(nextId) && nextId == id + 1
    {
      id := nextId;
      nextId := nextId + 1;
    }

    /** `emailCandidate.create`, with the errors the constraints raise. */
    method CreateCandidate(ruleId: Id, accountId: Id, m: Message) returns (error: Option<DbError>)
      modifies this`emailCandidates, this`nextId
      ensures match InsertCandidate(old(Tables()), ruleId, accountId, m)
              case Ok(after) => error == None && Tables() == after
              case Err(e) => error == Some(e) && Tables() == old(Tables())
    {
      if ruleId !in emailRules || accountId !in emailAccounts {
        return Some(ForeignKeyViolation);
      }
      if (ruleId, m.externalMessageId) in Keys(Tables()) {
        return Some(UniqueViolation);
      }
      var id := FreshId();
      emailCandidates := emailCandidates[id := PendingRow(ruleId, accountId, m)];
      error := None;
    }
  }

  /** The mailbox behind the provider; an action either takes effect or not, and may be reported lost. */
  class MailboxProvider {
    var mailbox: Mailbox

    method ApplyAction(accountId: Id, messageId: string, action: MailAction,
        outcome: ProviderOutcome) returns (ok: bool)
      modifies this
      ensures ok == outcome.Succeeds?
      ensures mailbox == if outcome.FailsBefore? then old(mailbox) else old(mailbox) + {(accountId, messageId, action)}
    {
      if !outcome.FailsBefore? {
        mailbox := mailbox + {(accountId, messageId, action)};
      }
      ok := outcome.Succeeds?;
    }
  }

  class CandidatesService {
    const prisma: MailDatabase
    const provider: MailboxProvider
    const text: Text

    constructor (prisma: MailDatabase, provider: MailboxProvider, text: Text)
      ensures this.prisma == prisma && this.provider == provider && this.text == text
    {
      this.prisma, this.provider, this.text := prisma, provider, text;
    }

    /** The scan loop: accounts, messages, rules; duplicates are skipped, and an exception ends the
        current account only. */
    method ScanAll(accounts: seq<AccountRef>, outside: Outside)
      returns (scannedAccounts: nat, createdCandidates: nat, failedAccounts: nat)
      requires OrdersFit(prisma.Tables(), accounts, outside)
      modifies prisma`emailCandidates, prisma`nextId
      ensures Report(prisma.Tables(), scannedAccounts, createdCandidates, failedAccounts) ==
                ScanAccounts(text, old(prisma.Tables()), accounts, outside)
      ensures Consistent(old(prisma.Tables())) && AccountsExist(old(prisma.Tables()), accounts) ==>
                ScanMeans(text, old(prisma.Tables()), accounts, outside,
                          Report(prisma.Tables(), scannedAccounts, createdCandidates, failedAccounts))
    {
      hide ScanMeans, Consistent, AccountsExist;
      hide InsertPairs, MatchingPairs;
      scannedAccounts, createdCandidates, failedAccounts := 0, 0, 0;
      assert accounts[0..] == accounts;
      for i := 0 to |accounts|
        invariant OrdersFit(prisma.Tables(), accounts[i..], outside)
        invariant ScanAccounts(text, old(prisma.Tables()), accounts, outside) ==
                  Added(scannedAccounts, createdCandidates, failedAccounts,
                        ScanAccounts(text, prisma.Tables(), accounts[i..], outside))
      {
        ghost var before := prisma.Tables();
        var account, run := accounts[i], outside(accounts[i].id);
        assert accounts[i..][0] == account && accounts[i..][1..] == accounts[i + 1..];
        ScanKeepsRules(text, before, account, run);
        OrdersFitLater(before, ScanAccount(text, before, account, run).db, accounts[i..], outside);
        var failed := false;
        if account.providerType != GMAIL || run.queryFails {
          failed := true;
        } else {
          var rules := ReadRules(prisma.Tables(), run.ruleOrder);
          if |rules| != 0 {
            if run.listing.None? {
              failed := true;
            } else {
              scannedAccounts := scannedAccounts + 1;
              var created, completed := QueueMatches(account.id, run.listing.value, rules, run.faultAfter);
              createdCandidates := createdCandidates + created;
              failed := !completed;
            }
          }
        }
        if failed {
          failedAccounts := failedAccounts + 1;
        }
      }
      if Consistent(old(prisma.Tables())) && AccountsExist(old(prisma.Tables()), accounts) {
        ScanMeansAll(text, old(prisma.Tables()), accounts, outside);
      }
    }

    /** The loop over one account's messages. */
    method QueueMatches(accountId: Id, messages: seq<Message>, rules: seq<(Id, EmailRule)>, faultAfter: Option<nat>)
      returns (created: nat, completed: bool)
      modifies prisma`emailCandidates, prisma`nextId
      ensures Inserted(prisma.Tables(), created, completed) ==
                InsertPairs(old(prisma.Tables()), accountId, MatchingPairs(text, messages, rules), faultAfter)
    {
      hide InsertPairs, RulePairs;
      created, completed := 0, true;
      var left := faultAfter;
      ghost var goal := InsertPairs(prisma.Tables(), accountId, MatchingPairs(text, messages, rules), faultAfter);
      assert messages[0..] == messages;
      for i := 0 to |messages|
        invariant completed
        invariant goal ==
                    More(created,
                         InsertPairs(prisma.Tables(), accountId, MatchingPairs(text, messages[i..], rules), left))
      {
        ghost var later := MatchingPairs(text, messages[i + 1..], rules);
        assert messages[i..][0] == messages[i] && messages[i..][1..] == messages[i + 1..];
        var more;
        more, completed, left := QueueMessage(accountId, messages[i], rules, left, later);
        created := created + more;
        if !completed {
          return;
        }
      }
      NoPairs(prisma.Tables(), accountId, left);
    }

    /** The loop over the rules for one message; `later` are the pairs still to come. */
    method QueueMessage(accountId: Id, message: Message, rules: seq<(Id, EmailRule)>, faultAfter: Option<nat>,
                        ghost later: seq<Pair>)
      returns (created: nat, completed: bool, left: Option<nat>)
      modifies prisma`emailCandidates, prisma`nextId
      ensures InsertPairs(old(prisma.Tables()), accountId, RulePairs(text, message, rules) + later, faultAfter) ==
                More(created, if completed then InsertPairs(prisma.Tables(), accountId, later, left)
                              else Inserted(prisma.Tables(), 0, false))
    {
      hide MessageMatchesRule, InsertCandidate;
      created, completed, left := 0, true, faultAfter;
      ghost var goal := InsertPairs(prisma.Tables(), accountId, RulePairs(text, message, rules) + later, faultAfter);
      assert rules[0..] == rules;
      for j := 0 to |rules|
        invariant completed
        invariant goal ==
                    More(created,
                         InsertPairs(prisma.Tables(), accountId, RulePairs(text, message, rules[j..]) + later, left))
      {
        var rule := rules[j];
        assert rules[j..][0] == rule && rules[j..][1..] == rules[j + 1..];
        if MessageMatchesRule(text, message, rule.1.logicalOperator, rule.1.conditions) {
          ghost var rest := RulePairs(text, message, rules[j + 1..]) + later;
          assert RulePairs(text, message, rules[j..]) + later == [Pair(rule.0, message)] + rest;
          assert ([Pair(rule.0, message)] + rest)[1..] == rest;
          if left == Some(0) {
            completed := false;
            return;
          }
          left := if left.Some? then Some(left.value - 1) else None;
          var error := prisma.CreateCandidate(rule.0, accountId, message);
          if error == None {
            created := created + 1;
          } else if error != Some(UniqueViolation) {
            completed := false;
            return;
          }
        }
      }
      assert RulePairs(text, message, rules[|rules|..]) + later == later;
    }

    /** Approve: find the owned candidate, act on the mailbox if its rule asks for it, then mark it. */
    method Approve(userId: Id, id: Id, outcome: ProviderOutcome, now: int) returns (r: Result<(), ServiceError>)
      requires Consistent(prisma.Tables())
      modifies prisma`emailCandidates, provider
      ensures r.Ok? ==>
                var clean := CleanApprove(text, State(old(prisma.Tables()), [], [], old(provider.mailbox), [], 0),
                                          userId, id, now);
                prisma.Tables() == clean.db && provider.mailbox == clean.mailbox
      ensures r.Err? ==> prisma.Tables() == old(prisma.Tables())
      ensures r.Ok? <==> Completes(old(prisma.Tables()), userId, id) &&
                         (outcome.Succeeds? || MailboxEffect(old(prisma.Tables()), userId, id) == {})
      ensures r.Ok? <==> Approvable(old(prisma.Tables()), userId, id) &&
                         (outcome.Succeeds? || Asked(old(prisma.Tables()), id) == {})
      ensures r.Ok? ==> Settled(old(prisma.Tables()), prisma.Tables(), id, APPROVED, now) &&
                        provider.mailbox == old(provider.mailbox) + Asked(old(prisma.Tables()), id)
      ensures r == Err(NotFound) <==> !OwnedCandidate(old(prisma.Tables()), userId, id)
      ensures r.Err? && (r.error != ProviderFailed || outcome.FailsBefore?) ==>
                provider.mailbox == old(provider.mailbox)
    {
      ghost var db := prisma.Tables();
      EffectMeaning(db, userId, id);
      ApproveMeaning(text, State(db, [], [], provider.mailbox, [], 0), userId, id, now);
      ApproveEffect(text, State(db, [], [], provider.mailbox, [], 0), userId, id, now);
      var found := FindOwned(prisma.Tables(), userId, id);
      if found.Err? {
        return Err(found.error);
      }
      var candidate := found.value;
      assert CandidateConsistent(db, candidate);
      var actionType := prisma.emailRules[candidate.ruleId].actionType;
      if actionType == DELETE_CANDIDATE || actionType == SPAM_CANDIDATE {
        if prisma.emailAccounts[candidate.emailAccountId].providerType != GMAIL {
          return Err(UnsupportedProvider);
        }
        var action := if actionType == DELETE_CANDIDATE then Delete else Spam;
        var ok := provider.ApplyAction(candidate.emailAccountId, candidate.externalMessageId, action, outcome);
        if !ok {
          return Err(ProviderFailed);
        }
      }
      prisma.emailCandidates := prisma.emailCandidates[id := prisma.emailCandidates[id].(status := APPROVED,
                                                                                         processedAt := Some(now))];
      r := Ok(());
    }

    method Exclude(userId: Id, id: Id, now: int) returns (r: Result<(), ServiceError>)
      modifies prisma`emailCandidates
      ensures match MailTables.Exclude(old(prisma.Tables()), userId, id, now)
              case Ok(after) => r == Ok(()) && prisma.Tables() == after
              case Err(e) => r == Err(e) && prisma.Tables() == old(prisma.Tables())
      ensures r.Ok? <==> OwnedCandidate(old(prisma.Tables()), userId, id)
      ensures r.Ok? ==> Settled(old(prisma.Tables()), prisma.Tables(), id, EXCLUDED, now)
    {
      var found := FindOwned(prisma.Tables(), userId, id);
      if found.Err? {
        return Err(found.error);
      }
      prisma.emailCandidates := prisma.emailCandidates[id := prisma.emailCandidates[id].(status := EXCLUDED,
                                                                                         processedAt := Some(now))];
      r := Ok(());
    }
  }

  lemma NoPairs(db: Db, account: Id, faultAfter: Option<nat>)
    ensures InsertPairs(db, account, [], faultAfter) == Inserted(db, 0, true)
  {
  }

  function Added(scanned: nat, created: nat, failed: nat, r: Report): Report {
    Report(r.db, scanned + r.scanned, created + r.created, failed + r.failed)
  }

  function More(created: nat, r: Inserted): Inserted {
    r.(created := created + r.created)
  }

  class RulesService {
    const prisma: MailDatabase

    constructor (prisma: MailDatabase)
      ensures this.prisma == prisma
    {
      this.prisma := prisma;
    }

    method Create(userId: Id, data: NewRule) returns (r: Result<Id, ServiceError>)
      modifies prisma`emailRules, prisma`nextId
      ensures match CreateRule(old(prisma.Tables()), userId, data)
              case Ok(after) => r == Ok(old(prisma.nextId)) && prisma.Tables() == after
              case Err(e) => r == Err(e) && prisma.Tables() == old(prisma.Tables())
    {
      if !OwnsAccount(prisma.Tables(), userId, data.emailAccountId) {
        return Err(NotFound);
      }
      var id := prisma.FreshId();
      prisma.emailRules := prisma.emailRules[id := EmailRule(data.emailAccountId, data.logicalOperator,
                                                             data.actionType, true, data.conditions)];
      r := Ok(id);
    }

    /** In one transaction: conditions are deleted first, then the given fields are written. */
    method Update(userId: Id, id: Id, data: RulePatch) returns (r: Result<(), ServiceError>)
      modifies prisma`emailRules
      ensures match UpdateRule(old(prisma.Tables()), userId, id, data)
              case Ok(after) => r == Ok(()) && prisma.Tables() == after
              case Err(e) => r == Err(e) && prisma.Tables() == old(prisma.Tables())
    {
      if !OwnsRule(prisma.Tables(), userId, id) {
        return Err(NotFound);
      }
      var row := prisma.emailRules[id];
      if data.conditions.Some? {
        row := row.(conditions := []);
      }
      if data.logicalOperator.Some? {
        row := row.(logicalOperator := data.logicalOperator.value);
      }
      if data.actionType.Some? && data.actionType.value != "" {
        row := row.(actionType := data.actionType.value);
      }
      if data.isActive.Some? {
        row := row.(isActive := data.isActive.value);
      }
      if data.conditions.Some? {
        assert [] + data.conditions.value == data.conditions.value;
        row := row.(conditions := row.conditions + data.conditions.value);
      }
      prisma.emailRules := prisma.emailRules[id := row];
      r := Ok(());
    }

    method Remove(userId: Id, id: Id) returns (r: Result<(), ServiceError>)
      modifies prisma`emailRules, prisma`emailCandidates
      ensures match RemoveRule(old(prisma.Tables()), userId, id)
              case Ok(after) => r == Ok(()) && prisma.Tables() == after
              case Err(e) => r == Err(e) && prisma.Tables() == old(prisma.Tables())
    {
      if !OwnsRule(prisma.Tables(), userId, id) {
        return Err(NotFound);
      }
      var gone := CandidatesOfRules(prisma.Tables(), {id});
      prisma.emailRules := prisma.emailRules - {id};
      prisma.emailCandidates := prisma.emailCandidates - gone;
      r := Ok(());
    }
  }

  class EmailAccountsService {
    const prisma: MailDatabase

    constructor (prisma: MailDatabase)
      ensures this.prisma == prisma
    {
      this.prisma := prisma;
    }

    method CreateFromGmail(userId: Id, email: string) returns (id: Id)
      modifies prisma`emailAccounts, prisma`nextId
      ensures id == old(prisma.nextId) && prisma.Tables() == ConnectAccount(old(prisma.Tables()), userId, email)
    {
      id := prisma.FreshId();
      prisma.emailAccounts := prisma.emailAccounts[id := EmailAccount(userId, GMAIL, email, true)];
    }

    method Remove(userId: Id, id: Id) returns (r: Result<(), ServiceError>)
      modifies prisma`emailAccounts, prisma`emailRules, prisma`emailCandidates
      ensures match Disconnect(old(prisma.Tables()), userId, id)
              case Ok(after) => r == Ok(()) && prisma.Tables() == after
              case Err(e) => r == Err(e) && prisma.Tables() == old(prisma.Tables())
    {
      if !OwnsAccount(prisma.Tables(), userId, id) {
        return Err(NotFound);
      }
      var rules := RulesOfAccount(prisma.Tables(), id);
      var ofRules, ofAccount := CandidatesOfRules(prisma.Tables(), rules), CandidatesOfAccount(prisma.Tables(), id);
      prisma.emailCandidates := prisma.emailCandidates - ofRules - ofAccount;
      prisma.emailRules := prisma.emailRules - rules;
      prisma.emailAccounts := prisma.emailAccounts - {id};
      r := Ok(());
    }
  }
}
