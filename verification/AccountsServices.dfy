/** The accounts service as a class over the tables, each method proved against its specification. */
module AccountsServices {
  import opened Wrappers
  import opened Platform
  import opened Vault
  import opened VaultMeaning
  import opened Auth

  class Database {
    var users: seq<User>
    var accounts: seq<Row>
    var trustedDevices: seq<Device>
    var nextId: Id

    function Tables(): Db
      reads this
    {
      Db(users, accounts, trustedDevices, nextId)
    }

    constructor ()
      ensures Tables() == Db([], [], [], 0)
    {
      users, accounts, trustedDevices, nextId := [], [], [], 0;
    }

    /** `account.create`: false when the unique key is taken. */
    method CreateAccount(row: Row) returns (ok: bool)
      modifies this`accounts, this`nextId
      ensures ok == !Taken(old(accounts), KeyOf(row))
      ensures Tables() == if ok then old(Tables()).(accounts := old(accounts) + [row], nextId := old(nextId) + 1)
              else old(Tables())
    {
      for k := 0 to |accounts|
        invariant forall i :: 0 <= i < k ==> KeyOf(accounts[i]) != KeyOf(row)
      {
        if KeyOf(accounts[k]) == KeyOf(row) {
          return false;
        }
      }
      accounts := accounts + [row];
      nextId := nextId + 1;
      ok := true;
    }

    /** `account.update`: false when the new key is another row's. */
    method UpdateAccount(i: nat, row: Row) returns (ok: bool)
      requires i < |accounts|
      modifies this`accounts
      ensures ok == !TakenByOther(old(accounts), i, KeyOf(row))
      ensures Tables() == if ok then old(Tables()).(accounts := old(accounts)[i := row]) else old(Tables())
    {
      for k := 0 to |accounts|
        invariant forall j :: 0 <= j < k && j != i ==> KeyOf(accounts[j]) != KeyOf(row)
      {
        if k != i && KeyOf(accounts[k]) == KeyOf(row) {
          return false;
        }
      }
      accounts := accounts[i := row];
      ok := true;
    }
  }

  class AccountsService {
    const prisma: Database
    const crypto: Platform

    constructor (prisma: Database, crypto: Platform)
      ensures this.prisma == prisma && this.crypto == crypto
    {
      this.prisma, this.crypto := prisma, crypto;
    }

    method FindOne(userId: Id, id: Id, encryptionKey: Bytes) returns (r: Result<Entry, AccountError>)
      ensures r == ReadRow(crypto, prisma.accounts, userId, id, encryptionKey)
    {
      var account := Find(prisma.accounts, userId, id);
      if account.None? {
        return Err(NotFound);
      }
      var row := prisma.accounts[account.value];
      var password := crypto.open(encryptionKey, row.encryptedPassword);
      if password.None? {
        return Err(CannotDecrypt);
      }
      r := Ok(Entry(row.serviceName, row.urlOrAppName, row.category, row.loginId, password.value, row.memo));
    }

    method Create(userId: Id, encryptionKey: Bytes, data: Entry, draw: nat) returns (r: Result<(), AccountError>)
      modifies prisma`accounts, prisma`nextId
      ensures match CreateRow(crypto, old(prisma.accounts), old(prisma.nextId), userId, encryptionKey, data, draw)
              case Ok(rows) => r == Ok(()) &&
                               prisma.Tables() ==
                                 old(prisma.Tables()).(accounts := rows, nextId := old(prisma.nextId) + 1)
              case Err(e) => r == Err(e) && prisma.Tables() == old(prisma.Tables())
    {
      var encryptedPassword := crypto.seal(encryptionKey, draw, data.password);
      var ok := prisma.CreateAccount(Row(prisma.nextId, userId, data.serviceName, data.urlOrAppName, data.category,
                                         data.loginId, encryptedPassword, data.memo));
      if !ok {
        return Err(Conflict);
      }
      r := Ok(());
    }

    method Update(userId: Id, id: Id, encryptionKey: Bytes, data: Patch, draw: nat)
      returns (r: Result<(), AccountError>)
      modifies prisma`accounts
      ensures match UpdateRow(crypto, old(prisma.accounts), userId, id, encryptionKey, data, draw)
              case Ok(rows) => r == Ok(()) && prisma.Tables() == old(prisma.Tables()).(accounts := rows)
              case Err(e) => r == Err(e) && prisma.Tables() == old(prisma.Tables())
      ensures RoundTrips(crypto) ==>
                UpdateMeans(crypto, old(prisma.accounts), userId, id, encryptionKey, data,
                            if r.Ok? then Ok(prisma.accounts) else Err(r.error))
    {
      if RoundTrips(crypto) {
        UpdateMeaning(crypto, prisma.accounts, userId, id, encryptionKey, data, draw);
      }
      hide UpdateMeans, RoundTrips;
      var existing := Find(prisma.accounts, userId, id);
      if existing.None? {
        return Err(NotFound);
      }
      var row := prisma.accounts[existing.value];
      if data.serviceName.Some? {
        row := row.(serviceName := data.serviceName.value);
      }
      if data.urlOrAppName.Some? {
        row := row.(urlOrAppName := data.urlOrAppName.value);
      }
      if data.category.Some? {
        row := row.(category := data.category.value);
      }
      if data.loginId.Some? {
        row := row.(loginId := data.loginId.value);
      }
      if data.memo.Some? {
        row := row.(memo := data.memo);
      }
      if data.password.Some? && data.password.value != "" {
        row := row.(encryptedPassword := crypto.seal(encryptionKey, draw, data.password.value));
      }
      assert row == PatchedRow(crypto, prisma.accounts[existing.value], encryptionKey, data, draw);
      hide PatchedRow;
      var ok := prisma.UpdateAccount(existing.value, row);
      if !ok {
        return Err(Conflict);
      }
      r := Ok(());
    }

    method Remove(userId: Id, id: Id) returns (r: Result<(), AccountError>)
      modifies prisma`accounts
      ensures match RemoveRow(old(prisma.accounts), userId, id)
              case Ok(rows) => r == Ok(()) && prisma.Tables() == old(prisma.Tables()).(accounts := rows)
              case Err(e) => r == Err(e) && prisma.Tables() == old(prisma.Tables())
    {
      var existing := Find(prisma.accounts, userId, id);
      if existing.None? {
        return Err(NotFound);
      }
      prisma.accounts := prisma.accounts[..existing.value] + prisma.accounts[existing.value + 1..];
      r := Ok(());
    }

    method ExportAccounts(userId: Id, encryptionKey: Bytes, exportPassword: string, salt: string, draw: nat)
      returns (r: Result<BackupFile, AccountError>)
      ensures r == ExportFile(crypto, prisma.accounts, userId, encryptionKey, exportPassword, salt, draw)
    {
      var plain := EntriesUnder(crypto, encryptionKey, RowsOf(prisma.accounts, userId));
      if plain.None? {
        return Err(CannotDecrypt);
      }
      var exportKey := crypto.derive(exportPassword, salt);
      r := Ok(BackupFile(1, salt, crypto.seal(exportKey, draw, crypto.stringify(plain.value))));
    }

    /** The import loop: a conflict is counted as skipped, any other error stops it and leaves what was
        created before. */
    method ImportAccounts(userId: Id, encryptionKey: Bytes, exportPassword: string, file: BackupFile, draw: nat,
                          faultAt: Option<nat>)
      returns (r: Result<(nat, nat), AccountError>)
      modifies prisma`accounts, prisma`nextId
      ensures match OpenFile(crypto, exportPassword, file)
              case Err(e) => r == Err(e) && prisma.Tables() == old(prisma.Tables())
              case Ok(entries) =>
                var reached := Reached(entries, faultAt);
                var after := ImportEntries(crypto, old(prisma.accounts), old(prisma.nextId), userId, encryptionKey,
                                           reached, draw);
                prisma.accounts == after.rows && prisma.nextId == after.nextId &&
                r == if |reached| < |entries| then Err(DatabaseFailed) else Ok((after.imported, after.skipped))
    {
      hide CreateRow, Taken, NewRow;
      if file.version != 1 {
        return Err(BadRequest);
      }
      var json := crypto.open(crypto.derive(exportPassword, file.salt), file.payload);
      if json.None? {
        return Err(BadRequest);
      }
      var parsed := crypto.parse(json.value);
      if parsed.None? {
        return Err(Malformed);
      }
      var entries := parsed.value;
      ghost var reached := Reached(entries, faultAt);
      var imported, skipped := 0, 0;
      assert reached[0..] == reached;
      for i := 0 to |entries|
        invariant i <= |reached|
        invariant ImportEntries(crypto, old(prisma.accounts), old(prisma.nextId), userId, encryptionKey, reached,
                                draw) ==
                  Counted(imported, skipped,
                          ImportEntries(crypto, prisma.accounts, prisma.nextId, userId, encryptionKey, reached[i..],
                                        draw + i))
      {
        if faultAt == Some(i) {
          assert reached[i..] == [];
          return Err(DatabaseFailed);
        }
        assert i < |reached| && reached[i..][0] == entries[i] && reached[i..][1..] == reached[i + 1..];
        var created := Create(userId, encryptionKey, entries[i], draw + i);
        if created.Ok? {
          imported := imported + 1;
        } else {
          skipped := skipped + 1;
        }
      }
      r := Ok((imported, skipped));
    }
  }

  function Counted(imported: nat, skipped: nat, r: Imported): Imported {
    r.(imported := imported + r.imported, skipped := skipped + r.skipped)
  }
}
