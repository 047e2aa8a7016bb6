/** What the account services do, column by column, for every table and every request. */
module VaultMeaning {
  import opened Wrappers
  import opened Platform
  import opened Vault

  ghost predicate HasRow(rows: seq<Row>, userId: Id, id: Id) {
    exists k :: 0 <= k < |rows| && rows[k].id == id && rows[k].userId == userId
  }

  /** Some row, other than row i, has this user, url and login. */
  ghost predicate OtherHas(rows: seq<Row>, i: int, userId: Id, url: string, login: string) {
    exists k :: 0 <= k < |rows| && k != i &&
      rows[k].userId == userId && rows[k].urlOrAppName == url && rows[k].loginId == login
  }

  /** create: a conflict exactly when a row of the user has the url and the login; otherwise one row more,
      with the given columns and a password that the key opens. */
  lemma CreateMeaning(p: Platform, rows: seq<Row>, id: Id, userId: Id, key: Bytes, e: Entry, draw: nat)
    requires RoundTrips(p)
    ensures var r := CreateRow(p, rows, id, userId, key, e, draw);
            (r == Err(Conflict) <==> OtherHas(rows, -1, userId, e.urlOrAppName, e.loginId)) &&
            (r != Err(Conflict) ==>
               r.Ok? && |r.value| == |rows| + 1 && r.value[..|rows|] == rows &&
               var added := r.value[|rows|];
               added.id == id && added.userId == userId && added.serviceName == e.serviceName &&
               added.urlOrAppName == e.urlOrAppName && added.category == e.category && added.loginId == e.loginId &&
               added.memo == e.memo && p.open(key, added.encryptedPassword) == Some(e.password))
  {
    assert p.open(key, p.seal(key, draw, e.password)) == Some(e.password);
    if k :| 0 <= k < |rows| && rows[k].userId == userId && rows[k].urlOrAppName == e.urlOrAppName &&
            rows[k].loginId == e.loginId
    {
      assert KeyOf(rows[k]) == EntryKey(userId, e);
    }
  }

  /** A column after an update: the given value, or the old one. */
  ghost predicate Written<T>(given: Option<T>, before: T, after: T) {
    (given.Some? ==> after == given.value) && (given.None? ==> after == before)
  }

  /** The row with its given columns written, and everything else as it was. */
  ghost predicate RowWritten(p: Platform, key: Bytes, patch: Patch, before: Row, after: Row) {
    after.id == before.id && after.userId == before.userId &&
    Written(patch.serviceName, before.serviceName, after.serviceName) &&
    Written(patch.urlOrAppName, before.urlOrAppName, after.urlOrAppName) &&
    Written(patch.category, before.category, after.category) &&
    Written(patch.loginId, before.loginId, after.loginId) &&
    (patch.memo.Some? ==> after.memo == patch.memo) && (patch.memo.None? ==> after.memo == before.memo) &&
    (patch.password.Some? && patch.password.value != "" ==> p.open(key, after.encryptedPassword) == patch.password) &&
    (patch.password.None? || patch.password.value == "" ==> after.encryptedPassword == before.encryptedPassword)
  }

  ghost predicate UpdateMeans(p: Platform, rows: seq<Row>, userId: Id, id: Id, key: Bytes, patch: Patch,
      r: Result<seq<Row>, AccountError>) {
    (r == Err(NotFound) <==> !HasRow(rows, userId, id)) &&
    (HasRow(rows, userId, id) ==>
       exists i :: 0 <= i < |rows| && rows[i].id == id && rows[i].userId == userId &&
         UpdatedAt(p, rows, i, key, patch, r))
  }

  /** update: not-found exactly without such a row of the user, a conflict exactly when another row has
      the resulting user, url and login; otherwise the given columns of that row are written, and no
      other row changes. */
  lemma UpdateMeaning(p: Platform, rows: seq<Row>, userId: Id, id: Id, key: Bytes, patch: Patch, draw: nat)
    requires RoundTrips(p)
    ensures UpdateMeans(p, rows, userId, id, key, patch, UpdateRow(p, rows, userId, id, key, patch, draw))
  {
    var i := Find(rows, userId, id);
    if i.Some? {
      assert rows[i.value].id == id && rows[i.value].userId == userId;
      FoundUpdate(p, rows, userId, id, key, patch, draw);
    }
  }

  ghost predicate UpdatedAt(p: Platform, rows: seq<Row>, i: int, key: Bytes, patch: Patch,
      r: Result<seq<Row>, AccountError>)
    requires 0 <= i < |rows|
  {
    var url := if patch.urlOrAppName.Some? then patch.urlOrAppName.value else rows[i].urlOrAppName;
    var login := if patch.loginId.Some? then patch.loginId.value else rows[i].loginId;
    (r == Err(Conflict) <==> OtherHas(rows, i, rows[i].userId, url, login)) &&
    (r != Err(Conflict) ==>
       r.Ok? && |r.value| == |rows| && RowWritten(p, key, patch, rows[i], r.value[i]) &&
       forall k :: 0 <= k < |rows| && k != i ==> r.value[k] == rows[k])
  }

  lemma FoundUpdate(p: Platform, rows: seq<Row>, userId: Id, id: Id, key: Bytes, patch: Patch, draw: nat)
    requires RoundTrips(p) && Find(rows, userId, id).Some?
    ensures UpdatedAt(p, rows, Find(rows, userId, id).value, key, patch,
                      UpdateRow(p, rows, userId, id, key, patch, draw))
  {
    var i := Find(rows, userId, id).value;
    var row := PatchedRow(p, rows[i], key, patch, draw);
    if patch.password.Some? {
      assert p.open(key, p.seal(key, draw, patch.password.value)) == patch.password;
    }
    forall k | 0 <= k < |rows|
      ensures KeyOf(rows[k]) == KeyOf(row) <==>
                rows[k].userId == row.userId && rows[k].urlOrAppName == row.urlOrAppName &&
                rows[k].loginId == row.loginId
    {
    }
    assert TakenByOther(rows, i, KeyOf(row)) <==> OtherHas(rows, i, row.userId, row.urlOrAppName, row.loginId);
  }

  /** remove: not-found exactly without such a row of the user, otherwise that row and no other is gone. */
  lemma RemoveMeaning(rows: seq<Row>, userId: Id, id: Id)
    ensures var r := RemoveRow(rows, userId, id);
            (r == Err(NotFound) <==> !HasRow(rows, userId, id)) &&
            (HasRow(rows, userId, id) ==>
               exists i :: 0 <= i < |rows| && rows[i].id == id && rows[i].userId == userId &&
                 r == Ok(rows[..i] + rows[i + 1..]))
  {
    var i := Find(rows, userId, id);
    if i.Some? {
      assert rows[i.value].id == id && rows[i.value].userId == userId;
    }
  }

  /** The entry shows the columns of the row and its password. */
  ghost predicate ShowsRow(p: Platform, key: Bytes, row: Row, e: Entry) {
    e.serviceName == row.serviceName && e.urlOrAppName == row.urlOrAppName && e.category == row.category &&
    e.loginId == row.loginId && e.memo == row.memo && p.open(key, row.encryptedPassword) == Some(e.password)
  }

  lemma ReadMeaning(p: Platform, rows: seq<Row>, userId: Id, id: Id, key: Bytes)
    ensures var r := ReadRow(p, rows, userId, id, key);
            (r == Err(NotFound) <==> !HasRow(rows, userId, id)) &&
            (HasRow(rows, userId, id) ==>
               exists i :: 0 <= i < |rows| && rows[i].id == id && rows[i].userId == userId &&
                 (r.Ok? <==> p.open(key, rows[i].encryptedPassword).Some?) &&
                 (r.Ok? ==> ShowsRow(p, key, rows[i], r.value)))
  {
    var i := Find(rows, userId, id);
    if i.Some? {
      assert rows[i.value].id == id && rows[i.value].userId == userId;
    }
  }

  /** The user's rows are the rows of the table that are the user's, each as often as it is there. */
  lemma {:induction false} RowsOfCounts(rows: seq<Row>, userId: Id, r: Row)
    ensures multiset(RowsOf(rows, userId))[r] == if r.userId == userId then multiset(rows)[r] else 0
  {
    if rows != [] {
      RowsOfCounts(rows[1..], userId, r);
      assert rows == [rows[0]] + rows[1..];
    }
  }

  ghost predicate EachOpens(p: Platform, key: Bytes, rows: seq<Row>) {
    forall i :: 0 <= i < |rows| ==> p.open(key, rows[i].encryptedPassword).Some?
  }

  lemma {:induction false} EntriesMeaning(p: Platform, key: Bytes, rows: seq<Row>)
    ensures EntriesUnder(p, key, rows).Some? <==> EachOpens(p, key, rows)
    ensures var entries := EntriesUnder(p, key, rows);
            entries.Some? ==>
              |entries.value| == |rows| && forall i :: 0 <= i < |rows| ==> ShowsRow(p, key, rows[i], entries.value[i])
  {
    if rows != [] {
      EntriesMeaning(p, key, rows[1..]);
      assert forall i :: 1 <= i < |rows| ==> rows[i] == rows[1..][i - 1];
    }
  }

  /** export: fails exactly when a row of the user does not open; otherwise a version 1 file, under the
      export password, whose entries show the user's rows one by one. */
  lemma ExportMeaning(p: Platform, rows: seq<Row>, userId: Id, key: Bytes, exportPassword: string, salt: string,
      draw: nat)
    requires RoundTrips(p) && JsonRoundTrips(p)
    ensures var r, own := ExportFile(p, rows, userId, key, exportPassword, salt, draw), RowsOf(rows, userId);
            (r.Ok? <==> EachOpens(p, key, own)) &&
            (r.Ok? ==>
               r.value.version == 1 && r.value.salt == salt &&
               exists json, entries :: p.open(p.derive(exportPassword, salt), r.value.payload) == Some(json) &&
                 p.parse(json) == Some(entries) && |entries| == |own| &&
                 forall i :: 0 <= i < |own| ==> ShowsRow(p, key, own[i], entries[i]))
  {
    var own := RowsOf(rows, userId);
    EntriesMeaning(p, key, own);
    var entries := EntriesUnder(p, key, own);
    if entries.Some? {
      var json, exportKey := p.stringify(entries.value), p.derive(exportPassword, salt);
      assert p.open(exportKey, p.seal(exportKey, draw, json)) == Some(json) && p.parse(json) == entries;
    }
  }

  /** A file is refused as a bad request exactly when its version is not 1 or it does not open under the
      export password; its entries are what its JSON says. */
  lemma OpenMeaning(p: Platform, exportPassword: string, file: BackupFile)
    ensures var r, json := OpenFile(p, exportPassword, file), p.open(p.derive(exportPassword, file.salt), file.payload);
            (r == Err(BadRequest) <==> file.version != 1 || json == None) &&
            (forall entries :: r == Ok(entries) <==>
               file.version == 1 && json.Some? && p.parse(json.value) == Some(entries))
  {
  }
}
