/**
 The accounts table and the services on it, and the plain map from (user, url, login) to entry that
 the ciphertext rows stand for. The table is in creation order, as the queries sort it.
 */
module Vault {
  import opened Wrappers
  import opened Platform

  type Id = nat

  datatype Row = Row(
    id: Id,
    userId: Id,
    serviceName: string,
    urlOrAppName: string,
    category: string,
    loginId: string,
    encryptedPassword: string,
    memo: Option<string>)

  datatype Patch = Patch(
    serviceName: Option<string>,
    urlOrAppName: Option<string>,
    category: Option<string>,
    loginId: Option<string>,
    password: Option<string>,
    memo: Option<string>)

  datatype BackupFile = BackupFile(version: int, salt: string, payload: string)

  datatype AccountError = NotFound | Conflict | BadRequest | CannotDecrypt | Malformed | DatabaseFailed

  // ---------------------------------------------------------------------------------
  // Keys of the table
  // ---------------------------------------------------------------------------------

  datatype VaultKey = VaultKey(userId: Id, urlOrAppName: string, loginId: string)

  function KeyOf(r: Row): VaultKey {
    VaultKey(r.userId, r.urlOrAppName, r.loginId)
  }

  function EntryKey(userId: Id, e: Entry): VaultKey {
    VaultKey(userId, e.urlOrAppName, e.loginId)
  }

  predicate Taken(rows: seq<Row>, key: VaultKey) {
    exists i :: 0 <= i < |rows| && KeyOf(rows[i]) == key
  }

  ghost predicate KeysUnique(rows: seq<Row>) {
    forall i, j :: 0 <= i < j < |rows| ==> KeyOf(rows[i]) != KeyOf(rows[j])
  }

  ghost predicate IdsUnique(rows: seq<Row>) {
    forall i, j :: 0 <= i < j < |rows| ==> rows[i].id != rows[j].id
  }

  ghost predicate IdsBelow(rows: seq<Row>, nextId: Id) {
    forall i :: 0 <= i < |rows| ==> rows[i].id < nextId
  }

  ghost predicate WellFormed(rows: seq<Row>, nextId: Id) {
    KeysUnique(rows) && IdsUnique(rows) && IdsBelow(rows, nextId)
  }

  /** `findFirst({ where: { id, userId } })`. */
  function Find(rows: seq<Row>, userId: Id, id: Id): (i: Option<nat>)
    ensures i.Some? ==> i.value < |rows| && rows[i.value].id == id && rows[i.value].userId == userId
    ensures i.None? ==> forall k :: 0 <= k < |rows| ==> !(rows[k].id == id && rows[k].userId == userId)
  {
    if rows == [] then None
    else if rows[0].id == id && rows[0].userId == userId then Some(0)
    else
      var rest := Find(rows[1..], userId, id);
      if rest.Some? then Some(rest.value + 1) else None
  }

  // ---------------------------------------------------------------------------------
  // The services
  // ---------------------------------------------------------------------------------

  function NewRow(p: Platform, id: Id, userId: Id, key: Bytes, e: Entry, draw: nat): Row {
    Row(id, userId, e.serviceName, e.urlOrAppName, e.category, e.loginId, p.seal(key, draw, e.password), e.memo)
  }

  /** The rows after `create`, or the conflict the unique key raises. */
  function CreateRow(p: Platform, rows: seq<Row>, id: Id, userId: Id, key: Bytes, e: Entry,
      draw: nat): Result<seq<Row>, AccountError> {
    if Taken(rows, EntryKey(userId, e)) then Err(Conflict) else Ok(rows + [NewRow(p, id, userId, key, e, draw)])
  }

  function Given<T>(patch: Option<T>, current: T): T {
    if patch.Some? then patch.value else current
  }

  /** An absent or empty password keeps the ciphertext. */
  function PatchedRow(p: Platform, r: Row, key: Bytes, patch: Patch, draw: nat): Row {
    Row(r.id, r.userId, Given(patch.serviceName, r.serviceName), Given(patch.urlOrAppName, r.urlOrAppName),
        Given(patch.category, r.category), Given(patch.loginId, r.loginId),
        if patch.password.Some? && patch.password.value != "" then p.seal(key, draw, patch.password.value)
        else r.encryptedPassword,
        if patch.memo.Some? then patch.memo else r.memo)
  }

  predicate TakenByOther(rows: seq<Row>, i: nat, key: VaultKey) {
    exists k :: 0 <= k < |rows| && k != i && KeyOf(rows[k]) == key
  }

  function UpdateRow(p: Platform, rows: seq<Row>, userId: Id, id: Id, key: Bytes, patch: Patch,
      draw: nat): Result<seq<Row>, AccountError> {
    var i := Find(rows, userId, id);
    if i.None? then Err(NotFound) else
    var row := PatchedRow(p, rows[i.value], key, patch, draw);
    if TakenByOther(rows, i.value, KeyOf(row)) then Err(Conflict) else Ok(rows[i.value := row])
  }

  function RemoveRow(rows: seq<Row>, userId: Id, id: Id): Result<seq<Row>, AccountError> {
    var i := Find(rows, userId, id);
    if i.None? then Err(NotFound) else Ok(rows[..i.value] + rows[i.value + 1..])
  }

  function EntryUnder(p: Platform, key: Bytes, r: Row): (e: Option<Entry>) {
    var password := p.open(key, r.encryptedPassword);
    if password.None? then None
    else Some(Entry(r.serviceName, r.urlOrAppName, r.category, r.loginId, password.value, r.memo))
  }

  function ReadRow(p: Platform, rows: seq<Row>, userId: Id, id: Id, key: Bytes): Result<Entry, AccountError> {
    var i := Find(rows, userId, id);
    if i.None? then Err(NotFound) else
    var e := EntryUnder(p, key, rows[i.value]);
    if e.None? then Err(CannotDecrypt) else Ok(e.value)
  }

  function RowsOf(rows: seq<Row>, userId: Id): seq<Row> {
    if rows == [] then []
    else if rows[0].userId == userId then [rows[0]] + RowsOf(rows[1..], userId)
    else RowsOf(rows[1..], userId)
  }

  function EntriesUnder(p: Platform, key: Bytes, rows: seq<Row>): Option<seq<Entry>> {
    if rows == [] then Some([]) else
    var first, rest := EntryUnder(p, key, rows[0]), EntriesUnder(p, key, rows[1..]);
    if first.None? || rest.None? then None else Some([first.value] + rest.value)
  }

  function ExportFile(p: Platform, rows: seq<Row>, userId: Id, key: Bytes, exportPassword: string, salt: string,
      draw: nat): Result<BackupFile, AccountError> {
    var entries := EntriesUnder(p, key, RowsOf(rows, userId));
    if entries.None? then Err(CannotDecrypt)
    else Ok(BackupFile(1, salt, p.seal(p.derive(exportPassword, salt), draw, p.stringify(entries.value))))
  }

  datatype Imported = Imported(rows: seq<Row>, nextId: Id, imported: nat, skipped: nat)

  /** The import loop: create each entry, count it as skipped when its key is taken. */
  function ImportEntries(p: Platform, rows: seq<Row>, nextId: Id, userId: Id, key: Bytes, entries: seq<Entry>,
      draw: nat): Imported
    decreases |entries|
  {
    if entries == [] then Imported(rows, nextId, 0, 0) else
    match CreateRow(p, rows, nextId, userId, key, entries[0], draw)
    case Ok(next) =>
      var rest := ImportEntries(p, next, nextId + 1, userId, key, entries[1..], draw + 1);
      rest.(imported := rest.imported + 1)
    case Err(_) =>
      var rest := ImportEntries(p, rows, nextId, userId, key, entries[1..], draw + 1);
      rest.(skipped := rest.skipped + 1)
  }

  /** The entries an import comes to: all of them, or those before the one whose insert meets another
      error of the database. */
  function Reached(entries: seq<Entry>, faultAt: Option<nat>): (reached: seq<Entry>)
    ensures reached <= entries
  {
    if faultAt.Some? && faultAt.value < |entries| then entries[..faultAt.value] else entries
  }

  function OpenFile(p: Platform, exportPassword: string, file: BackupFile): Result<seq<Entry>, AccountError> {
    if file.version != 1 then Err(BadRequest) else
    var json := p.open(p.derive(exportPassword, file.salt), file.payload);
    if json.None? then Err(BadRequest) else
    var entries := p.parse(json.value);
    if entries.None? then Err(Malformed) else Ok(entries.value)
  }

  /** Re-encryption of a snapshot of (id, ciphertext) pairs inside one transaction: the rows
      afterwards, or nothing when a row is gone or a ciphertext does not decrypt. */
  function Reencrypt(p: Platform, rows: seq<Row>, snapshot: seq<(Id, string)>, oldKey: Bytes, newKey: Bytes,
      draw: nat): Option<seq<Row>>
    decreases |snapshot|
  {
    if snapshot == [] then Some(rows) else
    var i := IndexOfId(rows, snapshot[0].0);
    var text := p.open(oldKey, snapshot[0].1);
    if i.None? || text.None? then None
    else Reencrypt(p, rows[i.value := rows[i.value].(encryptedPassword := p.seal(newKey, draw, text.value))],
                   snapshot[1..], oldKey, newKey, draw + 1)
  }

  function IndexOfId(rows: seq<Row>, id: Id): (i: Option<nat>)
    ensures i.Some? ==> i.value < |rows| && rows[i.value].id == id
    ensures i.None? ==> forall k :: 0 <= k < |rows| ==> rows[k].id != id
  {
    if rows == [] then None
    else if rows[0].id == id then Some(0)
    else
      var rest := IndexOfId(rows[1..], id);
      if rest.Some? then Some(rest.value + 1) else None
  }

  function Snapshot(rows: seq<Row>, userId: Id): seq<(Id, string)> {
    var own := RowsOf(rows, userId);
    seq(|own|, i requires 0 <= i < |own| => (own[i].id, own[i].encryptedPassword))
  }

  // ---------------------------------------------------------------------------------
  // The plain vault
  // ---------------------------------------------------------------------------------

  type Plain = map<VaultKey, Entry>

  /** Every row opens under its owner's key to exactly the entry of the plain map, and the map has
      no other entries. */
  ghost predicate Represents(p: Platform, keys: map<Id, Bytes>, rows: seq<Row>, v: Plain) {
    (forall i :: 0 <= i < |rows| ==> Shown(p, keys, rows[i], v)) &&
    (forall key :: key in v ==> Taken(rows, key))
  }

  ghost predicate Shown(p: Platform, keys: map<Id, Bytes>, r: Row, v: Plain) {
    r.userId in keys && KeyOf(r) in v && EntryUnder(p, keys[r.userId], r) == Some(v[KeyOf(r)])
  }

  /** The rows determine the plain map. */
  lemma RepresentsOne(p: Platform, keys: map<Id, Bytes>, rows: seq<Row>, v: Plain, w: Plain)
    requires Represents(p, keys, rows, v) && Represents(p, keys, rows, w)
    ensures v == w
  {
    forall key | key in v || key in w
      ensures key in v && key in w && v[key] == w[key]
    {
      assert Taken(rows, key);
      var i :| 0 <= i < |rows| && KeyOf(rows[i]) == key;
      assert Shown(p, keys, rows[i], v) && Shown(p, keys, rows[i], w);
    }
  }

  function Insert(v: Plain, userId: Id, e: Entry): Plain {
    if EntryKey(userId, e) in v then v else v[EntryKey(userId, e) := e]
  }

  function PatchedEntry(e: Entry, patch: Patch): Entry {
    Entry(Given(patch.serviceName, e.serviceName), Given(patch.urlOrAppName, e.urlOrAppName),
          Given(patch.category, e.category), Given(patch.loginId, e.loginId),
          if patch.password.Some? && patch.password.value != "" then patch.password.value else e.password,
          if patch.memo.Some? then patch.memo else e.memo)
  }

  function Change(v: Plain, key: VaultKey, patch: Patch): Plain {
    if key !in v then v else
    var e := PatchedEntry(v[key], patch);
    var target := EntryKey(key.userId, e);
    if target != key && target in v then v else (v - {key})[target := e]
  }

  function InsertAll(v: Plain, userId: Id, entries: seq<Entry>): Plain
    decreases |entries|
  {
    if entries == [] then v else InsertAll(Insert(v, userId, entries[0]), userId, entries[1..])
  }

  /** create = insertion into the map, with a conflict exactly when the key is there. */
  lemma CreateRefines(p: Platform, keys: map<Id, Bytes>, rows: seq<Row>, v: Plain, nextId: Id, userId: Id, e: Entry,
      draw: nat)
    requires RoundTrips(p) && Represents(p, keys, rows, v) && WellFormed(rows, nextId) && userId in keys
    ensures var r := CreateRow(p, rows, nextId, userId, keys[userId], e, draw);
            (r == Err(Conflict) <==> EntryKey(userId, e) in v) &&
            (r.Ok? ==> Represents(p, keys, r.value, Insert(v, userId, e)) && WellFormed(r.value, nextId + 1))
  {
    TakenInVault(p, keys, rows, v, EntryKey(userId, e));
    if !Taken(rows, EntryKey(userId, e)) {
      var row := NewRow(p, nextId, userId, keys[userId], e, draw);
      assert p.open(keys[userId], p.seal(keys[userId], draw, e.password)) == Some(e.password);
      AppendedRowShown(p, keys, rows, v, row, e);
      AppendedWellFormed(rows, row, nextId);
    }
    hide Represents, WellFormed, Taken, RoundTrips;
  }

  lemma TakenInVault(p: Platform, keys: map<Id, Bytes>, rows: seq<Row>, v: Plain, key: VaultKey)
    requires Represents(p, keys, rows, v)
    ensures Taken(rows, key) <==> key in v
  {
    if i :| 0 <= i < |rows| && KeyOf(rows[i]) == key {
      assert Shown(p, keys, rows[i], v);
    }
  }

  lemma AppendedWellFormed(rows: seq<Row>, row: Row, nextId: Id)
    requires WellFormed(rows, nextId) && row.id == nextId && !Taken(rows, KeyOf(row))
    ensures WellFormed(rows + [row], nextId + 1)
  {
  }

  lemma AppendedRowShown(p: Platform, keys: map<Id, Bytes>, rows: seq<Row>, v: Plain, row: Row, e: Entry)
    requires Represents(p, keys, rows, v) && !Taken(rows, KeyOf(row))
    requires row.userId in keys && EntryUnder(p, keys[row.userId], row) == Some(e)
    ensures Represents(p, keys, rows + [row], v[KeyOf(row) := e])
  {
    var after, w := rows + [row], v[KeyOf(row) := e];
    forall i | 0 <= i < |after|
      ensures Shown(p, keys, after[i], w)
    {
      if i < |rows| {
        assert Shown(p, keys, rows[i], v);
      }
    }
    forall k | k in w
      ensures Taken(after, k)
    {
      if k == KeyOf(row) {
        assert KeyOf(after[|rows|]) == k;
      } else {
        var i :| 0 <= i < |rows| && KeyOf(rows[i]) == k;
        assert KeyOf(after[i]) == k;
      }
    }
  }

  lemma UpdateRefines(p: Platform, keys: map<Id, Bytes>, rows: seq<Row>, v: Plain, nextId: Id, userId: Id, id: Id,
      patch: Patch, draw: nat)
    requires RoundTrips(p) && Represents(p, keys, rows, v) && WellFormed(rows, nextId) && userId in keys
    requires Find(rows, userId, id).Some?
    ensures var r := UpdateRow(p, rows, userId, id, keys[userId], patch, draw);
            var key := KeyOf(rows[Find(rows, userId, id).value]);
            key in v &&
            var target := EntryKey(userId, PatchedEntry(v[key], patch));
            (r == Err(Conflict) <==> target != key && target in v) &&
            (r.Ok? ==> Represents(p, keys, r.value, Change(v, key, patch)) && WellFormed(r.value, nextId))
  {
    var i := Find(rows, userId, id).value;
    var key := KeyOf(rows[i]);
    assert Shown(p, keys, rows[i], v);
    var row := PatchedRow(p, rows[i], keys[userId], patch, draw);
    var e := PatchedEntry(v[key], patch);
    var target := EntryKey(userId, e);
    assert KeyOf(row) == target;
    assert EntryUnder(p, keys[userId], row) == Some(e) by {
      if patch.password.Some? {
        assert p.open(keys[userId], p.seal(keys[userId], draw, patch.password.value)) == Some(patch.password.value);
      }
    }
    assert TakenByOther(rows, i, target) <==> target != key && target in v by {
      if k :| 0 <= k < |rows| && k != i && KeyOf(rows[k]) == target {
        assert Shown(p, keys, rows[k], v);
      }
      if target != key && target in v {
        assert Taken(rows, target);
      }
    }
    if !TakenByOther(rows, i, target) {
      ReplacedRowShown(p, keys, rows, v, i, row, e);
    }
  }

  lemma ReplacedRowShown(p: Platform, keys: map<Id, Bytes>, rows: seq<Row>, v: Plain, i: nat, row: Row, e: Entry)
    requires Represents(p, keys, rows, v) && KeysUnique(rows) && i < |rows| && !TakenByOther(rows, i, KeyOf(row))
    requires row.userId == rows[i].userId && row.userId in keys && EntryUnder(p, keys[row.userId], row) == Some(e)
    ensures Represents(p, keys, rows[i := row], (v - {KeyOf(rows[i])})[KeyOf(row) := e])
    ensures KeysUnique(rows[i := row])
  {
    var after, w := rows[i := row], (v - {KeyOf(rows[i])})[KeyOf(row) := e];
    forall k | 0 <= k < |after|
      ensures Shown(p, keys, after[k], w)
    {
      if k != i {
        assert Shown(p, keys, rows[k], v) && KeyOf(rows[k]) != KeyOf(row) && KeyOf(rows[k]) != KeyOf(rows[i]);
      }
    }
    forall key | key in w
      ensures Taken(after, key)
    {
      if key == KeyOf(row) {
        assert KeyOf(after[i]) == key;
      } else {
        var k :| 0 <= k < |rows| && KeyOf(rows[k]) == key;
        assert KeyOf(after[k]) == key;
      }
    }
  }

  lemma RemoveRefines(p: Platform, keys: map<Id, Bytes>, rows: seq<Row>, v: Plain, nextId: Id, userId: Id, id: Id)
    requires Represents(p, keys, rows, v) && WellFormed(rows, nextId) && Find(rows, userId, id).Some?
    ensures var r := RemoveRow(rows, userId, id);
            var key := KeyOf(rows[Find(rows, userId, id).value]);
            key in v && Represents(p, keys, r.value, v - {key}) && WellFormed(r.value, nextId)
  {
    var i := Find(rows, userId, id).value;
    assert Shown(p, keys, rows[i], v);
    RemovedRowShown(p, keys, rows, v, i);
    RemovedWellFormed(rows, nextId, i);
  }

  lemma RemovedWellFormed(rows: seq<Row>, nextId: Id, i: nat)
    requires WellFormed(rows, nextId) && i < |rows|
    ensures WellFormed(rows[..i] + rows[i + 1..], nextId)
  {
    var after := rows[..i] + rows[i + 1..];
    assert forall k :: 0 <= k < |after| ==> after[k] == rows[if k < i then k else k + 1];
  }

  lemma RemovedRowShown(p: Platform, keys: map<Id, Bytes>, rows: seq<Row>, v: Plain, i: nat)
    requires Represents(p, keys, rows, v) && KeysUnique(rows) && i < |rows|
    ensures Represents(p, keys, rows[..i] + rows[i + 1..], v - {KeyOf(rows[i])})
  {
    var after, w := rows[..i] + rows[i + 1..], v - {KeyOf(rows[i])};
    forall k | 0 <= k < |after|
      ensures Shown(p, keys, after[k], w)
    {
      var k' := if k < i then k else k + 1;
      assert after[k] == rows[k'] && Shown(p, keys, rows[k'], v) && KeyOf(rows[k']) != KeyOf(rows[i]);
    }
    forall other | other in w
      ensures Taken(after, other)
    {
      var k :| 0 <= k < |rows| && KeyOf(rows[k]) == other;
      assert KeyOf(after[if k < i then k else k - 1]) == other;
    }
  }

  lemma ReadRefines(p: Platform, keys: map<Id, Bytes>, rows: seq<Row>, v: Plain, userId: Id, id: Id)
    requires Represents(p, keys, rows, v) && userId in keys && Find(rows, userId, id).Some?
    ensures var key := KeyOf(rows[Find(rows, userId, id).value]);
            key in v && ReadRow(p, rows, userId, id, keys[userId]) == Ok(v[key])
  {
    assert Shown(p, keys, rows[Find(rows, userId, id).value], v);
  }

  lemma InsertTaken(v: Plain, userId: Id, e: Entry)
    ensures EntryKey(userId, e) in v ==> Insert(v, userId, e) == v
  {
  }

  lemma {:induction false} ImportRefines(p: Platform, keys: map<Id, Bytes>, rows: seq<Row>, v: Plain, nextId: Id,
      userId: Id, entries: seq<Entry>, draw: nat)
    requires RoundTrips(p) && Represents(p, keys, rows, v) && WellFormed(rows, nextId) && userId in keys
    ensures var r := ImportEntries(p, rows, nextId, userId, keys[userId], entries, draw);
            Represents(p, keys, r.rows, InsertAll(v, userId, entries)) && WellFormed(r.rows, r.nextId) &&
            nextId <= r.nextId && rows <= r.rows && |r.rows| == |rows| + r.imported &&
            r.imported + r.skipped == |entries|
    decreases |entries|
  {
    hide Represents, WellFormed, Insert, RoundTrips;
    if entries != [] {
      CreateRefines(p, keys, rows, v, nextId, userId, entries[0], draw);
      assert CreateRow(p, rows, nextId, userId, keys[userId], entries[0], draw).Err? ==>
               Insert(v, userId, entries[0]) == v by {
        InsertTaken(v, userId, entries[0]);
      }
      match CreateRow(p, rows, nextId, userId, keys[userId], entries[0], draw)
      case Ok(next) => ImportRefines(p, keys, next, Insert(v, userId, entries[0]), nextId + 1, userId, entries[1..],
                                     draw + 1);
      case Err(_) => ImportRefines(p, keys, rows, v, nextId, userId, entries[1..], draw + 1);
    }
  }
}
