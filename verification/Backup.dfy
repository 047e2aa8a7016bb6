/** Export, import and re-encryption, as statements about the plain vault. */
module Backup {
  import opened Wrappers
  import opened Platform
  import opened Vault

  // ---------------------------------------------------------------------------------
  // Import
  // ---------------------------------------------------------------------------------

  ghost predicate Offers(userId: Id, entries: seq<Entry>, key: VaultKey) {
    exists i :: 0 <= i < |entries| && EntryKey(userId, entries[i]) == key
  }

  ghost function FirstOffer(userId: Id, entries: seq<Entry>, key: VaultKey): (e: Entry)
    requires Offers(userId, entries, key)
    ensures e in entries
  {
    if EntryKey(userId, entries[0]) == key then entries[0] else
    OffersLater(userId, entries, key);
    FirstOffer(userId, entries[1..], key)
  }

  lemma OffersLater(userId: Id, entries: seq<Entry>, key: VaultKey)
    requires entries != []
    ensures Offers(userId, entries, key) <==> EntryKey(userId, entries[0]) == key || Offers(userId, entries[1..], key)
  {
    if i :| 0 <= i < |entries| && EntryKey(userId, entries[i]) == key {
      assert i > 0 ==> entries[1..][i - 1] == entries[i];
    }
    if i :| 0 <= i < |entries[1..]| && EntryKey(userId, entries[1..][i]) == key {
      assert entries[i + 1] == entries[1..][i];
    }
  }

  /** What an import means: existing entries stay, and the first offer of each new key wins. */
  lemma {:induction false} ImportMeaning(v: Plain, userId: Id, entries: seq<Entry>, key: VaultKey)
    ensures key in InsertAll(v, userId, entries) <==> key in v || Offers(userId, entries, key)
    ensures key in v ==> InsertAll(v, userId, entries)[key] == v[key]
    ensures key !in v && Offers(userId, entries, key) ==>
              InsertAll(v, userId, entries)[key] == FirstOffer(userId, entries, key)
    decreases |entries|
  {
    if entries != [] {
      OffersLater(userId, entries, key);
      ImportMeaning(Insert(v, userId, entries[0]), userId, entries[1..], key);
    }
  }

  /** Importing again after stopping at any prefix gives the vault of one uninterrupted import. */
  lemma {:induction false} ImportRestartable(v: Plain, userId: Id, entries: seq<Entry>, k: nat)
    requires k <= |entries|
    ensures InsertAll(InsertAll(v, userId, entries[..k]), userId, entries) == InsertAll(v, userId, entries)
  {
    var half := InsertAll(v, userId, entries[..k]);
    forall key
      ensures key in InsertAll(half, userId, entries) <==> key in InsertAll(v, userId, entries)
      ensures key in InsertAll(v, userId, entries) ==>
                InsertAll(half, userId, entries)[key] == InsertAll(v, userId, entries)[key]
    {
      ImportMeaning(v, userId, entries[..k], key);
      ImportMeaning(half, userId, entries, key);
      ImportMeaning(v, userId, entries, key);
      PrefixOffers(userId, entries, k, key);
    }
  }

  ghost function KeysOf(rows: seq<Row>): seq<VaultKey> {
    seq(|rows|, i requires 0 <= i < |rows| => KeyOf(rows[i]))
  }

  ghost function AddKeys(keys: seq<VaultKey>, userId: Id, entries: seq<Entry>): seq<VaultKey>
    decreases |entries|
  {
    if entries == [] then keys else
    var key := EntryKey(userId, entries[0]);
    AddKeys(if key in keys then keys else keys + [key], userId, entries[1..])
  }

  lemma TakenKeys(rows: seq<Row>, key: VaultKey)
    ensures Taken(rows, key) <==> key in KeysOf(rows)
  {
    if i :| 0 <= i < |rows| && KeyOf(rows[i]) == key {
      assert KeysOf(rows)[i] == key;
    }
  }

  /** The keys an import leaves, in order, depend on the keys before and the entries alone. */
  lemma {:induction false} ImportKeys(p: Platform, rows: seq<Row>, nextId: Id, userId: Id, key: Bytes,
      entries: seq<Entry>, draw: nat)
    ensures KeysOf(ImportEntries(p, rows, nextId, userId, key, entries, draw).rows) ==
              AddKeys(KeysOf(rows), userId, entries)
    decreases |entries|
  {
    if entries != [] {
      TakenKeys(rows, EntryKey(userId, entries[0]));
      hide Taken;
      match CreateRow(p, rows, nextId, userId, key, entries[0], draw)
      case Ok(next) =>
        assert KeysOf(next) == KeysOf(rows) + [EntryKey(userId, entries[0])];
        ImportKeys(p, next, nextId + 1, userId, key, entries[1..], draw + 1);
      case Err(_) =>
        ImportKeys(p, rows, nextId, userId, key, entries[1..], draw + 1);
    }
  }

  lemma {:induction false} AddKeysConcat(keys: seq<VaultKey>, userId: Id, entries: seq<Entry>, more: seq<Entry>)
    ensures AddKeys(keys, userId, entries + more) == AddKeys(AddKeys(keys, userId, entries), userId, more)
    decreases |entries|
  {
    if entries == [] {
      assert entries + more == more;
    } else {
      assert (entries + more)[1..] == entries[1..] + more;
      var key := EntryKey(userId, entries[0]);
      AddKeysConcat(if key in keys then keys else keys + [key], userId, entries[1..], more);
    }
  }

  ghost predicate HasKeys(keys: seq<VaultKey>, userId: Id, entries: seq<Entry>) {
    forall i :: 0 <= i < |entries| ==> EntryKey(userId, entries[i]) in keys
  }

  lemma {:induction false} KeysAdded(keys: seq<VaultKey>, userId: Id, entries: seq<Entry>)
    ensures keys <= AddKeys(keys, userId, entries)
    ensures HasKeys(AddKeys(keys, userId, entries), userId, entries)
    decreases |entries|
  {
    if entries != [] {
      var key := EntryKey(userId, entries[0]);
      var next := if key in keys then keys else keys + [key];
      KeysAdded(next, userId, entries[1..]);
      assert key in next;
      assert forall i :: 1 <= i < |entries| ==> entries[i] == entries[1..][i - 1];
    }
  }

  lemma {:induction false} KeysThere(keys: seq<VaultKey>, userId: Id, entries: seq<Entry>)
    requires HasKeys(keys, userId, entries)
    ensures AddKeys(keys, userId, entries) == keys
    decreases |entries|
  {
    if entries != [] {
      assert EntryKey(userId, entries[0]) in keys;
      assert forall i :: 0 <= i < |entries[1..]| ==> entries[1..][i] == entries[i + 1];
      KeysThere(keys, userId, entries[1..]);
    }
  }

  /** An import that stops at any entry, and is then run again, leaves the table of one uninterrupted
      import: the same keys in the same order, standing for the same vault, with counts that add up. */
  lemma ImportRestarts(p: Platform, keys: map<Id, Bytes>, rows: seq<Row>, v: Plain, nextId: Id, userId: Id,
      entries: seq<Entry>, k: nat, draw: nat, later: nat, other: nat)
    requires RoundTrips(p) && Represents(p, keys, rows, v) && WellFormed(rows, nextId) && userId in keys &&
             k <= |entries|
    ensures var half := ImportEntries(p, rows, nextId, userId, keys[userId], entries[..k], draw);
            var again := ImportEntries(p, half.rows, half.nextId, userId, keys[userId], entries, later);
            var once := ImportEntries(p, rows, nextId, userId, keys[userId], entries, other);
            Represents(p, keys, again.rows, InsertAll(v, userId, entries)) &&
            Represents(p, keys, once.rows, InsertAll(v, userId, entries)) &&
            KeysOf(again.rows) == KeysOf(once.rows) && half.imported + again.imported == once.imported
  {
    hide Represents, WellFormed, RoundTrips, ImportEntries, InsertAll, AddKeys;
    var key, stopped := keys[userId], entries[..k];
    var half := ImportEntries(p, rows, nextId, userId, key, stopped, draw);
    ImportRefines(p, keys, rows, v, nextId, userId, stopped, draw);
    ImportRefines(p, keys, half.rows, InsertAll(v, userId, stopped), half.nextId, userId, entries, later);
    ImportRefines(p, keys, rows, v, nextId, userId, entries, other);
    ImportRestartable(v, userId, entries, k);
    ImportKeys(p, rows, nextId, userId, key, stopped, draw);
    ImportKeys(p, half.rows, half.nextId, userId, key, entries, later);
    ImportKeys(p, rows, nextId, userId, key, entries, other);
    KeysRestart(KeysOf(rows), userId, stopped, entries[k..]);
    assert entries == stopped + entries[k..];
    var again := ImportEntries(p, half.rows, half.nextId, userId, key, entries, later);
    var once := ImportEntries(p, rows, nextId, userId, key, entries, other);
    assert |again.rows| == |KeysOf(again.rows)| && |once.rows| == |KeysOf(once.rows)|;
  }

  lemma KeysRestart(keys: seq<VaultKey>, userId: Id, stopped: seq<Entry>, rest: seq<Entry>)
    ensures AddKeys(AddKeys(keys, userId, stopped), userId, stopped + rest) == AddKeys(keys, userId, stopped + rest)
  {
    var half := AddKeys(keys, userId, stopped);
    KeysAdded(keys, userId, stopped);
    KeysThere(half, userId, stopped);
    AddKeysConcat(half, userId, stopped, rest);
    AddKeysConcat(keys, userId, stopped, rest);
  }

  lemma {:induction false} PrefixOffers(userId: Id, entries: seq<Entry>, k: nat, key: VaultKey)
    requires k <= |entries|
    ensures Offers(userId, entries[..k], key) ==>
              Offers(userId, entries, key) && FirstOffer(userId, entries[..k], key) == FirstOffer(userId, entries, key)
    decreases k
  {
    if k > 0 {
      OffersLater(userId, entries, key);
      OffersLater(userId, entries[..k], key);
      assert entries[..k][1..] == entries[1..][..k - 1];
      PrefixOffers(userId, entries[1..], k - 1, key);
    }
  }

  /** The two counts: `imported` is the growth of the vault, and together they count the entries. */
  lemma {:induction false} ImportCounts(p: Platform, keys: map<Id, Bytes>, rows: seq<Row>, v: Plain, nextId: Id,
      userId: Id, entries: seq<Entry>, draw: nat)
    requires RoundTrips(p) && Represents(p, keys, rows, v) && WellFormed(rows, nextId) && userId in keys
    ensures var r := ImportEntries(p, rows, nextId, userId, keys[userId], entries, draw);
            |InsertAll(v, userId, entries)| == |v| + r.imported && r.imported + r.skipped == |entries|
    decreases |entries|
  {
    if entries != [] {
      CreateRefines(p, keys, rows, v, nextId, userId, entries[0], draw);
      hide Represents, WellFormed, RoundTrips;
      match CreateRow(p, rows, nextId, userId, keys[userId], entries[0], draw)
      case Ok(next) => ImportCounts(p, keys, next, Insert(v, userId, entries[0]), nextId + 1, userId, entries[1..],
                                    draw + 1);
      case Err(_) => ImportCounts(p, keys, rows, v, nextId, userId, entries[1..], draw + 1);
    }
  }

  /** Entries whose keys are all taken import nothing. */
  lemma {:induction false} TakenEntriesSkipped(p: Platform, rows: seq<Row>, nextId: Id, userId: Id, key: Bytes,
      entries: seq<Entry>, draw: nat)
    requires forall i :: 0 <= i < |entries| ==> Taken(rows, EntryKey(userId, entries[i]))
    ensures ImportEntries(p, rows, nextId, userId, key, entries, draw) == Imported(rows, nextId, 0, |entries|)
    decreases |entries|
  {
    if entries != [] {
      assert Taken(rows, EntryKey(userId, entries[0]));
      TakenEntriesSkipped(p, rows, nextId, userId, key, entries[1..], draw + 1);
    }
  }

  /** A second import of the same entries imports nothing and changes no row. */
  lemma ImportTwice(p: Platform, keys: map<Id, Bytes>, rows: seq<Row>, v: Plain, nextId: Id, userId: Id,
      entries: seq<Entry>, draw: nat, later: nat)
    requires RoundTrips(p) && Represents(p, keys, rows, v) && WellFormed(rows, nextId) && userId in keys
    ensures var once := ImportEntries(p, rows, nextId, userId, keys[userId], entries, draw);
            ImportEntries(p, once.rows, once.nextId, userId, keys[userId], entries, later) ==
              Imported(once.rows, once.nextId, 0, |entries|)
  {
    ImportRefines(p, keys, rows, v, nextId, userId, entries, draw);
    var once := ImportEntries(p, rows, nextId, userId, keys[userId], entries, draw);
    forall i | 0 <= i < |entries|
      ensures Taken(once.rows, EntryKey(userId, entries[i]))
    {
      ImportMeaning(v, userId, entries, EntryKey(userId, entries[i]));
    }
    TakenEntriesSkipped(p, once.rows, once.nextId, userId, keys[userId], entries, later);
  }

  // ---------------------------------------------------------------------------------
  // Export, then import elsewhere
  // ---------------------------------------------------------------------------------

  lemma {:induction false} RowsOfConcat(rows: seq<Row>, more: seq<Row>, userId: Id)
    ensures RowsOf(rows + more, userId) == RowsOf(rows, userId) + RowsOf(more, userId)
  {
    if rows == [] {
      assert rows + more == more;
    } else {
      assert (rows + more)[1..] == rows[1..] + more;
      RowsOfConcat(rows[1..], more, userId);
    }
  }

  lemma {:induction false} RowsOfMembers(rows: seq<Row>, userId: Id, r: Row)
    ensures r in RowsOf(rows, userId) <==> r in rows && r.userId == userId
  {
    if rows != [] {
      RowsOfMembers(rows[1..], userId, r);
    }
  }

  /** The backup file opens to exactly the user's entries, in creation order. */
  lemma ExportOpens(p: Platform, rows: seq<Row>, userId: Id, key: Bytes, exportPassword: string, salt: string,
      draw: nat)
    requires RoundTrips(p) && JsonRoundTrips(p) && EntriesUnder(p, key, RowsOf(rows, userId)).Some?
    ensures var file := ExportFile(p, rows, userId, key, exportPassword, salt, draw);
            file.Ok? && OpenFile(p, exportPassword, file.value) == Ok(EntriesUnder(p, key, RowsOf(rows, userId)).value)
  {
    var entries := EntriesUnder(p, key, RowsOf(rows, userId)).value;
    var exportKey := p.derive(exportPassword, salt);
    assert p.open(exportKey, p.seal(exportKey, draw, p.stringify(entries))) == Some(p.stringify(entries));
    assert p.parse(p.stringify(entries)) == Some(entries);
  }

  /** With another export password, whose key differs, the file does not open. */
  lemma WrongExportPassword(p: Platform, rows: seq<Row>, userId: Id, key: Bytes, exportPassword: string,
      attempt: string, salt: string, draw: nat)
    requires RoundTrips(p) && WrongKeyFails(p) && EntriesUnder(p, key, RowsOf(rows, userId)).Some?
    requires p.derive(attempt, salt) != p.derive(exportPassword, salt)
    ensures OpenFile(p, attempt, ExportFile(p, rows, userId, key, exportPassword, salt, draw).value) == Err(BadRequest)
  {
    var entries := EntriesUnder(p, key, RowsOf(rows, userId)).value;
    var exportKey := p.derive(exportPassword, salt);
    var payload := p.seal(exportKey, draw, p.stringify(entries));
    assert p.open(exportKey, payload) == Some(p.stringify(entries));
    assert p.open(p.derive(attempt, salt), payload) == None;
  }

  /** The user's entries in creation order, read from the plain vault. */
  ghost function EntriesIn(v: Plain, rows: seq<Row>): seq<Entry>
    requires forall i :: 0 <= i < |rows| ==> KeyOf(rows[i]) in v
  {
    seq(|rows|, i requires 0 <= i < |rows| => v[KeyOf(rows[i])])
  }

  lemma {:induction false} RowsOpenToVault(p: Platform, keys: map<Id, Bytes>, rows: seq<Row>, v: Plain, userId: Id)
    requires userId in keys
    requires forall i :: 0 <= i < |rows| ==> rows[i].userId == userId && Shown(p, keys, rows[i], v)
    ensures forall i :: 0 <= i < |rows| ==> KeyOf(rows[i]) in v
    ensures EntriesUnder(p, keys[userId], rows) == Some(EntriesIn(v, rows))
  {
    assert forall i :: 0 <= i < |rows| ==> Shown(p, keys, rows[i], v);
    if rows == [] {
      assert EntriesIn(v, rows) == [];
    } else {
      RowsOpenToVault(p, keys, rows[1..], v, userId);
      assert EntryUnder(p, keys[userId], rows[0]) == Some(v[KeyOf(rows[0])]);
      assert EntriesIn(v, rows) == [v[KeyOf(rows[0])]] + EntriesIn(v, rows[1..]);
    }
  }

  /** An export of represented tables succeeds, and its file opens to the user's part of the vault. */
  lemma ExportShowsVault(p: Platform, keys: map<Id, Bytes>, rows: seq<Row>, v: Plain, userId: Id,
      exportPassword: string, salt: string, draw: nat)
    requires RoundTrips(p) && JsonRoundTrips(p) && Represents(p, keys, rows, v) && userId in keys
    ensures forall i :: 0 <= i < |RowsOf(rows, userId)| ==> KeyOf(RowsOf(rows, userId)[i]) in v
    ensures var file := ExportFile(p, rows, userId, keys[userId], exportPassword, salt, draw);
            file.Ok? && OpenFile(p, exportPassword, file.value) == Ok(EntriesIn(v, RowsOf(rows, userId)))
  {
    var own := RowsOf(rows, userId);
    forall i | 0 <= i < |own|
      ensures own[i].userId == userId && Shown(p, keys, own[i], v)
    {
      RowsOfMembers(rows, userId, own[i]);
    }
    RowsOpenToVault(p, keys, own, v, userId);
    ExportOpens(p, rows, userId, keys[userId], exportPassword, salt, draw);
  }

  ghost predicate EntryKeysUnique(entries: seq<Entry>) {
    forall i, j :: 0 <= i < j < |entries| ==>
      !(entries[i].urlOrAppName == entries[j].urlOrAppName && entries[i].loginId == entries[j].loginId)
  }

  lemma {:induction false} RowsOfUnique(rows: seq<Row>, userId: Id)
    requires KeysUnique(rows)
    ensures KeysUnique(RowsOf(rows, userId))
  {
    if rows != [] {
      RowsOfUnique(rows[1..], userId);
      forall r | r in RowsOf(rows[1..], userId)
        ensures KeyOf(r) != KeyOf(rows[0])
      {
        RowsOfMembers(rows[1..], userId, r);
        var i :| 0 <= i < |rows[1..]| && rows[1..][i] == r;
        assert rows[i + 1] == r;
      }
    }
  }

  lemma {:induction false} EntriesShow(p: Platform, key: Bytes, rows: seq<Row>, userId: Id)
    requires EntriesUnder(p, key, rows).Some?
    requires forall i :: 0 <= i < |rows| ==> rows[i].userId == userId
    ensures |EntriesUnder(p, key, rows).value| == |rows|
    ensures forall i :: 0 <= i < |rows| ==> EntryKey(userId, EntriesUnder(p, key, rows).value[i]) == KeyOf(rows[i])
  {
    if rows != [] {
      EntriesShow(p, key, rows[1..], userId);
    }
  }

  /** Every exported list has unique keys, because the source table does. */
  lemma ExportKeysUnique(p: Platform, rows: seq<Row>, userId: Id, key: Bytes)
    requires KeysUnique(rows) && EntriesUnder(p, key, RowsOf(rows, userId)).Some?
    ensures EntryKeysUnique(EntriesUnder(p, key, RowsOf(rows, userId)).value)
  {
    var own := RowsOf(rows, userId);
    RowsOfUnique(rows, userId);
    forall i | 0 <= i < |own|
      ensures own[i].userId == userId
    {
      RowsOfMembers(rows, userId, own[i]);
    }
    EntriesShow(p, key, own, userId);
    var entries := EntriesUnder(p, key, own).value;
    forall i, j | 0 <= i < j < |entries|
      ensures !(entries[i].urlOrAppName == entries[j].urlOrAppName && entries[i].loginId == entries[j].loginId)
    {
      assert KeyOf(own[i]) != KeyOf(own[j]);
      assert EntryKey(userId, entries[i]) == KeyOf(own[i]) && EntryKey(userId, entries[j]) == KeyOf(own[j]);
    }
  }

  ghost predicate AllFree(rows: seq<Row>, userId: Id, entries: seq<Entry>) {
    forall i :: 0 <= i < |entries| ==> !Taken(rows, EntryKey(userId, entries[i]))
  }

  lemma StillFree(rows: seq<Row>, row: Row, userId: Id, entries: seq<Entry>)
    requires entries != [] && EntryKeysUnique(entries) && AllFree(rows, userId, entries)
    requires KeyOf(row) == EntryKey(userId, entries[0])
    ensures AllFree(rows + [row], userId, entries[1..]) && EntryKeysUnique(entries[1..])
  {
    forall i | 0 <= i < |entries[1..]|
      ensures !Taken(rows + [row], EntryKey(userId, entries[1..][i]))
    {
      assert entries[1..][i] == entries[i + 1] && !Taken(rows, EntryKey(userId, entries[i + 1]));
      assert forall k :: 0 <= k < |rows| ==> (rows + [row])[k] == rows[k];
    }
  }

  /** `after` is `rows` with these entries appended, under this key. */
  ghost predicate Appended(p: Platform, rows: seq<Row>, after: seq<Row>, userId: Id, key: Bytes, entries: seq<Entry>) {
    rows <= after && (forall i :: |rows| <= i < |after| ==> after[i].userId == userId) &&
    EntriesUnder(p, key, after[|rows|..]) == Some(entries)
  }

  lemma AppendedOneMore(p: Platform, rows: seq<Row>, row: Row, after: seq<Row>, userId: Id, key: Bytes, e: Entry,
      entries: seq<Entry>)
    requires Appended(p, rows + [row], after, userId, key, entries)
    requires row.userId == userId && EntryUnder(p, key, row) == Some(e)
    ensures Appended(p, rows, after, userId, key, [e] + entries)
  {
    var added := after[|rows|..];
    assert after[|rows|] == (rows + [row])[|rows|] == row;
    assert added[0] == row && added[1..] == after[|rows| + 1..];
  }

  /** Importing entries with unique, free keys appends all of them, in order, skipping none. */
  lemma {:induction false} FreshImportAppends(p: Platform, rows: seq<Row>, nextId: Id, userId: Id, key: Bytes,
      entries: seq<Entry>, draw: nat)
    requires RoundTrips(p) && EntryKeysUnique(entries) && AllFree(rows, userId, entries)
    ensures var r := ImportEntries(p, rows, nextId, userId, key, entries, draw);
            r.imported == |entries| && r.skipped == 0 && Appended(p, rows, r.rows, userId, key, entries)
    decreases |entries|
  {
    if entries == [] {
      assert rows[|rows|..] == [];
    } else {
      var row := NewRow(p, nextId, userId, key, entries[0], draw);
      StillFree(rows, row, userId, entries);
      FreshImportAppends(p, rows + [row], nextId + 1, userId, key, entries[1..], draw + 1);
      assert p.open(key, p.seal(key, draw, entries[0].password)) == Some(entries[0].password);
      AppendedOneMore(p, rows, row,
                      ImportEntries(p, rows + [row], nextId + 1, userId, key, entries[1..], draw + 1).rows,
                      userId, key, entries[0], entries[1..]);
      assert !Taken(rows, EntryKey(userId, entries[0]));
      assert entries == [entries[0]] + entries[1..];
      hide Appended, Taken, EntryKeysUnique, RoundTrips;
    }
  }

  lemma {:induction false} AllOwned(rows: seq<Row>, userId: Id)
    requires forall i :: 0 <= i < |rows| ==> rows[i].userId == userId
    ensures RowsOf(rows, userId) == rows
  {
    if rows != [] {
      AllOwned(rows[1..], userId);
    }
  }

  lemma {:induction false} NoneOwned(rows: seq<Row>, userId: Id)
    requires forall i :: 0 <= i < |rows| ==> rows[i].userId != userId
    ensures RowsOf(rows, userId) == []
  {
    if rows != [] {
      NoneOwned(rows[1..], userId);
    }
  }

  /** Round trip across keys: a user's export, imported into the empty vault of any user under any
      other key, restores every entry in the same order with nothing skipped. */
  lemma ExportImportRoundTrip(
    p: Platform, source: seq<Row>, user: Id, key: Bytes, exportPassword: string, salt: string, draw: nat,
    target: seq<Row>, nextId: Id, other: Id, otherKey: Bytes, later: nat)
    requires RoundTrips(p) && JsonRoundTrips(p) && KeysUnique(source)
    requires EntriesUnder(p, key, RowsOf(source, user)).Some?
    requires forall i :: 0 <= i < |target| ==> target[i].userId != other
    ensures var file := ExportFile(p, source, user, key, exportPassword, salt, draw).value;
            OpenFile(p, exportPassword, file).Ok? &&
            var r := ImportEntries(p, target, nextId, other, otherKey, OpenFile(p, exportPassword, file).value, later);
            r.skipped == 0 && target <= r.rows &&
            EntriesUnder(p, otherKey, RowsOf(r.rows, other)) == EntriesUnder(p, key, RowsOf(source, user))
  {
    var entries := EntriesUnder(p, key, RowsOf(source, user)).value;
    ExportOpens(p, source, user, key, exportPassword, salt, draw);
    ExportKeysUnique(p, source, user, key);
    FreshImportAppends(p, target, nextId, other, otherKey, entries, later);
    var after := ImportEntries(p, target, nextId, other, otherKey, entries, later).rows;
    assert after == target + after[|target|..];
    RowsOfConcat(target, after[|target|..], other);
    NoneOwned(target, other);
    AllOwned(after[|target|..], other);
    assert [] + after[|target|..] == after[|target|..];
  }

  /** Into a vault that is not empty, the same import gives the union in which the destination wins. */
  lemma ExportImportUnion(
    p: Platform, source: seq<Row>, user: Id, key: Bytes, exportPassword: string, salt: string, draw: nat,
    keys: map<Id, Bytes>, target: seq<Row>, v: Plain, nextId: Id, other: Id, later: nat)
    requires RoundTrips(p) && JsonRoundTrips(p) && KeysUnique(source)
    requires EntriesUnder(p, key, RowsOf(source, user)).Some?
    requires Represents(p, keys, target, v) && WellFormed(target, nextId) && other in keys
    ensures var file := ExportFile(p, source, user, key, exportPassword, salt, draw).value;
            var entries := EntriesUnder(p, key, RowsOf(source, user)).value;
            OpenFile(p, exportPassword, file) == Ok(entries) &&
            var after := ImportEntries(p, target, nextId, other, keys[other], entries, later).rows;
            exists w :: Represents(p, keys, after, w) &&
              (forall k :: k in w <==> k in v || Offers(other, entries, k)) &&
              (forall k :: k in v ==> w[k] == v[k]) &&
              (forall i :: 0 <= i < |entries| && EntryKey(other, entries[i]) !in v ==>
                 w[EntryKey(other, entries[i])] == entries[i])
  {
    var entries := EntriesUnder(p, key, RowsOf(source, user)).value;
    ExportOpens(p, source, user, key, exportPassword, salt, draw);
    ExportKeysUnique(p, source, user, key);
    ImportRefines(p, keys, target, v, nextId, other, entries, later);
    var w := InsertAll(v, other, entries);
    forall k
      ensures k in w <==> k in v || Offers(other, entries, k)
      ensures k in v ==> w[k] == v[k]
    {
      ImportMeaning(v, other, entries, k);
    }
    forall i | 0 <= i < |entries| && EntryKey(other, entries[i]) !in v
      ensures w[EntryKey(other, entries[i])] == entries[i]
    {
      ImportMeaning(v, other, entries, EntryKey(other, entries[i]));
      OnlyOffer(other, entries, i);
    }
  }

  lemma {:induction false} OnlyOffer(userId: Id, entries: seq<Entry>, i: nat)
    requires EntryKeysUnique(entries) && i < |entries|
    ensures Offers(userId, entries, EntryKey(userId, entries[i]))
    ensures FirstOffer(userId, entries, EntryKey(userId, entries[i])) == entries[i]
  {
    assert Offers(userId, entries, EntryKey(userId, entries[i]));
    if i > 0 {
      assert entries[1..][i - 1] == entries[i];
      OffersLater(userId, entries, EntryKey(userId, entries[i]));
      OnlyOffer(userId, entries[1..], i - 1);
    }
  }

  // ---------------------------------------------------------------------------------
  // Re-encryption
  // ---------------------------------------------------------------------------------

  ghost predicate SnapshotIdsUnique(snapshot: seq<(Id, string)>) {
    forall i, j :: 0 <= i < j < |snapshot| ==> snapshot[i].0 != snapshot[j].0
  }

  ghost predicate Usable(p: Platform, rows: seq<Row>, s: (Id, string), oldKey: Bytes) {
    IndexOfId(rows, s.0).Some? && p.open(oldKey, s.1).Some?
  }

  /** What re-encryption does to one row: a row in the snapshot opens under the new key to what its
      snapshot ciphertext held, and nothing else about it changes; other rows do not change. */
  ghost predicate RowReencrypted(p: Platform, before: Row, after: Row, snapshot: seq<(Id, string)>, oldKey: Bytes,
      newKey: Bytes) {
    after == before.(encryptedPassword := after.encryptedPassword) &&
    (forall s :: s in snapshot && s.0 == before.id ==>
       p.open(newKey, after.encryptedPassword) == p.open(oldKey, s.1)) &&
    ((forall s :: s in snapshot ==> s.0 != before.id) ==> after == before)
  }

  ghost predicate RowsReencrypted(p: Platform, rows: seq<Row>, after: seq<Row>, snapshot: seq<(Id, string)>,
      oldKey: Bytes, newKey: Bytes) {
    |after| == |rows| && forall i :: 0 <= i < |rows| ==> RowReencrypted(p, rows[i], after[i], snapshot, oldKey, newKey)
  }

  /** All or nothing: re-encryption succeeds exactly when every snapshot row still exists and
      decrypts under the old key; then it has the effect above on every row. */
  lemma {:induction false} ReencryptMeaning(p: Platform, rows: seq<Row>, snapshot: seq<(Id, string)>, oldKey: Bytes,
      newKey: Bytes, draw: nat)
    requires RoundTrips(p) && IdsUnique(rows) && SnapshotIdsUnique(snapshot)
    ensures var r := Reencrypt(p, rows, snapshot, oldKey, newKey, draw);
            (r.Some? <==> forall s :: s in snapshot ==> Usable(p, rows, s, oldKey)) &&
            (r.Some? ==> RowsReencrypted(p, rows, r.value, snapshot, oldKey, newKey))
    decreases |snapshot|
  {
    if snapshot != [] {
      var s, rest := snapshot[0], snapshot[1..];
      assert snapshot == [s] + rest;
      if Usable(p, rows, s, oldKey) {
        var i := IndexOfId(rows, s.0).value;
        var text := p.open(oldKey, s.1).value;
        var sealed := p.seal(newKey, draw, text);
        var next := rows[i := rows[i].(encryptedPassword := sealed)];
        assert p.open(newKey, sealed) == Some(text);
        ReencryptMeaning(p, next, rest, oldKey, newKey, draw + 1);
        UsableAfterUpdate(p, rows, i, sealed, rest, oldKey);
        var r := Reencrypt(p, next, rest, oldKey, newKey, draw + 1);
        if r.Some? {
          forall k | 0 <= k < |rows|
            ensures RowReencrypted(p, rows[k], r.value[k], snapshot, oldKey, newKey)
          {
            assert RowReencrypted(p, next[k], r.value[k], rest, oldKey, newKey);
            RowStep(p, rows, next, k, i, r.value[k], snapshot, oldKey, newKey);
          }
        }
      } else {
        assert s in snapshot;
      }
    }
  }

  lemma UsableAfterUpdate(p: Platform, rows: seq<Row>, i: nat, sealed: string, rest: seq<(Id, string)>, oldKey: Bytes)
    requires i < |rows|
    ensures var next := rows[i := rows[i].(encryptedPassword := sealed)];
            forall s :: s in rest ==> (Usable(p, next, s, oldKey) <==> Usable(p, rows, s, oldKey))
  {
    var next := rows[i := rows[i].(encryptedPassword := sealed)];
    assert forall k :: 0 <= k < |rows| ==> next[k].id == rows[k].id;
  }

  lemma RowStep(p: Platform, rows: seq<Row>, next: seq<Row>, k: nat, i: nat, after: Row, snapshot: seq<(Id, string)>,
      oldKey: Bytes, newKey: Bytes)
    requires k < |rows| == |next| && i < |rows| && IdsUnique(rows) && SnapshotIdsUnique(snapshot) && snapshot != []
    requires rows[i].id == snapshot[0].0 && next == rows[i := next[i]] &&
             next[i] == rows[i].(encryptedPassword := next[i].encryptedPassword)
    requires p.open(newKey, next[i].encryptedPassword) == p.open(oldKey, snapshot[0].1)
    requires RowReencrypted(p, next[k], after, snapshot[1..], oldKey, newKey)
    ensures RowReencrypted(p, rows[k], after, snapshot, oldKey, newKey)
  {
    var s, rest := snapshot[0], snapshot[1..];
    forall t | t in rest
      ensures t.0 != s.0
    {
      var m :| 0 <= m < |rest| && rest[m] == t;
      assert snapshot[m + 1] == t;
    }
    assert snapshot == [s] + rest;
    assert k != i ==> rows[k].id != s.0;
    assert s in snapshot;
  }

  lemma {:induction false} RowsOfIdsUnique(rows: seq<Row>, userId: Id)
    requires IdsUnique(rows)
    ensures SnapshotIdsUnique(Snapshot(rows, userId))
  {
    if rows != [] {
      RowsOfIdsUnique(rows[1..], userId);
      var own := RowsOf(rows[1..], userId);
      forall k | 0 <= k < |own|
        ensures own[k].id != rows[0].id
      {
        RowsOfMembers(rows[1..], userId, own[k]);
        var i :| 0 <= i < |rows[1..]| && rows[1..][i] == own[k];
        assert rows[i + 1] == own[k];
      }
      assert forall k :: 0 <= k < |own| ==> Snapshot(rows[1..], userId)[k].0 == own[k].id;
      if rows[0].userId == userId {
        assert forall k :: 1 <= k < |RowsOf(rows, userId)| ==> RowsOf(rows, userId)[k] == own[k - 1];
      }
    }
  }

  lemma SnapshotMembers(rows: seq<Row>, userId: Id, s: (Id, string))
    ensures s in Snapshot(rows, userId) <==>
              exists i :: 0 <= i < |rows| && rows[i].userId == userId && (rows[i].id, rows[i].encryptedPassword) == s
  {
    var own := RowsOf(rows, userId);
    if s in Snapshot(rows, userId) {
      var k :| 0 <= k < |own| && Snapshot(rows, userId)[k] == s;
      RowsOfMembers(rows, userId, own[k]);
    }
    if i :| 0 <= i < |rows| && rows[i].userId == userId && (rows[i].id, rows[i].encryptedPassword) == s {
      RowsOfMembers(rows, userId, rows[i]);
      var k :| 0 <= k < |own| && own[k] == rows[i];
      assert Snapshot(rows, userId)[k] == s;
    }
  }

  /** With a current snapshot, changing the key of one user keeps the plain vault: every row of the
      user re-encrypts, and the table represents the same map under the new keys. */
  lemma ChangeKeepsVault(p: Platform, keys: map<Id, Bytes>, rows: seq<Row>, v: Plain, userId: Id, newKey: Bytes,
      draw: nat)
    requires RoundTrips(p) && Represents(p, keys, rows, v) && IdsUnique(rows) && userId in keys
    ensures var r := Reencrypt(p, rows, Snapshot(rows, userId), keys[userId], newKey, draw);
            r.Some? && Represents(p, keys[userId := newKey], r.value, v) && SameKeysAndIds(rows, r.value)
  {
    hide Shown, Usable, IdsUnique, RoundTrips, RowReencrypted, Snapshot, SnapshotIdsUnique, Reencrypt, Taken;
    var snapshot := Snapshot(rows, userId);
    RowsOfIdsUnique(rows, userId);
    ReencryptMeaning(p, rows, snapshot, keys[userId], newKey, draw);
    OwnRowsUsable(p, keys, rows, v, userId);
    var after := Reencrypt(p, rows, snapshot, keys[userId], newKey, draw).value;
    forall i | 0 <= i < |rows|
      ensures Shown(p, keys[userId := newKey], after[i], v) && KeyOf(after[i]) == KeyOf(rows[i]) &&
              after[i].id == rows[i].id
    {
      assert Shown(p, keys, rows[i], v) && RowReencrypted(p, rows[i], after[i], snapshot, keys[userId], newKey);
      OwnRowInSnapshot(rows, userId, i);
      ReencryptedRowShown(p, keys, rows[i], after[i], v, snapshot, userId, newKey);
    }
    SameRowsTaken(rows, after);
  }

  lemma OwnRowsUsable(p: Platform, keys: map<Id, Bytes>, rows: seq<Row>, v: Plain, userId: Id)
    requires Represents(p, keys, rows, v) && userId in keys
    ensures forall s :: s in Snapshot(rows, userId) ==> Usable(p, rows, s, keys[userId])
  {
    forall s | s in Snapshot(rows, userId)
      ensures Usable(p, rows, s, keys[userId])
    {
      SnapshotMembers(rows, userId, s);
      var i :| 0 <= i < |rows| && rows[i].userId == userId && (rows[i].id, rows[i].encryptedPassword) == s;
      assert Shown(p, keys, rows[i], v);
    }
  }

  lemma ReencryptedRowShown(p: Platform, keys: map<Id, Bytes>, before: Row, after: Row, v: Plain,
      snapshot: seq<(Id, string)>, userId: Id, newKey: Bytes)
    requires userId in keys && Shown(p, keys, before, v)
    requires RowReencrypted(p, before, after, snapshot, keys[userId], newKey)
    requires before.userId == userId ==> (before.id, before.encryptedPassword) in snapshot
    requires before.userId != userId ==> forall s :: s in snapshot ==> s.0 != before.id
    ensures Shown(p, keys[userId := newKey], after, v) && KeyOf(after) == KeyOf(before) && after.id == before.id
  {
  }

  ghost predicate SameKeysAndIds(rows: seq<Row>, after: seq<Row>) {
    |after| == |rows| && forall i :: 0 <= i < |rows| ==> KeyOf(after[i]) == KeyOf(rows[i]) && after[i].id == rows[i].id
  }

  lemma SameRowsTaken(rows: seq<Row>, after: seq<Row>)
    requires SameKeysAndIds(rows, after)
    ensures forall key :: Taken(rows, key) <==> Taken(after, key)
  {
    forall key
      ensures Taken(rows, key) <==> Taken(after, key)
    {
      if i :| 0 <= i < |rows| && KeyOf(rows[i]) == key {
        assert KeyOf(after[i]) == key;
      }
      if i :| 0 <= i < |after| && KeyOf(after[i]) == key {
        assert KeyOf(rows[i]) == key;
      }
    }
  }

  /** A row is in the snapshot of its owner and in nobody else's. */
  lemma OwnRowInSnapshot(rows: seq<Row>, userId: Id, i: nat)
    requires IdsUnique(rows) && i < |rows|
    ensures rows[i].userId == userId ==> (rows[i].id, rows[i].encryptedPassword) in Snapshot(rows, userId)
    ensures rows[i].userId != userId ==> forall s :: s in Snapshot(rows, userId) ==> s.0 != rows[i].id
  {
    SnapshotMembers(rows, userId, (rows[i].id, rows[i].encryptedPassword));
    if rows[i].userId != userId {
      forall s | s in Snapshot(rows, userId)
        ensures s.0 != rows[i].id
      {
        SnapshotMembers(rows, userId, s);
      }
    }
  }

  /** The snapshot names only rows of this user: row ids are never reused and never change hands. */
  ghost predicate SnapshotOwned(rows: seq<Row>, snapshot: seq<(Id, string)>, userId: Id) {
    forall s, i :: s in snapshot && 0 <= i < |rows| && rows[i].id == s.0 ==> rows[i].userId == userId
  }

  /** Every current row of the user is in the snapshot, with a ciphertext of the same text. */
  ghost predicate SnapshotCurrent(p: Platform, rows: seq<Row>, snapshot: seq<(Id, string)>, userId: Id, oldKey: Bytes) {
    forall i :: 0 <= i < |rows| && rows[i].userId == userId ==> RowCurrent(p, rows[i], snapshot, oldKey)
  }

  ghost predicate RowCurrent(p: Platform, r: Row, snapshot: seq<(Id, string)>, oldKey: Bytes) {
    exists s :: s in snapshot && s.0 == r.id && p.open(oldKey, s.1) == p.open(oldKey, r.encryptedPassword)
  }

  /** The snapshot is read before the transaction. A transaction that commits with it keeps the vault
      exactly when no row of the user was created or given another password in between. */
  lemma StaleSnapshotExact(p: Platform, keys: map<Id, Bytes>, rows: seq<Row>, v: Plain, snapshot: seq<(Id, string)>,
      userId: Id, newKey: Bytes, draw: nat)
    requires RoundTrips(p) && WrongKeyFails(p) && Represents(p, keys, rows, v) && IdsUnique(rows)
    requires userId in keys && keys[userId] != newKey
    requires SnapshotIdsUnique(snapshot) && SnapshotOwned(rows, snapshot, userId)
    requires Reencrypt(p, rows, snapshot, keys[userId], newKey, draw).Some?
    ensures Represents(p, keys[userId := newKey], Reencrypt(p, rows, snapshot, keys[userId], newKey, draw).value,
                       v) <==>
              SnapshotCurrent(p, rows, snapshot, userId, keys[userId])
  {
    ReencryptMeaning(p, rows, snapshot, keys[userId], newKey, draw);
    StaleRows(p, keys, rows, v, snapshot, userId, newKey,
              Reencrypt(p, rows, snapshot, keys[userId], newKey, draw).value);
  }

  lemma StaleRows(p: Platform, keys: map<Id, Bytes>, rows: seq<Row>, v: Plain, snapshot: seq<(Id, string)>,
      userId: Id, newKey: Bytes, after: seq<Row>)
    requires WrongKeyFails(p) && Represents(p, keys, rows, v) && userId in keys && keys[userId] != newKey
    requires SnapshotOwned(rows, snapshot, userId) && RowsReencrypted(p, rows, after, snapshot, keys[userId], newKey)
    ensures Represents(p, keys[userId := newKey], after, v) <==>
              SnapshotCurrent(p, rows, snapshot, userId, keys[userId])
  {
    hide WrongKeyFails, Shown, RowCurrent;
    forall i | 0 <= i < |rows|
      ensures KeyOf(after[i]) == KeyOf(rows[i]) && after[i].id == rows[i].id
      ensures Shown(p, keys[userId := newKey], after[i], v) <==>
                (rows[i].userId == userId ==> RowCurrent(p, rows[i], snapshot, keys[userId]))
    {
      assert Shown(p, keys, rows[i], v) && RowReencrypted(p, rows[i], after[i], snapshot, keys[userId], newKey);
      StaleRow(p, keys, rows[i], after[i], v, snapshot, userId, newKey);
    }
    SameRowsTaken(rows, after);
  }

  lemma StaleRow(p: Platform, keys: map<Id, Bytes>, r: Row, after: Row, v: Plain, snapshot: seq<(Id, string)>,
      userId: Id, newKey: Bytes)
    requires WrongKeyFails(p) && Shown(p, keys, r, v) && userId in keys && keys[userId] != newKey
    requires RowReencrypted(p, r, after, snapshot, keys[userId], newKey)
    requires r.userId != userId ==> forall s :: s in snapshot ==> s.0 != r.id
    ensures Shown(p, keys[userId := newKey], after, v) <==>
              (r.userId == userId ==> RowCurrent(p, r, snapshot, keys[userId]))
  {
    if r.userId == userId {
      if s :| s in snapshot && s.0 == r.id {
        assert p.open(newKey, after.encryptedPassword) == p.open(keys[userId], s.1);
      } else {
        assert p.open(keys[userId], r.encryptedPassword).Some? ==> p.open(newKey, r.encryptedPassword) == None;
      }
    }
  }
}
