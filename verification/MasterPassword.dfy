/** The master-password change by itself: all or nothing, and preserving what every row holds. */
module MasterPassword {
  import opened Platform
  import opened Vault
  import opened Backup
  import opened UnlockKeyStore
  import opened Auth

  /** The row holds the same text under the new key, or is somebody else's and untouched. */
  ghost predicate RowCarriedOver(p: Platform, before: Row, after: Row, userId: Id, oldKey: Bytes, newKey: Bytes) {
    after == before.(encryptedPassword := after.encryptedPassword) &&
    (before.userId == userId ==> p.open(newKey, after.encryptedPassword) == p.open(oldKey, before.encryptedPassword)) &&
    (before.userId != userId ==> after == before)
  }

  ghost predicate RowsCarriedOver(p: Platform, rows: seq<Row>, after: seq<Row>, userId: Id, oldKey: Bytes,
      newKey: Bytes) {
    |after| == |rows| && forall i :: 0 <= i < |rows| ==> RowCarriedOver(p, rows[i], after[i], userId, oldKey, newKey)
  }

  ghost predicate AllOpen(p: Platform, rows: seq<Row>, userId: Id, key: Bytes) {
    forall i :: 0 <= i < |rows| && rows[i].userId == userId ==> p.open(key, rows[i].encryptedPassword).Some?
  }

  lemma ReencryptOwn(p: Platform, rows: seq<Row>, userId: Id, oldKey: Bytes, newKey: Bytes, draw: nat)
    requires RoundTrips(p) && IdsUnique(rows)
    ensures var r := Reencrypt(p, rows, Snapshot(rows, userId), oldKey, newKey, draw);
            (r.Some? <==> AllOpen(p, rows, userId, oldKey)) &&
            (r.Some? ==> RowsCarriedOver(p, rows, r.value, userId, oldKey, newKey))
  {
    var snapshot := Snapshot(rows, userId);
    RowsOfIdsUnique(rows, userId);
    ReencryptMeaning(p, rows, snapshot, oldKey, newKey, draw);
    forall s | s in snapshot
      ensures AllOpen(p, rows, userId, oldKey) ==> Usable(p, rows, s, oldKey)
    {
      SnapshotMembers(rows, userId, s);
    }
    forall i | 0 <= i < |rows|
      ensures rows[i].userId == userId ==> (rows[i].id, rows[i].encryptedPassword) in snapshot
      ensures rows[i].userId != userId ==> forall s :: s in snapshot ==> s.0 != rows[i].id
    {
      OwnRowInSnapshot(rows, userId, i);
    }
    var r := Reencrypt(p, rows, snapshot, oldKey, newKey, draw);
    if r.Some? {
      forall i | 0 <= i < |rows|
        ensures rows[i].userId == userId ==> p.open(oldKey, rows[i].encryptedPassword).Some?
        ensures RowCarriedOver(p, rows[i], r.value[i], userId, oldKey, newKey)
      {
        assert RowReencrypted(p, rows[i], r.value[i], snapshot, oldKey, newKey);
        assert rows[i].userId == userId ==> Usable(p, rows, (rows[i].id, rows[i].encryptedPassword), oldKey);
      }
    }
  }

  ghost predicate OnlyVerifies(p: Platform, user: User, password: string) {
    forall attempt :: p.verify(attempt, user.masterPasswordHash) <==> attempt == password
  }

  ghost predicate DevicesRevoked(devices: seq<Device>, after: seq<Device>, u: Id, response: Response) {
    (forall d :: multiset(after)[d] == if d.userId == u then 0 else multiset(devices)[d]) &&
    |after| <= |devices| && response == Answer(Revoked(|devices| - |after|))
  }

  ghost predicate ChangedOver(p: Platform, db: Db, out: Outcome, u: Id, currentPassword: string, newPassword: string) {
    u < |db.users| && |out.db.users| == |db.users| &&
    (forall v :: 0 <= v < |db.users| && v != u ==> out.db.users[v] == db.users[v]) &&
    OnlyVerifies(p, out.db.users[u], newPassword) &&
    out.db.users[u] ==
      db.users[u].(masterPasswordHash := out.db.users[u].masterPasswordHash,
                   masterKdfSalt := out.db.users[u].masterKdfSalt) &&
    RowsCarriedOver(p, db.accounts, out.db.accounts, u,
                    p.derive(currentPassword, db.users[u].masterKdfSalt),
                        p.derive(newPassword, out.db.users[u].masterKdfSalt)) &&
    DevicesRevoked(db.devices, out.db.devices, u, out.response)
  }

  lemma AllRevoked(devices: seq<Device>, u: Id)
    ensures DevicesRevoked(devices, DevicesNotOf(devices, u), u, Answer(Revoked(|DevicesOf(devices, u)|)))
  {
    DevicesSplit(devices, u);
    forall d
      ensures multiset(DevicesNotOf(devices, u))[d] == if d.userId == u then 0 else multiset(devices)[d]
    {
      DevicesKept(devices, u, d);
    }
  }

  lemma NewHashVerifies(p: Platform, user: User, password: string, salt: string, hashDraw: nat)
    requires Lawful(p)
    ensures OnlyVerifies(p, user.(masterPasswordHash := p.hash(password, hashDraw), masterKdfSalt := salt), password)
  {
  }

  /** The change goes through exactly when the current password is right, the new one is long enough
      and every row of the user opens. Then every row carries over, exactly the new password verifies,
      and exactly the user's devices are gone, all counted. Otherwise nothing has changed. */
  lemma ChangeAllOrNothing(p: Platform, db: Db, s: Session, slot: Slot, now: int, u: Id,
                           currentPassword: string, newPassword: string, salt: string, hashDraw: nat, draw: nat)
    requires Lawful(p) && IdsUnique(db.accounts)
    ensures var out := ChangePassword(p, db, s, slot, now, u, currentPassword, newPassword, salt, hashDraw, draw);
            (out.response.Answer? <==>
               u < |db.users| && p.verify(currentPassword, db.users[u].masterPasswordHash) &&
               |newPassword| >= 8 &&
               AllOpen(p, db.accounts, u, p.derive(currentPassword, db.users[u].masterKdfSalt))) &&
            (out.response.Failed? ==> out.db == db && out.session == s && out.slot == slot) &&
            (out.response.Answer? ==>
               ChangedOver(p, db, out, u, currentPassword, newPassword) &&
               out.session == s.(unlocked := true) &&
               out.slot ==
                 Filled(p.derive(newPassword, out.db.users[u].masterKdfSalt), db.users[u].autoLockMinutes, now))
  {
    if u < |db.users| {
      ReencryptOwn(p, db.accounts, u, p.derive(currentPassword, db.users[u].masterKdfSalt),
                   p.derive(newPassword, salt), draw);
      AllRevoked(db.devices, u);
      NewHashVerifies(p, db.users[u], newPassword, salt, hashDraw);
    }
    hide Reencrypt, Snapshot, AllOpen, RowsCarriedOver, DevicesRevoked, OnlyVerifies, Lawful, IdsUnique, DevicesOf,
        DevicesNotOf;
  }
}
