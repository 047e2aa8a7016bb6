/** The in-memory store of unlocked keys, with its idle limit checked lazily. */
module UnlockKeyStore {
  import opened Wrappers
  import opened Platform

  datatype UnlockEntry = UnlockEntry(key: Bytes, autoLockMinutes: int, lastActivityAt: int)

  /** What the store holds for one session. */
  type Slot = Option<UnlockEntry>

  predicate Expired(e: UnlockEntry, now: int) {
    now - e.lastActivityAt > e.autoLockMinutes * 60_000
  }

  function Filled(key: Bytes, autoLockMinutes: int, now: int): Slot {
    Some(UnlockEntry(key, autoLockMinutes, now))
  }

  function Touched(slot: Slot, now: int): Slot {
    if slot.None? || Expired(slot.value, now) then None else Some(slot.value.(lastActivityAt := now))
  }

  function TouchedKey(slot: Slot, now: int): Option<Bytes> {
    if slot.None? || Expired(slot.value, now) then None else Some(slot.value.key)
  }

  function Relimited(slot: Slot, autoLockMinutes: int): Slot {
    if slot.None? then None else Some(slot.value.(autoLockMinutes := autoLockMinutes))
  }

  /** What an eager store would hold: nothing, from the moment the limit has passed. */
  function Live(slot: Slot, now: int): Slot {
    if slot.Some? && Expired(slot.value, now) then None else slot
  }

  /** One touch sees no difference between the lazy and the eager store. */
  lemma TouchSeesLive(slot: Slot, now: int)
    ensures Touched(Live(slot, now), now) == Touched(slot, now)
    ensures TouchedKey(Live(slot, now), now) == TouchedKey(slot, now)
  {
  }

  /** What has expired stays expired while nobody uses the entry. */
  lemma ExpiryLasts(slot: Slot, now: int, later: int)
    requires now <= later
    ensures Live(Live(slot, now), later) == Live(slot, later)
  {
  }

  /** Changing the limit without touching first agrees with the eager store exactly when there is no
      expired entry, or the new limit has passed too; otherwise it revives the entry. */
  lemma UnguardedLimitExact(slot: Slot, minutes: int, now: int)
    ensures Live(Relimited(slot, minutes), now) == Live(Relimited(Live(slot, now), minutes), now) <==>
              (slot.None? || !Expired(slot.value, now) || now - slot.value.lastActivityAt > minutes * 60_000)
  {
  }

  lemma UnguardedLimitRevives()
    ensures var slot := Filled([], 1, 0);
            TouchedKey(slot, 61_000) == None && TouchedKey(Relimited(slot, 2), 61_000) == Some([])
  {
  }

  function SlotOf(entries: map<string, UnlockEntry>, sessionId: string): Slot {
    if sessionId in entries then Some(entries[sessionId]) else None
  }

  function WithSlot(entries: map<string, UnlockEntry>, sessionId: string, slot: Slot): map<string, UnlockEntry> {
    if slot.Some? then entries[sessionId := slot.value] else entries - {sessionId}
  }

  class UnlockKeyStoreService {
    var entries: map<string, UnlockEntry>

    constructor ()
      ensures entries == map[]
    {
      entries := map[];
    }

    method Set(sessionId: string, key: Bytes, autoLockMinutes: int, now: int)
      modifies this
      ensures entries == WithSlot(old(entries), sessionId, Filled(key, autoLockMinutes, now))
    {
      entries := entries[sessionId := UnlockEntry(key, autoLockMinutes, now)];
    }

    /** Lazy expiry: an entry past its limit is removed when it is touched. */
    method Touch(sessionId: string, now: int) returns (key: Option<Bytes>)
      modifies this
      ensures key == TouchedKey(SlotOf(old(entries), sessionId), now)
      ensures entries == WithSlot(old(entries), sessionId, Touched(SlotOf(old(entries), sessionId), now))
    {
      if sessionId !in entries {
        assert entries == entries - {sessionId};
        return None;
      }
      var entry := entries[sessionId];
      var idleMs := now - entry.lastActivityAt;
      if idleMs > entry.autoLockMinutes * 60_000 {
        entries := entries - {sessionId};
        return None;
      }
      entries := entries[sessionId := entry.(lastActivityAt := now)];
      key := Some(entry.key);
    }

    method UpdateAutoLockMinutes(sessionId: string, autoLockMinutes: int)
      modifies this
      ensures entries == WithSlot(old(entries), sessionId, Relimited(SlotOf(old(entries), sessionId), autoLockMinutes))
    {
      if sessionId in entries {
        entries := entries[sessionId := entries[sessionId].(autoLockMinutes := autoLockMinutes)];
      } else {
        assert entries == entries - {sessionId};
      }
    }

    method Delete(sessionId: string)
      modifies this
      ensures entries == WithSlot(old(entries), sessionId, None)
    {
      entries := entries - {sessionId};
    }
  }
}
