/** Serial runs of requests from many sessions, with an explicit clock and server restarts. */
module AuthRuns {
  import opened Platform
  import opened UnlockKeyStore
  import opened Auth

  datatype World = World(now: int, db: Db, sessions: map<string, Session>, store: map<string, UnlockEntry>)

  /** `elapsed` is the time since the previous event, so that time never runs backwards. */
  datatype Event =
    | Call(elapsed: nat, sid: string, req: Request)
    | Restart(elapsed: nat)

  const INITIAL := World(0, Db([], [], [], 0), map[], map[])

  function SessionOf(w: World, sid: string): Session {
    if sid in w.sessions then w.sessions[sid] else NO_SESSION
  }

  function Answered(p: Platform, w: World, elapsed: nat, sid: string, req: Request): Outcome {
    Handle(p, w.db, SessionOf(w, sid), SlotOf(w.store, sid), w.now + elapsed, req)
  }

  /** A restart wipes the key store and nothing else. */
  function Step(p: Platform, w: World, e: Event): World {
    match e
    case Restart(elapsed) => w.(now := w.now + elapsed, store := map[])
    case Call(elapsed, sid, req) =>
      var out := Answered(p, w, elapsed, sid, req);
      World(w.now + elapsed, out.db, w.sessions[sid := out.session], WithSlot(w.store, sid, out.slot))
  }

  function At(p: Platform, es: seq<Event>, n: nat): World
    requires n <= |es|
  {
    if n == 0 then INITIAL else Step(p, At(p, es, n - 1), es[n - 1])
  }

  predicate By(es: seq<Event>, k: nat, sid: string)
    requires k < |es|
  {
    es[k].Call? && es[k].sid == sid
  }

  function ResponseAt(p: Platform, es: seq<Event>, k: nat): Response
    requires k < |es| && es[k].Call?
  {
    Answered(p, At(p, es, k), es[k].elapsed, es[k].sid, es[k].req).response
  }

  /** What a call leaves in its own session and in the others. */
  lemma StepSlots(p: Platform, w: World, elapsed: nat, sid: string, req: Request, other: string)
    ensures var after, out := Step(p, w, Call(elapsed, sid, req)), Answered(p, w, elapsed, sid, req);
            (other == sid ==> SessionOf(after, other) == out.session && SlotOf(after.store, other) == out.slot) &&
            (other != sid ==>
               SessionOf(after, other) == SessionOf(w, other) && SlotOf(after.store, other) == SlotOf(w.store, other))
  {
  }

  // ---------------------------------------------------------------------------------
  // Lazy expiry against eager expiry
  // ---------------------------------------------------------------------------------

  /** The store with every entry removed whose limit has passed. */
  function Purged(w: World, now: int): World {
    w.(store := map sid | sid in w.store && !Expired(w.store[sid], now) :: w.store[sid])
  }

  /** The same server with an eager store: entries disappear the moment they expire. */
  function EagerAt(p: Platform, es: seq<Event>, n: nat): World
    requires n <= |es|
  {
    if n == 0 then INITIAL else
    var w := EagerAt(p, es, n - 1);
    Step(p, Purged(w, w.now + es[n - 1].elapsed), es[n - 1])
  }

  ghost predicate SameButExpired(lazy: World, eager: World) {
    lazy.now == eager.now && lazy.db == eager.db && lazy.sessions == eager.sessions &&
    forall sid :: Live(SlotOf(lazy.store, sid), lazy.now) == Live(SlotOf(eager.store, sid), lazy.now)
  }

  lemma InitialSame()
    ensures SameButExpired(INITIAL, INITIAL)
  {
  }

  lemma PurgedSlot(w: World, now: int, sid: string)
    ensures SlotOf(Purged(w, now).store, sid) == Live(SlotOf(w.store, sid), now)
  {
  }

  lemma StepSeesLive(p: Platform, lazy: World, eager: World, e: Event)
    requires SameButExpired(lazy, eager)
    ensures SameButExpired(Step(p, lazy, e), Step(p, Purged(eager, eager.now + e.elapsed), e))
    ensures e.Call? ==> Answered(p, lazy, e.elapsed, e.sid, e.req).response ==
                        Answered(p, Purged(eager, eager.now + e.elapsed), e.elapsed, e.sid, e.req).response
  {
    hide Handle;
    var now := lazy.now + e.elapsed;
    var purged := Purged(eager, now);
    forall sid
      ensures SlotOf(purged.store, sid) == Live(SlotOf(lazy.store, sid), now)
    {
      PurgedSlot(eager, now, sid);
      ExpiryLasts(SlotOf(lazy.store, sid), lazy.now, now);
      ExpiryLasts(SlotOf(eager.store, sid), lazy.now, now);
    }
    if e.Call? {
      RequestSeesLive(p, lazy.db, SessionOf(lazy, e.sid), SlotOf(lazy.store, e.sid), now, e.req);
      forall sid
        ensures Live(SlotOf(Step(p, lazy, e).store, sid), now) == Live(SlotOf(Step(p, purged, e).store, sid), now)
      {
        StepSlots(p, lazy, e.elapsed, e.sid, e.req, sid);
        StepSlots(p, purged, e.elapsed, e.sid, e.req, sid);
        ExpiryLasts(SlotOf(lazy.store, sid), now, now);
      }
    }
  }

  /** Lazy expiry equals eager expiry: over every run of requests the two servers give the same
      answers and keep the same tables and sessions. */
  lemma {:induction false} LazyExpiryIsEager(p: Platform, es: seq<Event>, n: nat)
    requires n <= |es|
    ensures SameButExpired(At(p, es, n), EagerAt(p, es, n))
    ensures n < |es| && es[n].Call? ==>
              Answered(p, At(p, es, n), es[n].elapsed, es[n].sid, es[n].req).response ==
              Answered(p, Purged(EagerAt(p, es, n), EagerAt(p, es, n).now + es[n].elapsed), es[n].elapsed, es[n].sid,
                       es[n].req).response
  {
    hide Step, SameButExpired, Answered;
    InitialSame();
    if n > 0 {
      LazyExpiryIsEager(p, es, n - 1);
      StepSeesLive(p, At(p, es, n - 1), EagerAt(p, es, n - 1), es[n - 1]);
    }
    if n < |es| {
      StepSeesLive(p, At(p, es, n), EagerAt(p, es, n), es[n]);
    }
  }
}
