/**
Sync, reconciliation, content fetches and the mailbox they read, interleaved one store or network
step at a time (internal/imapsync/imapsync.go, reconcile.go, backfill.go, state.go over the
transactions of internal/inbound/bbolt.go). UIDs follow section 2.3.1.1 of RFC 3501: ascending,
never reassigned under one UIDVALIDITY, and UIDVALIDITY itself only grows.
*/
module SyncWorld {
  import opened SeqKey
  import opened InboundDb
  import opened InboundStore
  import opened UidSets
  import opened Candidates
  import opened Options

  /** maxAge 0 means no recency cutoff; eager means bodies are assessed and stored at ingest. */
  datatype Config = Config(owner: Name, inbox: Name, maxAge: nat, eager: bool, cap: Candidates.Options)

  /** next is UIDNEXT; present maps each UID in the mailbox to its internal date. */
  datatype Upstream = Upstream(validity: Uint32, next: Uint32, present: map<Uint32, nat>)

  datatype Cursor = Cursor(validity: Uint32, last: Uint32)

  datatype Latch = Latch(suspended: bool, held: nat)

  /** Everything the concurrent runs share. */
  datatype Shared = Shared(up: Upstream, db: Db, cursor: Cursor, latch: Latch, now: nat)

  /** A run between two of its steps. session is the UIDVALIDITY its SELECT or EXAMINE reported. */
  datatype Thread =
    // Sync
    | Selected(session: Uint32, uidNext: Uint32)
    | Loaded(session: Uint32, uidNext: Uint32, cursor: Cursor, last: Uint32)
    | Pulling(session: Uint32, cursor: Cursor, ceiling: Uint32, highest: Uint32, bound: nat, todo: set<Uint32>, inflight: set<Uint32>)
    // Reconcile; bypass marks the pass of an operator release
    | Starting
    | Unlatched(bypass: bool)
    | CursorRead(bypass: bool, cursor: Cursor)
    | Examined(bypass: bool, cursor: Cursor, session: Uint32)
    | Snapped(bypass: bool, cursor: Cursor, session: Uint32, present: set<Uint32>)
    | Latching(held: nat)
    | Removing(bypass: bool, gone: seq<(nat, Record)>)
    | Releasing
    // FetchContent and the stamp of a keyword write
    | Got(writing: bool, id: nat, rec: Record)
    | Opened(writing: bool, id: nat, rec: Record, session: Uint32)
    | Confirmed(id: nat, rec: Record)
    | Vanished(id: nat, rec: Record)
    | Fetched(id: nat)

  datatype World = World(shared: Shared, threads: map<nat, Thread>)

  datatype UpAction = Arrive(uid: Uint32, date: nat) | Expunge(uid: Uint32) | Reset(validity: Uint32) | Tick(now: nat)

  datatype SyncAction = Select(reportsNext: bool) | Load | MakePlan(found: seq<Uint32>) | Deliver(uid: Uint32) | Missing(uid: Uint32) | Store(uid: Uint32) | Save

  datatype PassAction = Start | LoadLatch | LoadCursor | Examine | Search(found: set<Uint32>) | ListStore | Suspend | Remove(ok: bool) | Release | ClearLatch

  datatype ContentAction = Get(writing: bool, id: nat) | Open | Stamp | NoStampNeeded | Fetch(found: bool) | Drop | Fill

  /**
  Other users of the same store: other inboxes' syncers, messages Darbaan generates itself, and
  records of this inbox from before validities were kept, which carry none.
  */
  datatype StoreAction =
    | AddLocal(owner: Name, inbox: Name)
    | AddOld(uid: Uint32)
    | AddFor(d: Delivery, pending: bool)
    | RemoveFor(owner: Name, inbox: Name, id: nat)
    | FillFor(owner: Name, inbox: Name, id: nat)
    | StampFor(owner: Name, inbox: Name, id: nat, v: Uint32)

  datatype Action =
    | AtUpstream(u: UpAction)
    | InSync(t: nat, s: SyncAction)
    | InPass(t: nat, p: PassAction)
    | InContent(t: nat, c: ContentAction)
    | Elsewhere(e: StoreAction)
    | Abandon(t: nat)
    | Crash

  /** What a step leaves: the shared state, and the thread's next position, if it goes on. */
  datatype Effect = Effect(shared: Shared, next: Option<Thread>)

  // ---- Steps ----

  function UpStep(s: Shared, a: UpAction): Option<Shared>
  {
    match a
    case Arrive(uid, date) =>
      if s.up.next <= uid < U32 - 1 then Some(s.(up := s.up.(present := s.up.present[uid := date], next := uid + 1))) else None
    case Expunge(uid) => Some(s.(up := s.up.(present := s.up.present - {uid})))
    case Reset(validity) =>
      if validity > s.up.validity then Some(s.(up := Upstream(validity, 1, map[]))) else None
    case Tick(now) => if now >= s.now then Some(s.(now := now)) else None
  }

  /** A SEARCH SINCE answer in a session whose UID space is current: nothing recent is missed. */
  predicate SearchAnswer(c: Config, s: Shared, found: seq<Uint32>)
  {
    && (forall u :: u in found ==> u in s.up.present)
    && (forall u :: u in s.up.present && (c.maxAge > 0 ==> s.up.present[u] + c.maxAge >= s.now) ==> u in found)
  }

  /** The UIDs a FETCH of the request can return data for. */
  function TodoOf(q: Request, found: seq<Uint32>): set<Uint32>
  {
    match q
    case Nothing => {}
    case Between(lo, hi) => set u: Uint32 | lo <= u <= hi && Requested(q, u)
    case From(lo) => set u | u in found && u >= lo
    case Exactly(uids) => set u | u in uids
  }

  function Max(a: Uint32, b: Uint32): Uint32
  {
    if a > b then a else b
  }

  function SyncStep(c: Config, s: Shared, thread: Option<Thread>, a: SyncAction): Option<Effect>
  {
    match (thread, a)
    case (None, Select(reportsNext)) => Some(Effect(s, Some(Selected(s.up.validity, if reportsNext then s.up.next else 0))))
    case (Some(Selected(v, n)), Load) =>
      Some(Effect(s, Some(Loaded(v, n, s.cursor, if s.cursor.validity != v then 0 else s.cursor.last))))
    case (Some(Loaded(v, n, cursor, last)), MakePlan(found)) =>
      if v == s.up.validity && !SearchAnswer(c, s, found) then None
      else
        var plan := PlanOf(c.maxAge > 0, found, n, last);
        var bound := if c.maxAge > 0 || n == 0 then s.up.next as nat else if plan.request.Nothing? then last as nat + 1 else n as nat;
        Some(Effect(s, Some(Pulling(v, cursor, plan.ceiling, if plan.request.Nothing? then plan.ceiling else last,
                                    bound, TodoOf(plan.request, found), {}))))
    case (Some(Pulling(v, cursor, ceiling, highest, bound, todo, inflight)), Deliver(uid)) =>
      if uid in todo && uid > 0 && (v == s.up.validity ==> uid in s.up.present)
      then Some(Effect(s, Some(Pulling(v, cursor, ceiling, highest, bound, todo - {uid}, inflight + {uid})))) else None
    case (Some(Pulling(v, cursor, ceiling, highest, bound, todo, inflight)), Missing(uid)) =>
      if uid in todo && (v == s.up.validity ==> uid !in s.up.present)
      then Some(Effect(s, Some(Pulling(v, cursor, ceiling, highest, bound, todo - {uid}, inflight)))) else None
    case (Some(Pulling(v, cursor, ceiling, highest, bound, todo, inflight)), Store(uid)) =>
      if uid in inflight
      then Some(Effect(s.(db := InboundDb.AddSynced(s.db, Delivery(c.owner, c.inbox, uid, v), !c.eager)),
                       Some(Pulling(v, cursor, ceiling, Max(highest, uid), bound, todo, inflight - {uid})))) else None
    case (Some(Pulling(v, cursor, ceiling, highest, bound, todo, inflight)), Save) =>
      if todo == {} && inflight == {} then
        var newCursor := Cursor(v, Max(highest, ceiling));
        Some(Effect(if newCursor == cursor then s else s.(cursor := newCursor), None))
      else None
    case _ => None
  }

  function PassStep(c: Config, s: Shared, thread: Option<Thread>, a: PassAction): Option<Effect>
  {
    match (thread, a)
    case (None, Start) => Some(Effect(s, if s.latch.suspended then None else Some(Unlatched(false))))
    case (Some(Starting), LoadLatch) => Some(Effect(s, if s.latch.suspended then None else Some(Unlatched(true))))
    case (Some(Unlatched(b)), LoadCursor) => Some(Effect(s, Some(CursorRead(b, s.cursor))))
    case (Some(CursorRead(b, cursor)), Examine) => Some(Effect(s, Some(Examined(b, cursor, s.up.validity))))
    case (Some(Examined(b, cursor, v)), Search(found)) =>
      if v == s.up.validity && found != s.up.present.Keys then None
      else Some(Effect(s, if cursor.validity != v then None else Some(Snapped(b, cursor, v, found))))
    case (Some(Snapped(b, cursor, v, present)), ListStore) =>
      var ids := Listed(s.db, c.owner, c.inbox);
      var gone := Gone(s.db, ids, v, cursor.last, present);
      var synced := SyncedCount(s.db, ids, v, cursor.last, present);
      Some(Effect(s, Some(if !b && CapExceeded(c.cap, |gone|, synced) then Latching(|gone|) else Removing(b, gone))))
    case (Some(Latching(held)), Suspend) => Some(Effect(s.(latch := Latch(true, held)), None))
    case (Some(Removing(b, gone)), Remove(ok)) =>
      if gone == [] then None
      else Some(Effect(if ok then s.(db := InboundDb.RemoveSynced(s.db, c.owner, c.inbox, gone[0].0)) else s,
                       Some(Removing(b, gone[1..]))))
    case (None, Release) => Some(Effect(s, if s.latch.suspended then Some(Releasing) else None))
    case (Some(Releasing), ClearLatch) => Some(Effect(s.(latch := Latch(false, 0)), Some(Starting)))
    case _ => None
  }

  function ContentStep(c: Config, s: Shared, thread: Option<Thread>, a: ContentAction): Option<Effect>
  {
    match (thread, a)
    case (None, Get(writing, id)) =>
      if id in s.db.records && Scoped(s.db.records[id], c.owner, c.inbox) && s.db.records[id].uid != 0
         && (if writing then s.db.records[id].validity == 0 else s.db.records[id].pending)
      then Some(Effect(s, Some(Got(writing, id, s.db.records[id])))) else None
    case (Some(Got(writing, id, rec)), Open) => Some(Effect(s, Some(Opened(writing, id, rec, s.up.validity))))
    case (Some(Opened(writing, id, rec, v)), Stamp) =>
      // An envelope fetched in this session matched the record, so its UID has been assigned here.
      if rec.validity == 0 && (v == s.up.validity ==> rec.uid < s.up.next) && id in s.db.records
      then
        var db := StampValidity(s.db, c.owner, c.inbox, id, v);
        var stamped := db.records[id];
        Some(Effect(s.(db := db), if !writing && stamped.validity == v then Some(Confirmed(id, stamped)) else None))
      else None
    case (Some(Opened(writing, id, rec, v)), NoStampNeeded) =>
      if rec.validity != 0 then Some(Effect(s, if rec.validity == v then Some(Confirmed(id, rec)) else None)) else None
    case (Some(Confirmed(id, rec)), Fetch(found)) =>
      if rec.validity == s.up.validity && !found && rec.uid in s.up.present then None
      else Some(Effect(s, Some(if found then Fetched(id) else Vanished(id, rec))))
    case (Some(Vanished(id, rec)), Drop) => Some(Effect(s.(db := InboundDb.RemoveSynced(s.db, c.owner, c.inbox, id)), None))
    case (Some(Fetched(id)), Fill) => Some(Effect(s.(db := InboundDb.SetContent(s.db, c.owner, c.inbox, id)), None))
    case _ => None
  }

  predicate OutOfScope(c: Config, owner: Name, inbox: Name)
  {
    NamesOk(owner, inbox) && (owner != c.owner || NormInbox(inbox) != NormInbox(c.inbox))
  }

  function StoreStep(c: Config, s: Shared, a: StoreAction): Option<Shared>
  {
    match a
    case AddLocal(o, i) => if NamesOk(o, i) then Some(s.(db := InboundDb.AddLocal(s.db, o, i))) else None
    case AddOld(uid) => Some(s.(db := InboundDb.AddSynced(s.db, Delivery(c.owner, c.inbox, uid, 0), !c.eager)))
    case AddFor(d, pending) => if OutOfScope(c, d.owner, d.inbox) then Some(s.(db := InboundDb.AddSynced(s.db, d, pending))) else None
    case RemoveFor(o, i, id) => if OutOfScope(c, o, i) then Some(s.(db := InboundDb.RemoveSynced(s.db, o, i, id))) else None
    case FillFor(o, i, id) => if OutOfScope(c, o, i) then Some(s.(db := InboundDb.SetContent(s.db, o, i, id))) else None
    case StampFor(o, i, id, v) => if OutOfScope(c, o, i) then Some(s.(db := StampValidity(s.db, o, i, id, v))) else None
  }

  function ThreadAt(w: World, t: nat): Option<Thread>
  {
    if t in w.threads then Some(w.threads[t]) else None
  }

  function Resume(w: World, t: nat, e: Option<Effect>): Option<World>
  {
    if e.None? then None
    else Some(World(e.value.shared, if e.value.next.Some? then w.threads[t := e.value.next.value] else w.threads - {t}))
  }

  function Step(c: Config, w: World, a: Action): Option<World>
  {
    match a
    case AtUpstream(u) =>
      var s := UpStep(w.shared, u);
      if s.None? then None else Some(w.(shared := s.value))
    case InSync(t, x) => Resume(w, t, SyncStep(c, w.shared, ThreadAt(w, t), x))
    case InPass(t, x) => Resume(w, t, PassStep(c, w.shared, ThreadAt(w, t), x))
    case InContent(t, x) => Resume(w, t, ContentStep(c, w.shared, ThreadAt(w, t), x))
    case Elsewhere(x) =>
      var s := StoreStep(c, w.shared, x);
      if s.None? then None else Some(w.(shared := s.value))
    case Abandon(t) => Some(w.(threads := w.threads - {t}))
    case Crash => Some(w.(threads := map[]))
  }

  function Initial(): World
  {
    World(Shared(Upstream(1, 1, map[]), Db(map[], map[], 0), Cursor(0, 0), Latch(false, 0), 0), map[])
  }

  /** The run of a list of actions, if every one of them is possible in its turn. */
  function Run(c: Config, acts: seq<Action>): Option<World>
  {
    if acts == [] then Some(Initial())
    else
      var before := Run(c, acts[..|acts| - 1]);
      if before.None? then None else Step(c, before.value, acts[|acts| - 1])
  }

  /** A record of a message still upstream, stored headers-only under the mailbox's current validity. */
  predicate LivePending(c: Config, s: Shared, id: nat)
  {
    && id in s.db.records && Scoped(s.db.records[id], c.owner, c.inbox)
    && s.db.records[id].validity == s.up.validity && s.db.records[id].pending && s.db.records[id].uid in s.up.present
  }

  /**
  A pass lists the store either under the validity its snapshot was taken in, or while no pending
  record of the newer validity is there to be mistaken for a superseded one.
  */
  ghost predicate CalmStep(c: Config, w: World, a: Action)
  {
    a.InPass? && a.p.ListStore? && a.t in w.threads && w.threads[a.t].Snapped? ==>
      w.threads[a.t].session == w.shared.up.validity || forall id :: !LivePending(c, w.shared, id)
  }

  ghost predicate Calm(c: Config, acts: seq<Action>)
  {
    acts != [] ==>
      && Calm(c, acts[..|acts| - 1])
      && (Run(c, acts[..|acts| - 1]).Some? ==> CalmStep(c, Run(c, acts[..|acts| - 1]).value, acts[|acts| - 1]))
  }

  // ---- Facts about the shared state ----

  /** The coordinate can never again name a message of the mailbox. */
  predicate Dead(s: Shared, v: Uint32, u: Uint32)
  {
    v < s.up.validity || (v == s.up.validity && u < s.up.next && u !in s.up.present)
  }

  ghost predicate Stored(c: Config, s: Shared, u: Uint32)
  {
    HasRecord(s.db, c.owner, c.inbox, s.up.validity, u)
  }

  predicate TooOld(c: Config, s: Shared, u: Uint32)
  {
    c.maxAge > 0 && u in s.up.present && s.up.present[u] + c.maxAge < s.now
  }

  ghost predicate CoveredUpTo(c: Config, s: Shared, last: nat)
  {
    forall u :: u in s.up.present && u <= last ==> Stored(c, s, u) || TooOld(c, s, u)
  }

  /** Nothing still upstream at or below the saved cursor is missing locally. */
  ghost predicate NothingMissing(c: Config, s: Shared)
  {
    s.cursor.validity == s.up.validity ==> CoveredUpTo(c, s, s.cursor.last)
  }

  predicate CursorBelowNext(s: Shared, cursor: Cursor)
  {
    cursor.validity <= s.up.validity && (cursor.validity == s.up.validity ==> cursor.last < s.up.next)
  }

  /** A record is either superseded or carries an already assigned UID. */
  predicate Assigned(s: Shared, r: Record)
  {
    r.validity <= s.up.validity && (r.validity == s.up.validity ==> r.uid < s.up.next)
  }

  ghost predicate Sound(c: Config, s: Shared)
  {
    && NamesOk(c.owner, c.inbox)
    && KnownEntriesGrounded(s.db)
    && 1 <= s.up.validity && 1 <= s.up.next
    && (forall u :: u in s.up.present ==> 1 <= u < s.up.next)
    && (forall id :: id in s.db.records && Scoped(s.db.records[id], c.owner, c.inbox) ==> Assigned(s, s.db.records[id]))
    && CursorBelowNext(s, s.cursor)
    && NothingMissing(c, s)
  }

  /** r is an earlier copy of the record now stored under the same id. */
  predicate CopyOf(r: Record, now: Record)
  {
    r.owner == now.owner && r.inbox == now.inbox && r.uid == now.uid && (r.validity != 0 ==> now.validity == r.validity)
  }

  predicate Held(s: Shared, id: nat, r: Record)
  {
    id <= s.db.lastSeq && (id in s.db.records ==> CopyOf(r, s.db.records[id]))
  }

  ghost predicate ThreadOk(c: Config, s: Shared, t: Thread)
  {
    match t
    case Selected(v, n) => 1 <= v <= s.up.validity && (v == s.up.validity ==> n <= s.up.next)
    case Loaded(v, n, _, last) =>
      1 <= v <= s.up.validity && (v == s.up.validity ==> n <= s.up.next && last < s.up.next && CoveredUpTo(c, s, last))
    case Pulling(v, _, ceiling, highest, bound, todo, inflight) =>
      && 1 <= v <= s.up.validity
      && (forall u :: u in inflight ==> u != 0)
      && (v == s.up.validity ==>
            && highest < bound <= s.up.next && ceiling < bound
            && (forall u :: u in inflight ==> u < bound)
            && (forall u :: u in todo ==> u < bound)
            && (forall u :: u in s.up.present && u < bound ==> u in todo || u in inflight || Stored(c, s, u) || TooOld(c, s, u)))
    case Starting | Unlatched(_) | Latching(_) | Releasing | Fetched(_) => true
    case CursorRead(_, cursor) => CursorBelowNext(s, cursor)
    case Examined(_, cursor, v) => CursorBelowNext(s, cursor) && 1 <= v <= s.up.validity
    case Snapped(_, cursor, v, present) =>
      && CursorBelowNext(s, cursor) && 1 <= v == cursor.validity
      && (v == s.up.validity ==> forall u :: u in s.up.present && u <= cursor.last ==> u in present)
    case Removing(_, gone) =>
      forall i :: 0 <= i < |gone| ==>
        Held(s, gone[i].0, gone[i].1) && gone[i].1.validity != 0 && Dead(s, gone[i].1.validity, gone[i].1.uid)
    case Got(_, id, rec) => Held(s, id, rec) && Assigned(s, rec) && rec.uid != 0
    case Opened(_, id, rec, v) => Held(s, id, rec) && Assigned(s, rec) && rec.uid != 0 && 1 <= v <= s.up.validity
    case Confirmed(id, rec) => Held(s, id, rec) && Assigned(s, rec) && rec.validity != 0
    case Vanished(id, rec) => Held(s, id, rec) && rec.validity != 0 && Dead(s, rec.validity, rec.uid)
  }

  ghost predicate Inv(c: Config, w: World)
  {
    Sound(c, w.shared) && forall t :: t in w.threads ==> ThreadOk(c, w.shared, w.threads[t])
  }

  // ---- What any step of anyone may do to the others ----

  predicate UpGrows(a: Upstream, b: Upstream)
  {
    || a.validity < b.validity
    || (a.validity == b.validity && a.next <= b.next
        && forall u :: u in b.present && u < a.next ==> u in a.present && a.present[u] == b.present[u])
  }

  ghost predicate Extends(c: Config, s: Shared, s': Shared)
  {
    && UpGrows(s.up, s'.up) && s.now <= s'.now
    && s.db.lastSeq <= s'.db.lastSeq
    && (forall id :: id in s'.db.records && id <= s.db.lastSeq ==>
          id in s.db.records && CopyOf(s.db.records[id], s'.db.records[id]))
    && (s.up.validity == s'.up.validity ==> forall u :: u in s'.up.present && u < s.up.next && Stored(c, s, u) ==> Stored(c, s', u))
  }

  lemma CoverageSurvives(c: Config, s: Shared, s': Shared, last: nat)
    requires Extends(c, s, s') && s.up.validity == s'.up.validity && last < s.up.next && CoveredUpTo(c, s, last)
    ensures CoveredUpTo(c, s', last)
  {
    forall u | u in s'.up.present && u <= last
      ensures Stored(c, s', u) || TooOld(c, s', u)
    {
      assert u in s.up.present;
      assert Stored(c, s, u) || TooOld(c, s, u);
    }
  }

  lemma PullingSurvives(c: Config, s: Shared, s': Shared, t: Thread)
    requires t.Pulling? && Extends(c, s, s') && ThreadOk(c, s, t)
    ensures ThreadOk(c, s', t)
  {
    if t.session == s.up.validity == s'.up.validity {
      forall u | u in s'.up.present && u < t.bound
        ensures u in t.todo || u in t.inflight || Stored(c, s', u) || TooOld(c, s', u)
      {
        assert u in s.up.present;
      }
    }
  }

  lemma DeadSurvives(s: Shared, s': Shared, v: Uint32, u: Uint32)
    requires UpGrows(s.up, s'.up) && Dead(s, v, u)
    ensures Dead(s', v, u)
  {
  }

  lemma HeldSurvives(c: Config, s: Shared, s': Shared, id: nat, r: Record)
    requires Extends(c, s, s') && Held(s, id, r)
    ensures Held(s', id, r)
  {
  }

  lemma RemovingSurvives(c: Config, s: Shared, s': Shared, t: Thread)
    requires t.Removing? && Extends(c, s, s') && ThreadOk(c, s, t)
    ensures ThreadOk(c, s', t)
  {
    forall i | 0 <= i < |t.gone|
      ensures Held(s', t.gone[i].0, t.gone[i].1) && Dead(s', t.gone[i].1.validity, t.gone[i].1.uid)
    {
      HeldSurvives(c, s, s', t.gone[i].0, t.gone[i].1);
      DeadSurvives(s, s', t.gone[i].1.validity, t.gone[i].1.uid);
    }
  }

  lemma ContentSurvives(c: Config, s: Shared, s': Shared, t: Thread)
    requires t.Got? || t.Opened? || t.Confirmed? || t.Vanished?
    requires Extends(c, s, s') && ThreadOk(c, s, t)
    ensures ThreadOk(c, s', t)
  {
    HeldSurvives(c, s, s', t.id, t.rec);
    if t.Vanished? {
      DeadSurvives(s, s', t.rec.validity, t.rec.uid);
    }
  }

  lemma ThreadSurvives(c: Config, s: Shared, s': Shared, t: Thread)
    requires Sound(c, s) && Extends(c, s, s') && ThreadOk(c, s, t)
    ensures ThreadOk(c, s', t)
  {
    match t
    case Loaded(v, _, _, last) =>
      if v == s.up.validity == s'.up.validity {
        CoverageSurvives(c, s, s', last);
      }
    case Pulling(_, _, _, _, _, _, _) => PullingSurvives(c, s, s', t);
    case Removing(_, _) => RemovingSurvives(c, s, s', t);
    case Got(_, _, _) => ContentSurvives(c, s, s', t);
    case Opened(_, _, _, _) => ContentSurvives(c, s, s', t);
    case Confirmed(_, _) => ContentSurvives(c, s, s', t);
    case Vanished(_, _) => ContentSurvives(c, s, s', t);
    case _ =>
  }
}
