/**
 * Requests racing for one cache entry per key, as the replay guard and the nonce guard make them: under a mutex per
 * key each reads the cache and is refused, or writes an entry and is admitted. A replay-protected request that fails
 * deletes the entry it owns, in the interceptor or in an exception filter.
 */
module Admission {
  import opened RequestKey
  import opened Wrappers

  datatype Phase =
    | Waiting                // has not got the mutex
    | Locked                 // holds the mutex, has not read the cache
    | Missed                 // holds the mutex, found nothing
    | Refused                // holds the mutex, found an entry or met a cache error
    | Written                // holds the mutex, wrote its entry
    | Admitted               // guard passed, mutex released
    | Rejected               // guard threw, mutex released
    | Failed                 // an error was thrown after admission
    | Cleared                // the interceptor deleted the entry and gave up ownership
    | Closed(success: bool)

  /** `owns` is the presence of `replyProtection` on the request. */
  datatype Request = Request(key: Key, ttl: int, phase: Phase, owns: bool)

  datatype Admit = Admit(request: RequestId, key: Key, at: int, expires: int)

  /** A call to delete a key; `victim` wrote the entry that was present, if any was. */
  datatype Deletion = Deletion(actor: RequestId, key: Key, victim: Option<RequestId>, at: int)

  /** The logs of admissions and deletions record history only; no step reads them. */
  datatype State = State(
    now: int,
    requests: map<RequestId, Request>,
    locks: map<Key, RequestId>,
    cache: map<Key, Entry>,
    admissions: seq<Admit>,
    deletions: seq<Deletion>)

  datatype Event =
    | Tick(time: int)
    | Arrive(id: RequestId, key: Key, ttl: int)
    | Acquire(id: RequestId)
    | Read(id: RequestId)
    | ReadError(id: RequestId)
    | Write(id: RequestId)
    | WriteError(id: RequestId, stored: bool)
    | Release(id: RequestId)
    | Finish(id: RequestId)
    | Fail(id: RequestId)
    | Intercept(id: RequestId)
    | Filter(id: RequestId)

  const INITIAL := State(0, map[], map[], map[], [], [])

  predicate Live(s: State, k: Key) {
    k in s.cache && s.now < s.cache[k].expires
  }

  predicate InPhase(s: State, id: RequestId, p: Phase) {
    id in s.requests && s.requests[id].phase == p
  }

  function Move(s: State, id: RequestId, p: Phase): State
    requires id in s.requests
  {
    s.(requests := s.requests[id := s.requests[id].(phase := p)])
  }

  function Store(s: State, id: RequestId): State
    requires id in s.requests
  {
    var q := s.requests[id];
    s.(cache := s.cache[q.key := Entry(id, s.now + q.ttl)])
  }

  /** Deleting the key the request protects, whatever entry is there by now. */
  function Delete(s: State, id: RequestId): State
    requires id in s.requests
  {
    var k := s.requests[id].key;
    var victim := if Live(s, k) then Some(s.cache[k].owner) else None;
    s.(cache := s.cache - {k}, deletions := s.deletions + [Deletion(id, k, victim, s.now)])
  }

  /** One step; a step that is not possible changes nothing. */
  function Next(s: State, e: Event): State {
    match e
    case Tick(t) => if t > s.now then s.(now := t) else s
    case Arrive(id, key, ttl) =>
      if id !in s.requests && ttl > 0
      then s.(requests := s.requests[id := Request(key, ttl, Waiting, false)]) else s
    case Acquire(id) =>
      if InPhase(s, id, Waiting) && s.requests[id].key !in s.locks
      then Move(s, id, Locked).(locks := s.locks[s.requests[id].key := id]) else s
    case Read(id) =>
      if InPhase(s, id, Locked)
      then Move(s, id, if Live(s, s.requests[id].key) then Refused else Missed) else s
    case ReadError(id) => if InPhase(s, id, Locked) then Move(s, id, Refused) else s
    case Write(id) =>
      if InPhase(s, id, Missed) then WriteEntry(s, id) else s
    case WriteError(id, stored) =>
      if InPhase(s, id, Missed) then Move(if stored then Store(s, id) else s, id, Refused) else s
    case Release(id) =>
      if InPhase(s, id, Written) then Move(s, id, Admitted).(locks := s.locks - {s.requests[id].key})
      else if InPhase(s, id, Refused) then Move(s, id, Rejected).(locks := s.locks - {s.requests[id].key})
      else s
    case Finish(id) => if InPhase(s, id, Admitted) then Move(s, id, Closed(true)) else s
    case Fail(id) => if InPhase(s, id, Admitted) then Move(s, id, Failed) else s
    case Intercept(id) =>
      if InPhase(s, id, Failed) then
        if s.requests[id].owns
        then var d := Delete(s, id); d.(requests := d.requests[id := d.requests[id].(phase := Cleared, owns := false)])
        else Move(s, id, Cleared)
      else s
    case Filter(id) =>
      if InPhase(s, id, Failed) || InPhase(s, id, Cleared) || InPhase(s, id, Rejected)
      then Move(if s.requests[id].owns then Delete(s, id) else s, id, Closed(false)) else s
  }

  function WriteEntry(s: State, id: RequestId): State
    requires id in s.requests
  {
    var q := s.requests[id];
    Store(s, id).(
      requests := s.requests[id := q.(phase := Written, owns := q.key.ReplayKey?)],
      admissions := s.admissions + [Admit(id, q.key, s.now, s.now + q.ttl)])
  }

  /** The state after a sequence of steps taken in any order by any requests. */
  function Run(events: seq<Event>): State {
    if events == [] then INITIAL else Next(Run(events[..|events| - 1]), events[|events| - 1])
  }

  // ----- What every step keeps -----

  predicate Critical(p: Phase) {
    p.Locked? || p.Missed? || p.Refused? || p.Written?
  }

  /** Phases a request passes only after it was admitted. */
  predicate PastAdmission(p: Phase) {
    p.Written? || p.Admitted? || p.Failed? || p.Cleared? || p == Closed(true)
  }

  /** The mutex of a key is held by exactly the requests inside its critical section. */
  ghost predicate MutexInv(s: State) {
    && (forall k :: k in s.locks ==>
         s.locks[k] in s.requests && s.requests[s.locks[k]].key == k && Critical(s.requests[s.locks[k]].phase))
    && (forall id :: id in s.requests && Critical(s.requests[id].phase) ==>
         s.requests[id].key in s.locks && s.locks[s.requests[id].key] == id)
  }

  ghost predicate OwnershipInv(s: State) {
    && (forall id :: id in s.requests && s.requests[id].owns ==>
         && s.requests[id].key.ReplayKey?
         && s.requests[id].phase in {Written, Admitted, Failed, Closed(true), Closed(false)})
    && (forall id :: id in s.requests && PastAdmission(s.requests[id].phase) && s.requests[id].key.ReplayKey? ==>
         s.requests[id].owns != s.requests[id].phase.Cleared?)
    && (forall k :: k in s.cache ==> s.cache[k].owner in s.requests && s.requests[s.cache[k].owner].key == k)
    && (forall id :: id in s.requests && s.requests[id].phase.Missed? ==> !Live(s, s.requests[id].key))
  }

  ghost predicate WasAdmitted(s: State, id: RequestId) {
    exists i :: 0 <= i < |s.admissions| && s.admissions[i].request == id
  }

  /** Somebody deleted the entry while it was present. */
  ghost predicate Victim(s: State, id: RequestId) {
    exists d :: 0 <= d < |s.deletions| && s.deletions[d].victim == Some(id)
  }

  ghost predicate HasDeleted(s: State, id: RequestId) {
    exists d :: 0 <= d < |s.deletions| && s.deletions[d].actor == id
  }

  ghost predicate AdmissionInv(s: State) {
    && (forall i :: 0 <= i < |s.admissions| ==>
         var a := s.admissions[i];
         && a.request in s.requests && s.requests[a.request].key == a.key
         && a.expires == a.at + s.requests[a.request].ttl && s.requests[a.request].ttl > 0 && a.at <= s.now
         && (PastAdmission(s.requests[a.request].phase) || s.requests[a.request].phase == Closed(false)))
    && (forall i, j :: 0 <= i < j < |s.admissions| ==> s.admissions[i].request != s.admissions[j].request)
    && (forall id :: id in s.requests ==> s.requests[id].ttl > 0)
    && (forall id :: id in s.requests && (PastAdmission(s.requests[id].phase) || s.requests[id].owns) ==>
         WasAdmitted(s, id))
  }

  /** An admission that has neither expired nor been deleted still has its entry in the cache. */
  ghost predicate EntryInv(s: State) {
    forall i :: 0 <= i < |s.admissions| && s.now < s.admissions[i].expires && !Victim(s, s.admissions[i].request) ==>
      var a := s.admissions[i];
      a.key in s.cache && s.cache[a.key] == Entry(a.request, a.expires)
  }

  /** The entry of `id` was deleted while present, no later than `time`. */
  ghost predicate DeletedBy(s: State, id: RequestId, time: int) {
    exists d :: 0 <= d < |s.deletions| && s.deletions[d].victim == Some(id) && s.deletions[d].at <= time
  }

  /** A later admission on a key follows the expiry or the deletion of every earlier one. */
  ghost predicate SpacingInv(s: State) {
    forall i, j :: 0 <= i < j < |s.admissions| && s.admissions[i].key == s.admissions[j].key ==>
      s.admissions[i].expires <= s.admissions[j].at || DeletedBy(s, s.admissions[i].request, s.admissions[j].at)
  }

  /** The deletion came after the deleting request's own entry had expired. */
  ghost predicate Late(s: State, d: Deletion) {
    exists i :: 0 <= i < |s.admissions| && s.admissions[i].request == d.actor && s.admissions[i].expires <= d.at
  }

  ghost predicate Theft(d: Deletion) {
    d.victim.Some? && d.victim.value != d.actor
  }

  /** The entry of `id` was deleted by one of the first `n` deletions. */
  ghost predicate VictimWithin(s: State, id: RequestId, n: nat)
    requires n <= |s.deletions|
  {
    exists c :: 0 <= c < n && s.deletions[c].victim == Some(id)
  }

  ghost predicate DeletionInv(s: State) {
    && (forall d :: 0 <= d < |s.deletions| ==>
         var x := s.deletions[d];
         && x.actor in s.requests && x.key == s.requests[x.actor].key && x.key.ReplayKey? && x.at <= s.now
         && s.requests[x.actor].phase in {Cleared, Closed(false)}
         && (s.requests[x.actor].phase.Cleared? ==> !s.requests[x.actor].owns)
         && (x.victim.Some? ==> x.victim.value in s.requests && s.requests[x.victim.value].key == x.key)
         && (Theft(x) ==> Late(s, x) || VictimWithin(s, x.actor, d)))
    && (forall c, d :: 0 <= c < d < |s.deletions| ==> s.deletions[c].actor != s.deletions[d].actor)
  }

  predicate BeforeWrite(p: Phase) {
    p.Waiting? || p.Locked? || p.Missed?
  }

  /** An entry is deleted at most once, and once deleted it does not come back. */
  ghost predicate VictimInv(s: State) {
    && (forall k :: k in s.cache ==>
         && s.cache[k].owner in s.requests && s.requests[s.cache[k].owner].key == k
         && !BeforeWrite(s.requests[s.cache[k].owner].phase))
    && (forall k, d :: k in s.cache && 0 <= d < |s.deletions| ==> s.deletions[d].victim != Some(s.cache[k].owner))
    && (forall d :: 0 <= d < |s.deletions| && s.deletions[d].victim.Some? ==>
         s.deletions[d].victim.value in s.requests && !BeforeWrite(s.requests[s.deletions[d].victim.value].phase))
    && (forall c, d :: 0 <= c < d < |s.deletions| && s.deletions[c].victim.Some? ==>
         s.deletions[c].victim != s.deletions[d].victim)
  }

  ghost predicate Inv(s: State) {
    VictimInv(s) && MutexInv(s) && OwnershipInv(s) && AdmissionInv(s) && EntryInv(s) && SpacingInv(s) && DeletionInv(s)
  }

  // ----- A step changes the record of one request; these lemmas say which changes keep each invariant -----

  ghost predicate Updates(s: State, t: State, id: RequestId) {
    && id in s.requests && id in t.requests
    && t.requests == s.requests[id := t.requests[id]]
    && t.requests[id].key == s.requests[id].key && t.requests[id].ttl == s.requests[id].ttl
    && t.now == s.now
  }

  lemma MutexUpdate(s: State, t: State, id: RequestId)
    requires MutexInv(s) && Updates(s, t, id)
    requires var k, p, p' := s.requests[id].key, s.requests[id].phase, t.requests[id].phase;
      || (Critical(p) == Critical(p') && t.locks == s.locks)
      || (!Critical(p) && Critical(p') && k !in s.locks && t.locks == s.locks[k := id])
      || (Critical(p) && !Critical(p') && t.locks == s.locks - {k})
    ensures MutexInv(t)
  {
  }

  lemma OwnershipUpdate(s: State, t: State, id: RequestId)
    requires MutexInv(s) && OwnershipInv(s) && Updates(s, t, id)
    requires var k := s.requests[id].key;
      || t.cache == s.cache
      || t.cache == s.cache - {k}
      || (Critical(s.requests[id].phase) && k in t.cache && t.cache[k].owner == id
          && t.cache == s.cache[k := t.cache[k]])
    requires var q := t.requests[id];
      && (q.owns ==> q.key.ReplayKey? && q.phase in {Written, Admitted, Failed, Closed(true), Closed(false)})
      && (PastAdmission(q.phase) && q.key.ReplayKey? ==> q.owns != q.phase.Cleared?)
      && (q.phase.Missed? ==> !Live(t, q.key))
    ensures OwnershipInv(t)
  {
    forall other | other in t.requests && t.requests[other].phase.Missed?
      ensures !Live(t, t.requests[other].key)
    {
      if other != id { assert !Live(s, s.requests[other].key); }
    }
  }

  lemma AdmittedMonotone(s: State, t: State, id: RequestId)
    requires s.admissions <= t.admissions && WasAdmitted(s, id)
    ensures WasAdmitted(t, id)
  {
    var i :| 0 <= i < |s.admissions| && s.admissions[i].request == id;
    assert t.admissions[i].request == id;
  }

  lemma AdmissionUpdate(s: State, t: State, id: RequestId)
    requires AdmissionInv(s) && Updates(s, t, id) && t.admissions == s.admissions
    requires var p, p' := s.requests[id].phase, t.requests[id].phase;
      && (PastAdmission(p') ==> PastAdmission(p))
      && (PastAdmission(p) ==> PastAdmission(p') || p' == Closed(false))
      && (p == Closed(false) ==> p' == Closed(false))
      && (t.requests[id].owns ==> s.requests[id].owns)
    ensures AdmissionInv(t)
  {
    forall x | x in t.requests && (PastAdmission(t.requests[x].phase) || t.requests[x].owns) ensures WasAdmitted(t, x) {
      assert WasAdmitted(s, x);
      AdmittedMonotone(s, t, x);
    }
  }

  lemma VictimsMonotone(s: State, t: State)
    requires s.deletions <= t.deletions
    ensures forall id: RequestId :: Victim(s, id) ==> Victim(t, id)
    ensures forall id: RequestId, time: int :: DeletedBy(s, id, time) ==> DeletedBy(t, id, time)
  {
    forall id: RequestId | Victim(s, id) ensures Victim(t, id) {
      var d :| 0 <= d < |s.deletions| && s.deletions[d].victim == Some(id);
      assert t.deletions[d].victim == Some(id);
    }
    forall id: RequestId, time: int | DeletedBy(s, id, time) ensures DeletedBy(t, id, time) {
      var d :| 0 <= d < |s.deletions| && s.deletions[d].victim == Some(id) && s.deletions[d].at <= time;
      assert t.deletions[d].victim == Some(id) && t.deletions[d].at <= time;
    }
  }

  /** Logs unchanged: spacing, entries and deletions stay as they were when cache and ownership records allow it. */
  lemma SpacingUpdate(s: State, t: State)
    requires SpacingInv(s) && t.admissions == s.admissions && s.deletions <= t.deletions
    ensures SpacingInv(t)
  {
    VictimsMonotone(s, t);
  }

  lemma EntryUpdate(s: State, t: State)
    requires EntryInv(s) && t.now >= s.now && t.admissions == s.admissions && s.deletions <= t.deletions
    requires forall i ::
      0 <= i < |s.admissions| && s.now < s.admissions[i].expires && !Victim(t, s.admissions[i].request) ==>
      var a := s.admissions[i];
      a.key in s.cache && s.cache[a.key] == Entry(a.request, a.expires) ==>
      a.key in t.cache && t.cache[a.key] == s.cache[a.key]
    ensures EntryInv(t)
  {
    VictimsMonotone(s, t);
  }

  lemma LateMonotone(s: State, t: State, d: Deletion)
    requires s.admissions <= t.admissions && Late(s, d)
    ensures Late(t, d)
  {
    var i :| 0 <= i < |s.admissions| && s.admissions[i].request == d.actor && s.admissions[i].expires <= d.at;
    assert t.admissions[i] == s.admissions[i];
  }

  lemma DeletionUpdate(s: State, t: State, id: RequestId)
    requires DeletionInv(s) && Updates(s, t, id) && s.admissions <= t.admissions && t.deletions == s.deletions
    requires var q, q' := s.requests[id], t.requests[id];
      q.phase in {Cleared, Closed(false)} ==>
        q'.phase in {Cleared, Closed(false)} && (q'.phase.Cleared? ==> !q'.owns)
    ensures DeletionInv(t)
  {
    forall d | 0 <= d < |t.deletions| && Theft(t.deletions[d])
      ensures Late(t, t.deletions[d]) || VictimWithin(t, t.deletions[d].actor, d)
    {
      var x := t.deletions[d];
      if Late(s, x) {
        LateMonotone(s, t, x);
      } else {
        assert VictimWithin(s, x.actor, d);
        var c :| 0 <= c < d && s.deletions[c].victim == Some(x.actor);
        assert t.deletions[c].victim == Some(x.actor);
      }
    }
  }

  lemma VictimUpdate(s: State, t: State, id: RequestId)
    requires VictimInv(s) && Updates(s, t, id)
    requires BeforeWrite(t.requests[id].phase) ==> BeforeWrite(s.requests[id].phase)
    requires var k := s.requests[id].key;
      || (t.cache == s.cache && t.deletions == s.deletions)
      || (t.cache == Delete(s, id).cache && t.deletions == Delete(s, id).deletions)
      || (BeforeWrite(s.requests[id].phase) && !BeforeWrite(t.requests[id].phase) && t.deletions == s.deletions
          && k in t.cache && t.cache[k].owner == id && t.cache == s.cache[k := t.cache[k]])
    ensures VictimInv(t)
  {
  }

  // ----- Every kind of step keeps all invariants -----

  /** Steps that only move a request on, taking or giving up its mutex. */
  lemma MovePreserves(s: State, t: State, id: RequestId)
    requires Inv(s) && Updates(s, t, id)
    requires t.cache == s.cache && t.admissions == s.admissions && t.deletions == s.deletions
    requires t.requests[id].owns == s.requests[id].owns
    requires var k, p, p' := s.requests[id].key, s.requests[id].phase, t.requests[id].phase;
      || (p.Waiting? && p'.Locked? && k !in s.locks && t.locks == s.locks[k := id])
      || (p.Locked? && (p'.Refused? || (p'.Missed? && !Live(s, k))) && t.locks == s.locks)
      || (p.Missed? && p'.Refused? && t.locks == s.locks)
      || (p.Written? && p'.Admitted? && t.locks == s.locks - {k})
      || (p.Refused? && p'.Rejected? && t.locks == s.locks - {k})
      || (p.Admitted? && (p'.Failed? || p' == Closed(true)) && t.locks == s.locks)
      || (p.Failed? && p'.Cleared? && !s.requests[id].owns && k.NonceKey? && t.locks == s.locks)
      || ((p.Failed? || p.Cleared? || p.Rejected?) && p' == Closed(false) && !s.requests[id].owns && t.locks == s.locks)
    ensures Inv(t)
  {
    hide VictimInv, MutexInv, AdmissionInv, EntryInv, SpacingInv, DeletionInv, Victim;
    VictimUpdate(s, t, id);
    MutexUpdate(s, t, id);
    OwnershipUpdate(s, t, id);
    AdmissionUpdate(s, t, id);
    EntryUpdate(s, t);
    SpacingUpdate(s, t);
    DeletionUpdate(s, t, id);
  }

  /** Admissions stay sound when requests keep their records and time does not run back. */
  lemma FrameAdmission(s: State, t: State)
    requires AdmissionInv(s) && t.admissions == s.admissions && t.now >= s.now
    requires forall id :: id in s.requests ==> id in t.requests && t.requests[id] == s.requests[id]
    requires forall id :: id in t.requests && id !in s.requests ==>
      t.requests[id].ttl > 0 && t.requests[id].phase.Waiting? && !t.requests[id].owns
    ensures AdmissionInv(t)
  {
    forall x | x in t.requests && (PastAdmission(t.requests[x].phase) || t.requests[x].owns) ensures WasAdmitted(t, x) {
      AdmittedMonotone(s, t, x);
    }
  }

  lemma TickFrame(s: State, time: int)
    requires VictimInv(s) && MutexInv(s) && OwnershipInv(s) && time > s.now
    ensures var t := s.(now := time); VictimInv(t) && MutexInv(t) && OwnershipInv(t)
  {
  }

  lemma TickPreserves(s: State, time: int)
    requires Inv(s)
    ensures Inv(Next(s, Tick(time)))
  {
    if time > s.now {
      var t := s.(now := time);
      TickFrame(s, time);
      FrameAdmission(s, t);
      EntryUpdate(s, t);
      SpacingUpdate(s, t);
      TickDeletions(s, t);
    }
  }

  lemma TickDeletions(s: State, t: State)
    requires DeletionInv(s) && t.admissions == s.admissions && t.deletions == s.deletions && t.now >= s.now
    requires forall id :: id in s.requests ==> id in t.requests && t.requests[id] == s.requests[id]
    ensures DeletionInv(t)
  {
    forall d | 0 <= d < |t.deletions| && Theft(t.deletions[d])
      ensures Late(t, t.deletions[d]) || VictimWithin(t, t.deletions[d].actor, d)
    {
      var x := t.deletions[d];
      if Late(s, x) {
        LateMonotone(s, t, x);
      } else {
        var c :| 0 <= c < d && s.deletions[c].victim == Some(x.actor);
        assert t.deletions[c].victim == Some(x.actor);
      }
    }
  }

  lemma ArriveFrame(s: State, t: State, id: RequestId, q: Request)
    requires VictimInv(s) && MutexInv(s) && OwnershipInv(s)
    requires id !in s.requests && q.phase.Waiting? && !q.owns && t == s.(requests := s.requests[id := q])
    ensures VictimInv(t) && MutexInv(t) && OwnershipInv(t)
  {
  }

  lemma ArrivePreserves(s: State, t: State, id: RequestId, q: Request)
    requires Inv(s) && id !in s.requests && q.phase.Waiting? && !q.owns && q.ttl > 0
    requires t == s.(requests := s.requests[id := q])
    ensures Inv(t)
  {
    ArriveFrame(s, t, id, q);
    FrameAdmission(s, t);
    EntryUpdate(s, t);
    SpacingUpdate(s, t);
    TickDeletions(s, t);
  }

  /** Before a request writes, every admission on its key has expired or lost its entry. */
  lemma NothingProtected(s: State, id: RequestId, i: nat)
    requires Inv(s) && InPhase(s, id, Missed)
    requires i < |s.admissions| && s.admissions[i].key == s.requests[id].key
    ensures s.admissions[i].expires <= s.now || DeletedBy(s, s.admissions[i].request, s.now)
  {
    assert !Live(s, s.requests[id].key);
    if s.now < s.admissions[i].expires {
      assert Victim(s, s.admissions[i].request);
      var d :| 0 <= d < |s.deletions| && s.deletions[d].victim == Some(s.admissions[i].request);
      assert s.deletions[d].at <= s.now;
    }
  }

  /** A cache write that fails after reaching the store leaves an entry that nobody owns. */
  lemma OrphanPreserves(s: State, id: RequestId)
    requires Inv(s) && InPhase(s, id, Missed)
    ensures Inv(Move(Store(s, id), id, Refused))
  {
    var t := Move(Store(s, id), id, Refused);
    VictimUpdate(s, t, id);
    MutexUpdate(s, t, id);
    OwnershipUpdate(s, t, id);
    AdmissionUpdate(s, t, id);
    assert !Live(s, s.requests[id].key);
    EntryUpdate(s, t);
    SpacingUpdate(s, t);
    DeletionUpdate(s, t, id);
  }

  lemma NotYetAdmitted(s: State, id: RequestId)
    requires AdmissionInv(s) && InPhase(s, id, Missed)
    ensures forall i :: 0 <= i < |s.admissions| ==> s.admissions[i].request != id
  {
  }

  lemma WriteSpacing(s: State, id: RequestId)
    requires Inv(s) && InPhase(s, id, Missed)
    ensures SpacingInv(WriteEntry(s, id))
  {
    var t, n := WriteEntry(s, id), |s.admissions|;
    VictimsMonotone(s, t);
    forall i, j | 0 <= i < j < |t.admissions| && t.admissions[i].key == t.admissions[j].key
      ensures t.admissions[i].expires <= t.admissions[j].at
        || DeletedBy(t, t.admissions[i].request, t.admissions[j].at)
    {
      if j == n { NothingProtected(s, id, i); }
    }
  }

  lemma WriteEntries(s: State, id: RequestId)
    requires Inv(s) && InPhase(s, id, Missed)
    ensures EntryInv(WriteEntry(s, id))
  {
    var t, n := WriteEntry(s, id), |s.admissions|;
    assert !Live(s, s.requests[id].key);
    forall i | 0 <= i < |t.admissions| && t.now < t.admissions[i].expires && !Victim(t, t.admissions[i].request)
      ensures var a := t.admissions[i]; a.key in t.cache && t.cache[a.key] == Entry(a.request, a.expires)
    {
      if i < n {
        var a := s.admissions[i];
        assert !Victim(s, a.request) by {
          if Victim(s, a.request) { VictimsMonotone(s, t); }
        }
        assert a.key in s.cache && s.cache[a.key] == Entry(a.request, a.expires);
      }
    }
  }

  lemma WriteAdmissions(s: State, id: RequestId)
    requires Inv(s) && InPhase(s, id, Missed)
    ensures AdmissionInv(WriteEntry(s, id))
  {
    var t, n := WriteEntry(s, id), |s.admissions|;
    NotYetAdmitted(s, id);
    assert t.admissions[n].request == id;
    forall x | x in t.requests && (PastAdmission(t.requests[x].phase) || t.requests[x].owns) ensures WasAdmitted(t, x) {
      if x != id { AdmittedMonotone(s, t, x); }
    }
  }

  lemma WritePreserves(s: State, id: RequestId)
    requires Inv(s) && InPhase(s, id, Missed)
    ensures Inv(WriteEntry(s, id))
  {
    var t := WriteEntry(s, id);
    VictimUpdate(s, t, id);
    MutexUpdate(s, t, id);
    OwnershipUpdate(s, t, id);
    WriteAdmissions(s, id);
    WriteEntries(s, id);
    WriteSpacing(s, id);
    DeletionUpdate(s, t, id);
  }

  /** An owner that deletes: it hits its own entry unless that has expired or was deleted before. */
  lemma OwnerDeletes(s: State, id: RequestId)
    requires Inv(s) && id in s.requests && s.requests[id].owns
    ensures var t := Delete(s, id);
      var x := t.deletions[|s.deletions|];
      Theft(x) ==> Late(s, x) || VictimWithin(t, id, |s.deletions|)
  {
    var t := Delete(s, id);
    var x := t.deletions[|s.deletions|];
    assert WasAdmitted(s, id);
    var i :| 0 <= i < |s.admissions| && s.admissions[i].request == id;
    if Theft(x) && s.now < s.admissions[i].expires {
      assert Victim(s, id);
      var c :| 0 <= c < |s.deletions| && s.deletions[c].victim == Some(id);
      assert t.deletions[c].victim == Some(id);
    }
  }

  lemma DeleteDeletions(s: State, t: State, id: RequestId)
    requires Inv(s) && id in s.requests && s.requests[id].owns
    requires s.requests[id].phase in {Failed, Cleared, Rejected}
    requires t.admissions == s.admissions && t.deletions == Delete(s, id).deletions && Updates(s, t, id)
    requires t.requests[id].phase in {Cleared, Closed(false)}
    requires t.requests[id].phase.Cleared? ==> !t.requests[id].owns
    ensures DeletionInv(t)
  {
    OwnerDeletes(s, id);
    var n := |s.deletions|;
    assert s.requests[id].phase.Failed?;
    forall d | 0 <= d < |t.deletions| && Theft(t.deletions[d])
      ensures Late(t, t.deletions[d]) || VictimWithin(t, t.deletions[d].actor, d)
    {
      var x := t.deletions[d];
      if Late(s, x) {
        LateMonotone(s, t, x);
      } else if d < n {
        var c :| 0 <= c < d && s.deletions[c].victim == Some(x.actor);
        assert t.deletions[c].victim == Some(x.actor);
      } else {
        var c :| 0 <= c < n && Delete(s, id).deletions[c].victim == Some(id);
        assert t.deletions[c].victim == Some(x.actor);
      }
    }
  }

  lemma DeletePreserves(s: State, t: State, id: RequestId)
    requires Inv(s) && id in s.requests && s.requests[id].owns
    requires s.requests[id].phase in {Failed, Cleared, Rejected}
    requires Updates(s, t, id) && t.locks == s.locks && t.cache == Delete(s, id).cache
    requires t.admissions == s.admissions && t.deletions == Delete(s, id).deletions
    requires (t.requests[id].phase.Cleared? && !t.requests[id].owns) || t.requests[id].phase == Closed(false)
    ensures Inv(t)
  {
    hide VictimInv, MutexInv, SpacingInv, DeletionInv;
    VictimUpdate(s, t, id);
    MutexUpdate(s, t, id);
    assert s.requests[id].phase.Failed?;
    OwnershipUpdate(s, t, id);
    AdmissionUpdate(s, t, id);
    assert t.deletions[|s.deletions|].victim.Some? ==> Victim(t, t.deletions[|s.deletions|].victim.value);
    EntryUpdate(s, t);
    SpacingUpdate(s, t);
    DeleteDeletions(s, t, id);
  }

  lemma GuardStepPreserves(s: State, e: Event)
    requires Inv(s) && (e.Acquire? || e.Read? || e.ReadError? || e.Release?)
    ensures Inv(Next(s, e))
  {
    hide VictimInv, MutexInv, OwnershipInv, AdmissionInv, EntryInv, SpacingInv, DeletionInv;
    var t := Next(s, e);
    if t != s { MovePreserves(s, t, e.id); }
  }

  lemma WriteStepPreserves(s: State, e: Event)
    requires Inv(s) && (e.Write? || e.WriteError?)
    ensures Inv(Next(s, e))
  {
    var t := Next(s, e);
    if t != s {
      if e.Write? { WritePreserves(s, e.id); }
      else if e.stored { OrphanPreserves(s, e.id); }
      else { MovePreserves(s, t, e.id); }
    }
  }

  lemma HandlerStepPreserves(s: State, e: Event)
    requires Inv(s) && (e.Finish? || e.Fail? || e.Intercept? || e.Filter?)
    ensures Inv(Next(s, e))
  {
    hide VictimInv, MutexInv, AdmissionInv, EntryInv, SpacingInv, DeletionInv;
    var t := Next(s, e);
    if t != s {
      if (e.Intercept? || e.Filter?) && s.requests[e.id].owns { DeletePreserves(s, t, e.id); }
      else { MovePreserves(s, t, e.id); }
    }
  }

  /** Every step keeps the invariant. */
  lemma StepPreserves(s: State, e: Event)
    requires Inv(s)
    ensures Inv(Next(s, e))
  {
    match e
    case Tick(time) => TickPreserves(s, time);
    case Arrive(id, key, ttl) =>
      if id !in s.requests && ttl > 0 { ArrivePreserves(s, Next(s, e), id, Request(key, ttl, Waiting, false)); }
    case Acquire(_) => GuardStepPreserves(s, e);
    case Read(_) => GuardStepPreserves(s, e);
    case ReadError(_) => GuardStepPreserves(s, e);
    case Release(_) => GuardStepPreserves(s, e);
    case Write(_) => WriteStepPreserves(s, e);
    case WriteError(_, _) => WriteStepPreserves(s, e);
    case _ => HandlerStepPreserves(s, e);
  }

  lemma {:induction false} RunInv(events: seq<Event>)
    ensures Inv(Run(events))
  {
    if events != [] {
      RunInv(events[..|events| - 1]);
      StepPreserves(Run(events[..|events| - 1]), events[|events| - 1]);
    }
  }

  // ----- Main results, for every run -----

  /** An admitted request that has not failed. */
  predicate Unfailed(s: State, id: RequestId) {
    id in s.requests && s.requests[id].phase in {Written, Admitted, Closed(true)}
  }

  /** An unfailed admission whose time to live has not elapsed. */
  ghost predicate Protects(s: State, id: RequestId) {
    && Unfailed(s, id)
    && exists i :: 0 <= i < |s.admissions| && s.admissions[i].request == id && s.now < s.admissions[i].expires
  }

  ghost predicate HasEntry(s: State, id: RequestId) {
    id in s.requests && Live(s, s.requests[id].key) && s.cache[s.requests[id].key].owner == id
  }

  /** Every deletion so far came before the deleting request's own entry expired. */
  ghost predicate Timely(s: State) {
    forall d :: 0 <= d < |s.deletions| ==> !Late(s, s.deletions[d])
  }

  /** Two requests are never inside the critical section of one key, and only a request inside holds its mutex. */
  lemma MutualExclusion(events: seq<Event>, x: RequestId, y: RequestId)
    requires var s := Run(events);
      && x in s.requests && y in s.requests && s.requests[x].key == s.requests[y].key
      && Critical(s.requests[x].phase) && Critical(s.requests[y].phase)
    ensures x == y
    ensures var s := Run(events);
      forall k :: k in s.locks ==> s.locks[k] in s.requests && Critical(s.requests[s.locks[k]].phase)
  {
    RunInv(events);
  }

  lemma RunSnoc(events: seq<Event>, e: Event)
    ensures Run(events + [e]) == Next(Run(events), e)
  {
    assert (events + [e])[..|events + [e]| - 1] == events;
  }

  lemma RunMutex(events: seq<Event>)
    ensures MutexInv(Run(events))
  {
    RunInv(events);
  }

  /** How many steps of its own a request inside the critical section is from leaving it, at most. */
  function StepsToRelease(p: Phase): nat {
    match p
    case Locked => 3
    case Missed => 2
    case Refused => 1
    case Written => 1
    case _ => 0
  }

  /** Every step of its own that has an effect, error or not, brings a request inside nearer to its release. */
  lemma OwnStepNearsRelease(s: State, e: Event)
    requires MutexInv(s) && !e.Tick? && e.id in s.requests && Critical(s.requests[e.id].phase)
    ensures var k, t := s.requests[e.id].key, Next(s, e);
      t != s ==>
        && e.id in t.requests
        && StepsToRelease(t.requests[e.id].phase) < StepsToRelease(s.requests[e.id].phase)
        && (k in t.locks <==> StepsToRelease(t.requests[e.id].phase) > 0)
  {
  }

  /** A step takes a free mutex, or gives up one for a request inside, or changes no mutex. */
  lemma StepLocks(s: State, e: Event)
    ensures var t := Next(s, e);
      || t.locks == s.locks
      || (e.Acquire? && e.id in s.requests && s.requests[e.id].key !in s.locks
          && t.locks == s.locks[s.requests[e.id].key := e.id])
      || (e.Release? && e.id in s.requests && Critical(s.requests[e.id].phase)
          && t.locks == s.locks - {s.requests[e.id].key})
    ensures forall id :: id in s.requests && (e.Tick? || e.id != id) ==>
      id in Next(s, e).requests && Next(s, e).requests[id] == s.requests[id]
  {
  }

  /** Steps of others and the passing of time leave a request inside where it is, and its mutex with it. */
  lemma OthersStepsKeepMutex(s: State, e: Event, id: RequestId)
    requires MutexInv(s) && id in s.requests && Critical(s.requests[id].phase) && (e.Tick? || e.id != id)
    ensures var k, t := s.requests[id].key, Next(s, e);
      && id in t.requests && t.requests[id] == s.requests[id]
      && k in t.locks && t.locks[k] == id
  {
    StepLocks(s, e);
    hide Next;
  }

  /** A step a request inside can always take: it is never stuck there. */
  function NextOwnStep(s: State, id: RequestId): Event
    requires id in s.requests
  {
    match s.requests[id].phase
    case Locked => Read(id)
    case Missed => Write(id)
    case _ => Release(id)
  }

  /**
   * Whoever holds a mutex, in any run, is at most three steps from releasing it: it always has a step to take, every
   * step it takes brings it nearer, reading and writing errors included, and nobody else can hold it up.
   */
  lemma MutexIsReleased(events: seq<Event>, k: Key, e: Event)
    requires k in Run(events).locks
    ensures var s := Run(events); var id := s.locks[k]; var t := Next(s, e);
      && id in s.requests && 1 <= StepsToRelease(s.requests[id].phase) <= 3
      && Next(s, NextOwnStep(s, id)) != s
      && (e.Tick? || e.id != id ==> k in t.locks && t.locks[k] == id && t.requests[id] == s.requests[id])
      && (!e.Tick? && e.id == id && t != s ==>
            StepsToRelease(t.requests[id].phase) < StepsToRelease(s.requests[id].phase))
      && (!e.Tick? && e.id == id && t != s ==> (k in t.locks <==> StepsToRelease(t.requests[id].phase) > 0))
  {
    RunMutex(events);
    var s := Run(events);
    var id := s.locks[k];
    StepToTake(s, id);
    if e.Tick? || e.id != id {
      OthersStepsKeepMutex(s, e, id);
    } else {
      OwnStepNearsRelease(s, e);
    }
  }

  lemma StepToTake(s: State, id: RequestId)
    requires MutexInv(s) && id in s.requests && Critical(s.requests[id].phase)
    ensures Next(s, NextOwnStep(s, id)) != s
  {
    var t := Next(s, NextOwnStep(s, id));
    assert t.requests[id].phase != s.requests[id].phase;
  }

  /** While it protects, an admission has its entry in the cache exactly if nobody deleted that entry. */
  lemma EntryUnlessDeleted(events: seq<Event>, id: RequestId)
    requires Protects(Run(events), id)
    ensures HasEntry(Run(events), id) <==> !Victim(Run(events), id)
  {
    RunInv(events);
  }

  /** A deletion that came too late and hit the entry of another request. */
  ghost predicate LateTheft(s: State, d: nat)
    requires d < |s.deletions|
  {
    Theft(s.deletions[d]) && Late(s, s.deletions[d])
  }

  /** No deletion that came too late hit the entry of another request; others may have been late for nothing. */
  ghost predicate Harmless(s: State) {
    forall d :: 0 <= d < |s.deletions| ==> !LateTheft(s, d)
  }

  /** Every theft goes back to a late one. */
  lemma {:induction false} FirstTheftIsLate(s: State, d: nat) returns (c: nat)
    requires DeletionInv(s) && d < |s.deletions| && Theft(s.deletions[d])
    ensures c < |s.deletions| && LateTheft(s, c)
  {
    if Late(s, s.deletions[d]) {
      c := d;
    } else {
      var b :| 0 <= b < d && s.deletions[b].victim == Some(s.deletions[d].actor);
      c := FirstTheftIsLate(s, b);
    }
  }

  /** Some request deletes the entry of another exactly if one does so after its own entry expired. */
  lemma TheftExactlyIfLate(events: seq<Event>)
    ensures (exists d :: 0 <= d < |Run(events).deletions| && Theft(Run(events).deletions[d])) <==>
      !Harmless(Run(events))
  {
    RunInv(events);
    var s := Run(events);
    if d :| 0 <= d < |s.deletions| && Theft(s.deletions[d]) {
      var c := FirstTheftIsLate(s, d);
    }
  }

  /** Without a late deletion no request deletes the entry of another. */
  lemma TimelyMeansNoTheft(events: seq<Event>, d: nat)
    requires Timely(Run(events)) && d < |Run(events).deletions|
    ensures Harmless(Run(events)) && !Theft(Run(events).deletions[d])
  {
    TheftExactlyIfLate(events);
  }

  /**
   * Safety: if no failing request deletes another's entry after its own expired, at most one unfailed request per key
   * is inside its time to live.
   */
  lemma AtMostOneAdmitted(events: seq<Event>, x: RequestId, y: RequestId)
    requires Harmless(Run(events))
    requires Protects(Run(events), x) && Protects(Run(events), y)
    requires Run(events).requests[x].key == Run(events).requests[y].key
    ensures x == y
  {
    var s := Run(events);
    RunInv(events);
    NotVictim(s, x);
    NotVictim(s, y);
    EntryUnlessDeleted(events, x);
    EntryUnlessDeleted(events, y);
  }

  lemma NotVictim(s: State, id: RequestId)
    requires DeletionInv(s) && Harmless(s) && Unfailed(s, id)
    ensures !Victim(s, id)
  {
    if Victim(s, id) {
      var d :| 0 <= d < |s.deletions| && s.deletions[d].victim == Some(id);
      var c := FirstTheftIsLate(s, d);
    }
  }

  /**
   * Deletion discipline: a request deletes at most once and only what it was admitted for; an entry is deleted at
   * most once; a deletion hits another request's entry only if its own entry had expired or had been deleted before.
   */
  lemma DeletionDiscipline(events: seq<Event>, d: nat)
    requires d < |Run(events).deletions|
    ensures var s := Run(events); var x := s.deletions[d];
      && WasAdmitted(s, x.actor) && x.actor in s.requests && x.key == s.requests[x.actor].key
      && (forall c :: 0 <= c < |s.deletions| && s.deletions[c].actor == x.actor ==> c == d)
      && (forall c :: 0 <= c < |s.deletions| && x.victim.Some? && s.deletions[c].victim == x.victim ==> c == d)
      && (x.victim.Some? ==> x.victim.value == x.actor || Late(s, x) || VictimWithin(s, x.actor, d))
  {
    RunInv(events);
    DeleterWasAdmitted(events, d);
  }

  lemma RunAdmission(events: seq<Event>)
    ensures AdmissionInv(Run(events))
  {
    RunInv(events);
  }

  /** A step logs at most one deletion, by a request that owns an entry. */
  lemma StepDeletions(s: State, e: Event)
    ensures var t := Next(s, e);
      || t.deletions == s.deletions
      || ((e.Intercept? || e.Filter?) && e.id in s.requests && s.requests[e.id].owns
          && |t.deletions| == |s.deletions| + 1 && t.deletions[..|s.deletions|] == s.deletions
          && t.deletions[|s.deletions|].actor == e.id)
    ensures s.admissions <= Next(s, e).admissions
  {
  }

  lemma {:induction false} DeleterWasAdmitted(events: seq<Event>, d: nat)
    requires d < |Run(events).deletions|
    ensures WasAdmitted(Run(events), Run(events).deletions[d].actor)
  {
    if events != [] {
      var front, e := events[..|events| - 1], events[|events| - 1];
      var s, t := Run(front), Run(events);
      StepDeletions(s, e);
      if d < |s.deletions| {
        DeleterWasAdmitted(front, d);
        assert t.deletions[d] == s.deletions[d];
        AdmittedMonotone(s, t, s.deletions[d].actor);
      } else {
        RunAdmission(front);
        AdmittedMonotone(s, t, e.id);
      }
    }
  }

  /** A request that the guard refused never owns an entry, so its error path deletes nothing. */
  lemma RefusedNeverOwns(events: seq<Event>, id: RequestId)
    requires id in Run(events).requests
    requires Run(events).requests[id].phase in {Waiting, Locked, Missed, Refused, Rejected}
    ensures !Run(events).requests[id].owns && !HasDeleted(Run(events), id)
    ensures Next(Run(events), Filter(id)).cache == Run(events).cache
  {
    RunInv(events);
  }

  /** Of two admissions on one key, the later follows the expiry or the deletion of the earlier. */
  lemma AdmissionsAreSpaced(events: seq<Event>, i: nat, j: nat)
    requires i < j < |Run(events).admissions|
    requires Run(events).admissions[i].key == Run(events).admissions[j].key
    ensures var s := Run(events);
      s.admissions[i].expires <= s.admissions[j].at || DeletedBy(s, s.admissions[i].request, s.admissions[j].at)
  {
    RunInv(events);
  }

  /** Two admissions with one nonce are at least the time to live apart, in every run, without further condition. */
  lemma NoncesAreSpaced(events: seq<Event>, i: nat, j: nat)
    requires i < j < |Run(events).admissions|
    requires Run(events).admissions[i].key == Run(events).admissions[j].key
    requires Run(events).admissions[i].key.NonceKey?
    ensures var s := Run(events);
      && s.admissions[i].request in s.requests
      && s.admissions[j].at >= s.admissions[i].at + s.requests[s.admissions[i].request].ttl
  {
    RunInv(events);
  }

  /** A new request going through the guard with no other request stepping in between. */
  function PassGuard(s: State, id: RequestId, k: Key, ttl: int): State {
    Next(Next(Next(Next(Next(s, Arrive(id, k, ttl)), Acquire(id)), Read(id)), Write(id)), Release(id))
  }

  lemma PassGuardToRead(s: State, id: RequestId, k: Key, ttl: int)
    requires id !in s.requests && k !in s.locks && ttl > 0
    ensures Next(Next(Next(s, Arrive(id, k, ttl)), Acquire(id)), Read(id))
      == s.(requests := s.requests[id := Request(k, ttl, if Live(s, k) then Refused else Missed, false)],
            locks := s.locks[k := id])
  {
    var s1 := Next(s, Arrive(id, k, ttl));
    assert s1 == s.(requests := s.requests[id := Request(k, ttl, Waiting, false)]);
    var s2 := Next(s1, Acquire(id));
    assert s2.requests == s.requests[id := Request(k, ttl, Locked, false)];
    var s3 := Next(s2, Read(id));
    assert s3.requests == s.requests[id := Request(k, ttl, if Live(s, k) then Refused else Missed, false)];
  }

  lemma PassGuardAdmits(s: State, id: RequestId, k: Key, ttl: int)
    requires id !in s.requests && k !in s.locks && ttl > 0 && !Live(s, k)
    ensures PassGuard(s, id, k, ttl) == s.(
      requests := s.requests[id := Request(k, ttl, Admitted, k.ReplayKey?)],
      cache := s.cache[k := Entry(id, s.now + ttl)],
      admissions := s.admissions + [Admit(id, k, s.now, s.now + ttl)])
  {
    PassGuardToRead(s, id, k, ttl);
    var s3 := s.(requests := s.requests[id := Request(k, ttl, Missed, false)], locks := s.locks[k := id]);
    var s4 := Next(s3, Write(id));
    assert s4.requests == s.requests[id := Request(k, ttl, Written, k.ReplayKey?)];
    var s5 := Next(s4, Release(id));
    assert s5.requests == s.requests[id := Request(k, ttl, Admitted, k.ReplayKey?)];
    assert s5.locks == s.locks;
  }

  lemma PassGuardRefuses(s: State, id: RequestId, k: Key, ttl: int)
    requires id !in s.requests && k !in s.locks && ttl > 0 && Live(s, k)
    ensures PassGuard(s, id, k, ttl) == s.(requests := s.requests[id := Request(k, ttl, Rejected, false)])
  {
    PassGuardToRead(s, id, k, ttl);
    var s3 := s.(requests := s.requests[id := Request(k, ttl, Refused, false)], locks := s.locks[k := id]);
    var s4 := Next(s3, Write(id));
    assert s4 == s3;
    var s5 := Next(s4, Release(id));
    assert s5.requests == s.requests[id := Request(k, ttl, Rejected, false)];
    assert s5.locks == s.locks;
  }

  /** Undisturbed, the steps of the guard do what its body does when read from top to bottom. */
  lemma {:induction false} PassGuardAlone(s: State, id: RequestId, k: Key, ttl: int)
    requires id !in s.requests && k !in s.locks && ttl > 0
    ensures var t := PassGuard(s, id, k, ttl); var o := Enter(s.cache, k, id, ttl, s.now);
      && t.cache == o.cache && t.locks == s.locks
      && t.requests == s.requests[id :=
           Request(k, ttl, if o.admitted then Admitted else Rejected, o.admitted && k.ReplayKey?)]
  {
    hide PassGuard;
    if Live(s, k) {
      PassGuardRefuses(s, id, k, ttl);
    } else {
      PassGuardAdmits(s, id, k, ttl);
    }
  }

  /**
   * What protection is worth: beside an unfailed admission inside its time to live, an equal request gets in exactly
   * if somebody deleted the entry and nobody has written another; then two are admitted side by side.
   */
  lemma ProtectedUnlessDeleted(events: seq<Event>, x: RequestId, y: RequestId, ttl: int)
    requires Protects(Run(events), x) && y !in Run(events).requests && ttl > 0
    requires Run(events).requests[x].key !in Run(events).locks
    ensures var s, k := Run(events), Run(events).requests[x].key; var t := PassGuard(s, y, k, ttl);
      && y in t.requests
      && (t.requests[y].phase.Admitted? <==> Victim(s, x) && !Live(s, k))
      && (t.requests[y].phase.Admitted? ==> Protects(t, x) && Protects(t, y))
  {
    var s, k := Run(events), Run(events).requests[x].key;
    PassGuardAlone(s, y, k, ttl);
    EntryUnlessDeleted(events, x);
    if !Live(s, k) {
      PassGuardAdmits(s, y, k, ttl);
      var t := PassGuard(s, y, k, ttl);
      hide PassGuard;
      var i :| 0 <= i < |s.admissions| && s.admissions[i].request == x && s.now < s.admissions[i].expires;
      assert t.admissions[i] == s.admissions[i];
      assert t.admissions[|s.admissions|].request == y;
    }
  }

  /** A failed request takes its entry away, in the interceptor or in the filter, whichever sees its error first. */
  lemma FailureClears(events: seq<Event>, id: RequestId)
    requires InPhase(Run(events), id, Failed) && Run(events).requests[id].key.ReplayKey?
    ensures var s := Run(events); var k := s.requests[id].key;
      && k !in Next(s, Intercept(id)).cache
      && k !in Next(s, Filter(id)).cache
      && k !in Next(Next(s, Intercept(id)), Filter(id)).cache
  {
    RunInv(events);
  }

  /** So an equal request that comes next is admitted, whatever is left of the time to live. */
  lemma RetryIsAdmitted(events: seq<Event>, id: RequestId, y: RequestId, ttl: int)
    requires InPhase(Run(events), id, Failed) && Run(events).requests[id].key.ReplayKey?
    requires y !in Run(events).requests && ttl > 0 && Run(events).requests[id].key !in Run(events).locks
    ensures var s := Run(events); var k := s.requests[id].key;
      && InPhase(PassGuard(Next(s, Intercept(id)), y, k, ttl), y, Admitted)
      && InPhase(PassGuard(Next(s, Filter(id)), y, k, ttl), y, Admitted)
      && InPhase(PassGuard(Next(Next(s, Intercept(id)), Filter(id)), y, k, ttl), y, Admitted)
  {
    var s := Run(events);
    var k := s.requests[id].key;
    FailureClears(events, id);
    FailureKeepsOthers(s, id);
    hide Next, PassGuard, Run;
    PassGuardAlone(Next(s, Intercept(id)), y, k, ttl);
    PassGuardAlone(Next(s, Filter(id)), y, k, ttl);
    PassGuardAlone(Next(Next(s, Intercept(id)), Filter(id)), y, k, ttl);
  }

  lemma FailureKeepsOthers(s: State, id: RequestId)
    ensures forall e :: e in {Intercept(id), Filter(id)} ==>
      Next(s, e).locks == s.locks && Next(s, e).requests.Keys == s.requests.Keys
    ensures var t := Next(Next(s, Intercept(id)), Filter(id)); t.locks == s.locks && t.requests.Keys == s.requests.Keys
  {
  }

  /** Nothing else opens the way: after an admission an equal request is admitted exactly from its expiry on. */
  lemma ReadmittedExactly(s: State, id: RequestId, y: RequestId, k: Key, ttl: int, time: int)
    requires id !in s.requests && y !in s.requests && id != y && k !in s.locks && ttl > 0 && !Live(s, k)
    requires time > s.now
    ensures var t := PassGuard(Next(PassGuard(s, id, k, ttl), Tick(time)), y, k, ttl);
      && y in t.requests
      && t.requests[y].phase == (if time >= s.now + ttl then Admitted else Rejected)
  {
    PassGuardAdmits(s, id, k, ttl);
    var a := PassGuard(s, id, k, ttl);
    var b := Next(a, Tick(time));
    assert b == a.(now := time);
    hide PassGuard, Next;
    PassGuardAlone(b, y, k, ttl);
  }

  lemma RunPassGuard(events: seq<Event>, id: RequestId, k: Key, ttl: int) returns (more: seq<Event>)
    ensures Run(more) == PassGuard(Run(events), id, k, ttl)
  {
    RunSnoc(events, Arrive(id, k, ttl));
    RunSnoc(events + [Arrive(id, k, ttl)], Acquire(id));
    RunSnoc(events + [Arrive(id, k, ttl)] + [Acquire(id)], Read(id));
    RunSnoc(events + [Arrive(id, k, ttl)] + [Acquire(id)] + [Read(id)], Write(id));
    RunSnoc(events + [Arrive(id, k, ttl)] + [Acquire(id)] + [Read(id)] + [Write(id)], Release(id));
    more := events + [Arrive(id, k, ttl)] + [Acquire(id)] + [Read(id)] + [Write(id)] + [Release(id)];
  }

  /** The second of two requests enters once the entry of the first has expired. */
  function TwoAdmitted(k: Key): State {
    State(10,
          map[0 := Request(k, 10, Admitted, true), 1 := Request(k, 10, Admitted, true)],
          map[],
          map[k := Entry(1, 20)],
          [Admit(0, k, 0, 10), Admit(1, k, 10, 20)],
          [])
  }

  lemma ReachTwoAdmitted(k: Key)
    requires k.ReplayKey?
    ensures PassGuard(Next(PassGuard(INITIAL, 0, k, 10), Tick(10)), 1, k, 10) == TwoAdmitted(k)
  {
    PassGuardAdmits(INITIAL, 0, k, 10);
    var a :=
      State(0, map[0 := Request(k, 10, Admitted, true)], map[], map[k := Entry(0, 10)], [Admit(0, k, 0, 10)], []);
    assert Next(a, Tick(10)) == a.(now := 10);
    hide PassGuard, Next;
    assert PassGuard(INITIAL, 0, k, 10) == a;
    PassGuardAdmits(a.(now := 10), 1, k, 10);
  }

  /** Where the run of `LateFailureAdmitsTwo` stands after the first request's late deletion. */
  lemma AfterLateFailure(s: State, k: Key)
    requires k.ReplayKey? && s == Next(Next(TwoAdmitted(k), Fail(0)), Filter(0))
    ensures s.now == 10 && s.deletions == [Deletion(0, k, Some(1), 10)] && k !in s.cache && k !in s.locks
    ensures s.requests.Keys == {0, 1} && s.requests[1] == Request(k, 10, Admitted, true)
    ensures s.admissions == [Admit(0, k, 0, 10), Admit(1, k, 10, 20)]
  {
    var b := Next(TwoAdmitted(k), Fail(0));
    assert b.requests == map[0 := Request(k, 10, Failed, true), 1 := Request(k, 10, Admitted, true)];
  }

  /** A request that fails after its own time to live lets a third one in beside a second: the condition is needed. */
  lemma LateFailureAdmitsTwo() returns (events: seq<Event>)
    ensures !Harmless(Run(events))
    ensures Protects(Run(events), 1) && Protects(Run(events), 2)
    ensures Run(events).requests[1].key == Run(events).requests[2].key
  {
    var k := ReplayKey(ReplayData("POST", map[], "/", map[], "", "", None, None));
    events := RunPassGuard([], 0, k, 10);
    RunSnoc(events, Tick(10));
    events := RunPassGuard(events + [Tick(10)], 1, k, 10);
    RunSnoc(events, Fail(0));
    RunSnoc(events + [Fail(0)], Filter(0));
    var s := Run(events + [Fail(0)] + [Filter(0)]);
    ReachTwoAdmitted(k);
    AfterLateFailure(s, k);
    events := RunPassGuard(events + [Fail(0)] + [Filter(0)], 2, k, 10);
    PassGuardAdmits(s, 2, k, 10);
    var t := Run(events);
    assert t.admissions == [Admit(0, k, 0, 10), Admit(1, k, 10, 20), Admit(2, k, 10, 20)];
    assert LateTheft(t, 0) by { assert t.admissions[0].expires <= t.deletions[0].at; }
    assert t.admissions[1].request == 1 && t.admissions[2].request == 2;
  }
}
