/**
 * Events of a request wait in its emitter until its transaction has committed, and are then sent in chunks. Requests
 * run side by side and share the broker.
 */
module EventOutbox {
  import opened Division
  import opened Windows

  const CHUNK_SIZE := 100

  datatype Event = Event(name: string, data: string)

  function Chunks(events: seq<Event>): seq<seq<Event>> {
    FirstWindows(events, CHUNK_SIZE, CeilDiv(|events|, CHUNK_SIZE))
  }

  /** No chunk is empty or too long, and together they are the events in order. */
  lemma ChunksPartition(events: seq<Event>)
    ensures Concat(Chunks(events)) == events
    ensures forall c :: c in Chunks(events) ==> 1 <= |c| <= 100
    ensures forall i :: 0 <= i < |Chunks(events)| - 1 ==> |Chunks(events)[i]| == 100
  {
    PagesPartition(events, CHUNK_SIZE);
    forall c | c in Chunks(events)
      ensures 1 <= |c| <= 100
    {
      var i: nat :| i < |Chunks(events)| && Chunks(events)[i] == c;
      assert Window(events, Offset(i, CHUNK_SIZE), CHUNK_SIZE) != [];
    }
  }

  // ----- One emitter -----

  /** The broker, which may refuse any attempt: `accepts` says what becomes of the n-th. */
  class KafkaService {
    const accepts: nat -> bool
    var attempts: seq<Event>

    constructor (accepts: nat -> bool)
      ensures this.accepts == accepts && attempts == []
    {
      this.accepts := accepts;
      attempts := [];
    }

    method Emit(event: Event) returns (fulfilled: bool)
      modifies this
      ensures attempts == old(attempts) + [event] && fulfilled == accepts(|old(attempts)|)
    {
      fulfilled := accepts(|attempts|);
      attempts := attempts + [event];
    }
  }

  /** A log line names an event and says whether it was sent. */
  datatype LogLine = LogLine(event: Event, fulfilled: bool)

  /** Where the k-th event stands in its chunk. */
  function PlaceInChunk(k: nat): nat {
    k % CHUNK_SIZE
  }

  /**
   * The log says of the k-th event whether its attempt was accepted, the first being attempt number `start`, but names
   * the event of the first chunk at its place.
   */
  ghost predicate Logged(log: seq<LogLine>, events: seq<Event>, accepts: nat -> bool, start: nat) {
    && |log| <= |events|
    && forall k :: 0 <= k < |log| ==> log[k] == LogLine(events[PlaceInChunk(k)], accepts(start + k))
  }

  class KafkaEventEmitter {
    const kafka: KafkaService
    var events: seq<Event>

    constructor (kafka: KafkaService)
      ensures this.kafka == kafka && events == []
    {
      this.kafka := kafka;
      events := [];
    }

    method Emit(event: Event)
      modifies this
      ensures events == old(events) + [event]
    {
      events := events + [event];
    }

    /**
     * Attempts every event once, in order, whatever becomes of the others, and logs one line for each.
     */
    method FireEvents() returns (log: seq<LogLine>)
      modifies kafka
      ensures kafka.attempts == old(kafka.attempts) + events
      ensures |log| == |events| && Logged(log, events, kafka.accepts, |old(kafka.attempts)|)
    {
      hide Chunks, Offset, Logged;
      log := [];
      ghost var start := |kafka.attempts|;
      NothingLogged(events, kafka.accepts, start);
      var eventChunks := Chunks(events);
      ghost var sent := 0;
      ChunksCover(events);
      for c := 0 to |eventChunks|
        invariant sent == Min(Offset(c, CHUNK_SIZE), |events|) == |log|
        invariant kafka.attempts == old(kafka.attempts) + events[..sent]
        invariant Logged(log, events, kafka.accepts, start)
      {
        ChunkAt(events, c);
        ghost var before := log;
        var results := SendAll(eventChunks[c]);
        log := Log(log, results);
        LogContinued(events, sent, eventChunks[c], before, results, log, kafka.accepts, start);
        sent := sent + |results|;
      }
      assert events[..|events|] == events;
    }

    /** Sends one chunk and waits for all of it. */
    method SendAll(chunk: seq<Event>) returns (results: seq<bool>)
      modifies kafka
      ensures kafka.attempts == old(kafka.attempts) + chunk
      ensures |results| == |chunk|
      ensures forall i :: 0 <= i < |chunk| ==> results[i] == kafka.accepts(|old(kafka.attempts)| + i)
    {
      results := [];
      for i := 0 to |chunk|
        invariant |results| == i
        invariant forall k :: 0 <= k < i ==> results[k] == kafka.accepts(|old(kafka.attempts)| + k)
        invariant kafka.attempts == old(kafka.attempts) + chunk[..i]
      {
        var fulfilled := kafka.Emit(chunk[i]);
        results := results + [fulfilled];
      }
      assert chunk[..|chunk|] == chunk;
    }

    /** One line for each result of a chunk. */
    method Log(before: seq<LogLine>, results: seq<bool>) returns (log: seq<LogLine>)
      requires |results| <= |events|
      ensures |log| == |before| + |results| && before <= log
      ensures forall i :: 0 <= i < |results| ==> log[|before| + i] == LogLine(events[i], results[i])
    {
      log := before;
      for i := 0 to |results|
        invariant |log| == |before| + i && before <= log
        invariant forall k :: 0 <= k < i ==> log[|before| + k] == LogLine(events[k], results[k])
      {
        log := log + [LogLine(events[i], results[i])];
      }
    }
  }

  lemma NothingLogged(events: seq<Event>, accepts: nat -> bool, start: nat)
    ensures Logged([], events, accepts, start)
  {
  }

  lemma ChunksCover(events: seq<Event>)
    ensures Min(Offset(0, CHUNK_SIZE), |events|) == 0
    ensures Min(Offset(|Chunks(events)|, CHUNK_SIZE), |events|) == |events|
  {
    WindowIsEmpty(events, CHUNK_SIZE, |Chunks(events)|);
  }

  /** Chunk c begins where the chunks before it end. */
  lemma ChunkAt(events: seq<Event>, c: nat)
    requires c < |Chunks(events)|
    ensures var start, chunk := Offset(c, CHUNK_SIZE), Chunks(events)[c];
            && start == Min(start, |events|)
            && start + |chunk| == Min(Offset(c + 1, CHUNK_SIZE), |events|) <= |events|
            && |chunk| <= CHUNK_SIZE && PlaceInChunk(start) == 0
            && chunk == events[start..start + |chunk|]
            && events[..start] + chunk == events[..start + |chunk|]
  {
    WindowIsEmpty(events, CHUNK_SIZE, c);
    NextWindow(events, CHUNK_SIZE, c);
    assert Offset(c + 1, CHUNK_SIZE) == Offset(c, CHUNK_SIZE) + CHUNK_SIZE;
  }

  lemma PlaceOf(start: nat, i: nat)
    requires PlaceInChunk(start) == 0 && i < CHUNK_SIZE
    ensures PlaceInChunk(start + i) == i
  {
  }

  lemma LogContinued(events: seq<Event>, sent: nat, chunk: seq<Event>, before: seq<LogLine>, results: seq<bool>,
                     log: seq<LogLine>, accepts: nat -> bool, start: nat)
    requires PlaceInChunk(sent) == 0 && |chunk| <= CHUNK_SIZE && sent + |chunk| <= |events|
    requires |before| == sent && Logged(before, events, accepts, start)
    requires |results| == |chunk| && forall i :: 0 <= i < |chunk| ==> results[i] == accepts(start + sent + i)
    requires |log| == sent + |chunk| && before <= log
    requires forall i :: 0 <= i < |results| ==> log[sent + i] == LogLine(events[i], results[i])
    ensures Logged(log, events, accepts, start)
  {
    forall k: nat | k < |log|
      ensures log[k] == LogLine(events[PlaceInChunk(k)], accepts(start + k))
    {
      hide PlaceInChunk;
      if k < sent {
        assert log[k] == before[k];
      } else {
        var i: nat := k - sent;
        PlaceOf(sent, i);
        assert log[sent + i] == LogLine(events[i], results[i]);
        assert start + sent + i == start + k;
      }
    }
  }

  ghost predicate Distinct(events: seq<Event>) {
    forall i, j :: 0 <= i < j < |events| ==> events[i] != events[j]
  }

  /** Among distinct events a line names its own exactly if it is in the first chunk. */
  lemma LineIsRightExactly(events: seq<Event>, log: seq<LogLine>, accepts: nat -> bool, start: nat, k: nat)
    requires k < |log| == |events| && Logged(log, events, accepts, start) && Distinct(events)
    ensures log[k] == LogLine(events[k % 100], accepts(start + k))
    ensures log[k].event == events[k] <==> k < 100
  {
    if k < CHUNK_SIZE {
      PlaceOf(0, k);
    } else {
      assert PlaceInChunk(k) < CHUNK_SIZE <= k;
    }
  }

  lemma OnePlaceBack(k: nat)
    requires k >= CHUNK_SIZE
    ensures PlaceInChunk(k) == PlaceInChunk(k - CHUNK_SIZE)
  {
  }

  lemma {:induction false} PlaceRepeats(events: seq<Event>, k: nat)
    requires k < |events|
    requires forall i :: CHUNK_SIZE <= i < |events| ==> events[i] == events[i - CHUNK_SIZE]
    ensures PlaceInChunk(k) <= k && events[PlaceInChunk(k)] == events[k]
  {
    if k < CHUNK_SIZE {
      PlaceOf(0, k);
    } else {
      OnePlaceBack(k);
      PlaceRepeats(events, k - CHUNK_SIZE);
    }
  }

  lemma RightMeansRepeats(events: seq<Event>, log: seq<LogLine>, accepts: nat -> bool, start: nat, k: nat)
    requires |log| == |events| && Logged(log, events, accepts, start) && CHUNK_SIZE <= k < |events|
    requires log[k].event == events[k] && log[k - CHUNK_SIZE].event == events[k - CHUNK_SIZE]
    ensures events[k] == events[k - CHUNK_SIZE]
  {
    OnePlaceBack(k);
  }

  lemma RepeatsMeansRight(events: seq<Event>, log: seq<LogLine>, accepts: nat -> bool, start: nat, k: nat)
    requires k < |log| == |events| && Logged(log, events, accepts, start)
    requires forall i :: CHUNK_SIZE <= i < |events| ==> events[i] == events[i - CHUNK_SIZE]
    ensures log[k].event == events[k]
  {
    PlaceRepeats(events, k);
  }

  /** In general, the whole log is right exactly if every event is the one a chunk before it. */
  lemma LogIsRightExactly(events: seq<Event>, log: seq<LogLine>, accepts: nat -> bool, start: nat)
    requires |log| == |events| && Logged(log, events, accepts, start)
    ensures (forall k :: 0 <= k < |events| ==> log[k].event == events[k]) <==>
      (forall k :: 100 <= k < |events| ==> events[k] == events[k - 100])
  {
    hide Logged;
    if forall k :: 0 <= k < |events| ==> log[k].event == events[k] {
      forall k: nat | CHUNK_SIZE <= k < |events|
        ensures events[k] == events[k - CHUNK_SIZE]
      {
        RightMeansRepeats(events, log, accepts, start, k);
      }
    }
    if forall k :: CHUNK_SIZE <= k < |events| ==> events[k] == events[k - CHUNK_SIZE] {
      forall k: nat | k < |events|
        ensures log[k].event == events[k]
      {
        RepeatsMeansRight(events, log, accepts, start, k);
      }
    }
  }

  /** One event more than a chunk: the last line names the first event. */
  method FireOneTooMany() returns (events: seq<Event>, log: seq<LogLine>)
    ensures |events| == |log| == 101 && Distinct(events)
    ensures log[100] == LogLine(events[0], true) && events[0] != events[100]
  {
    var kafka := new KafkaService(_ => true);
    var emitter := new KafkaEventEmitter(kafka);
    events := [];
    for i := 0 to CHUNK_SIZE + 1
      invariant emitter.events == events && |events| == i && fresh(emitter) && fresh(kafka)
      invariant emitter.kafka == kafka && kafka.attempts == []
      invariant forall k :: 0 <= k < i ==> |events[k].data| == k
    {
      var event := Event("EVENT", seq(i, _ => 'x'));
      emitter.Emit(event);
      events := events + [event];
    }
    log := emitter.FireEvents();
    LineIsRightExactly(events, log, kafka.accepts, 0, CHUNK_SIZE);
    assert log[CHUNK_SIZE].event == events[PlaceInChunk(CHUNK_SIZE)];
  }

  // ----- Many requests -----

  type RequestId = nat

  /**
   * A request is handled, then its transaction is committed or rolled back; a commit may fail. If the hooks of the
   * commit run, the events buffered by then are cut into chunks that are sent one at a time.
   */
  datatype Phase =
    | Handling
    | Committing
    | RolledBack
    | CommitFailed
    | Firing(events: seq<Event>, sent: nat)

  datatype Request = Request(phase: Phase, buffer: seq<Event>)

  datatype Attempt = Attempt(request: RequestId, event: Event)

  datatype System = System(requests: map<RequestId, Request>, attempts: seq<Attempt>)

  /**
   * Code the handler does not wait for may still emit after it has answered. The hooks run after every commit that
   * succeeds; whether they run after one that fails is up to the database library.
   */
  datatype Step =
    | Begin(request: RequestId)
    | Emit(request: RequestId, event: Event)
    | Answer(request: RequestId)
    | Fail(request: RequestId)
    | Commit(request: RequestId, succeeds: bool, hooks: bool)
    | FireChunk(request: RequestId)

  predicate Enabled(s: System, step: Step) {
    if step.Begin? then step.request !in s.requests
    else
      step.request in s.requests
      && var r := s.requests[step.request];
         match step
         case Emit(_, _) => true
         case Answer(_) => r.phase.Handling?
         case Fail(_) => r.phase.Handling?
         case Commit(_, ok, hooks) => r.phase.Committing? && (ok ==> hooks)
         case FireChunk(_) => r.phase.Firing? && r.phase.sent < |Chunks(r.phase.events)|
         case Begin(_) => true
  }

  function AttemptsOf(id: RequestId, events: seq<Event>): (r: seq<Attempt>)
    ensures |r| == |events|
    ensures forall i :: 0 <= i < |r| ==> r[i] == Attempt(id, events[i])
  {
    seq(|events|, i requires 0 <= i < |events| => Attempt(id, events[i]))
  }

  function Next(s: System, step: Step): System
    requires Enabled(s, step)
  {
    var id := step.request;
    if step.Begin? then s.(requests := s.requests[id := Request(Handling, [])])
    else
      var r := s.requests[id];
      match step
      case Emit(_, e) => s.(requests := s.requests[id := r.(buffer := r.buffer + [e])])
      case Answer(_) => s.(requests := s.requests[id := r.(phase := Committing)])
      case Fail(_) => s.(requests := s.requests[id := r.(phase := RolledBack)])
      case Commit(_, _, hooks) =>
        s.(requests := s.requests[id := r.(phase := if hooks then Firing(r.buffer, 0) else CommitFailed)])
      case FireChunk(_) =>
        System(s.requests[id := r.(phase := r.phase.(sent := r.phase.sent + 1))],
               s.attempts + AttemptsOf(id, Chunks(r.phase.events)[r.phase.sent]))
      case Begin(_) => s
  }

  ghost predicate IsRun(states: seq<System>, steps: seq<Step>) {
    && |states| == |steps| + 1 && states[0] == System(map[], [])
    && forall i :: 0 <= i < |steps| ==> Enabled(states[i], steps[i]) && states[i + 1] == Next(states[i], steps[i])
  }

  /** The events attempted for one request, in order. */
  function EventsOf(attempts: seq<Attempt>, id: RequestId): seq<Event> {
    if attempts == [] then []
    else
      var last := attempts[|attempts| - 1];
      EventsOf(attempts[..|attempts| - 1], id) + (if last.request == id then [last.event] else [])
  }

  lemma {:induction false} EventsOfConcat(a: seq<Attempt>, b: seq<Attempt>, id: RequestId)
    ensures EventsOf(a + b, id) == EventsOf(a, id) + EventsOf(b, id)
  {
    if b == [] {
      assert a + b == a;
    } else {
      var n := |b| - 1;
      assert (a + b)[..|a + b| - 1] == a + b[..n];
      EventsOfConcat(a, b[..n], id);
    }
  }

  lemma {:induction false} EventsOfAttempts(id: RequestId, events: seq<Event>, other: RequestId)
    ensures EventsOf(AttemptsOf(id, events), other) == if id == other then events else []
  {
    if events != [] {
      var n := |events| - 1;
      assert AttemptsOf(id, events)[..n] == AttemptsOf(id, events[..n]);
      EventsOfAttempts(id, events[..n], other);
      assert events == events[..n] + [events[n]];
    }
  }

  /** What a phase says of the events attempted so far. */
  ghost predicate Accounted(r: Request, attempted: seq<Event>) {
    match r.phase
    case Firing(events, sent) =>
      && events <= r.buffer && sent <= |Chunks(events)|
      && attempted == events[..Min(Offset(sent, CHUNK_SIZE), |events|)]
    case _ => attempted == []
  }

  ghost predicate Inv(s: System) {
    forall id: RequestId ::
      if id in s.requests then Accounted(s.requests[id], EventsOf(s.attempts, id)) else EventsOf(s.attempts, id) == []
  }

  /** The next chunk moves a firing request on. */
  lemma ChunkAccounted(r: Request, attempted: seq<Event>)
    requires r.phase.Firing? && Accounted(r, attempted) && r.phase.sent < |Chunks(r.phase.events)|
    ensures Accounted(r.(phase := r.phase.(sent := r.phase.sent + 1)), attempted + Chunks(r.phase.events)[r.phase.sent])
  {
    NextWindow(r.phase.events, CHUNK_SIZE, r.phase.sent);
  }

  lemma AttemptsAdd(attempts: seq<Attempt>, id: RequestId, chunk: seq<Event>, other: RequestId)
    ensures EventsOf(attempts + AttemptsOf(id, chunk), other)
      == EventsOf(attempts, other) + (if other == id then chunk else [])
  {
    EventsOfConcat(attempts, AttemptsOf(id, chunk), other);
    EventsOfAttempts(id, chunk, other);
  }

  lemma FireKeepsInv(s: System, id: RequestId)
    requires Inv(s) && Enabled(s, FireChunk(id))
    ensures Inv(Next(s, FireChunk(id)))
  {
    var r := s.requests[id];
    ChunkAccounted(r, EventsOf(s.attempts, id));
    var chunk := Chunks(r.phase.events)[r.phase.sent];
    var s' := Next(s, FireChunk(id));
    var later := r.(phase := r.phase.(sent := r.phase.sent + 1));
    assert s' == System(s.requests[id := later], s.attempts + AttemptsOf(id, chunk));
    hide Accounted, Chunks, EventsOf, Next, Enabled;
    forall other: RequestId
      ensures if other in s'.requests then Accounted(s'.requests[other], EventsOf(s'.attempts, other))
              else EventsOf(s'.attempts, other) == []
    {
      AttemptsAdd(s.attempts, id, chunk, other);
      assert EventsOf(s.attempts, other) + [] == EventsOf(s.attempts, other);
    }
  }

  lemma StepKeepsInv(s: System, step: Step)
    requires Inv(s) && Enabled(s, step)
    ensures Inv(Next(s, step))
  {
    if step.FireChunk? {
      FireKeepsInv(s, step.request);
    } else if step.Commit? && step.hooks {
      var r := s.requests[step.request];
      assert r.buffer[..Min(Offset(0, CHUNK_SIZE), |r.buffer|)] == [];
    }
  }

  lemma {:induction false} RunsKeepInv(states: seq<System>, steps: seq<Step>, n: nat)
    requires IsRun(states, steps) && n <= |steps|
    ensures Inv(states[n])
  {
    if n > 0 {
      RunsKeepInv(states, steps, n - 1);
      StepKeepsInv(states[n - 1], steps[n - 1]);
    }
  }

  predicate Done(r: Request) {
    r.phase.Firing? && r.phase.sent == |Chunks(r.phase.events)|
  }

  /**
   * In every run: a request attempts a beginning of what it buffered before its commit, each event once and in order,
   * and all of it when it is done; without the hooks of a commit it attempts nothing.
   */
  lemma Outbox(states: seq<System>, steps: seq<Step>, n: nat, id: RequestId)
    requires IsRun(states, steps) && n <= |steps| && id in states[n].requests
    ensures var r, attempted := states[n].requests[id], EventsOf(states[n].attempts, id);
            && (!r.phase.Firing? ==> attempted == [])
            && (r.phase.Firing? ==> attempted <= r.phase.events <= r.buffer)
            && (Done(r) ==> attempted == r.phase.events)
  {
    RunsKeepInv(states, steps, n);
    var r := states[n].requests[id];
    if Done(r) {
      WindowIsEmpty(r.phase.events, CHUNK_SIZE, |Chunks(r.phase.events)|);
      assert r.phase.events[..|r.phase.events|] == r.phase.events;
    }
  }

  /** A firing request can go on exactly as long as not all of its events were attempted. */
  lemma GoesOnExactly(states: seq<System>, steps: seq<Step>, n: nat, id: RequestId)
    requires IsRun(states, steps) && n <= |steps| && id in states[n].requests
    ensures Enabled(states[n], FireChunk(id)) <==>
      var r := states[n].requests[id];
      r.phase.Firing? && EventsOf(states[n].attempts, id) != r.phase.events
  {
    RunsKeepInv(states, steps, n);
    var r, attempted := states[n].requests[id], EventsOf(states[n].attempts, id);
    if r.phase.Firing? {
      WindowIsEmpty(r.phase.events, CHUNK_SIZE, r.phase.sent);
      if r.phase.sent < |Chunks(r.phase.events)| {
        assert |attempted| == Offset(r.phase.sent, CHUNK_SIZE) < |r.phase.events|;
      } else {
        assert r.phase.events[..|r.phase.events|] == r.phase.events;
      }
    }
  }

  lemma ChunkGoesOn(r: Request, attempted: seq<Event>)
    requires r.phase.Firing? && Accounted(r, attempted) && r.phase.sent < |Chunks(r.phase.events)|
    ensures attempted + Chunks(r.phase.events)[r.phase.sent]
      == r.phase.events[..Min(|attempted| + 100, |r.phase.events|)]
  {
    ChunkAccounted(r, attempted);
    ChunkAt(r.phase.events, r.phase.sent);
    assert Offset(r.phase.sent + 1, CHUNK_SIZE) == Offset(r.phase.sent, CHUNK_SIZE) + 100;
  }

  /** Each time it attempts the next 100 events, or what is left; the others attempt nothing meanwhile. */
  lemma NextHundred(states: seq<System>, steps: seq<Step>, n: nat, id: RequestId)
    requires IsRun(states, steps) && n < |steps| && steps[n] == FireChunk(id)
    ensures id in states[n].requests && states[n].requests[id].phase.Firing?
    ensures var r, done := states[n].requests[id], |EventsOf(states[n].attempts, id)|;
      EventsOf(states[n + 1].attempts, id) == r.phase.events[..Min(done + 100, |r.phase.events|)]
    ensures forall other :: other != id ==>
      EventsOf(states[n + 1].attempts, other) == EventsOf(states[n].attempts, other)
  {
    RunsKeepInv(states, steps, n);
    var r := states[n].requests[id];
    ChunkGoesOn(r, EventsOf(states[n].attempts, id));
    var chunk := Chunks(r.phase.events)[r.phase.sent];
    assert states[n + 1].attempts == states[n].attempts + AttemptsOf(id, chunk);
    hide Next, Enabled, Inv, IsRun, Accounted, Chunks, EventsOf;
    forall other: RequestId
      ensures EventsOf(states[n + 1].attempts, other)
        == EventsOf(states[n].attempts, other) + (if other == id then chunk else [])
    {
      AttemptsAdd(states[n].attempts, id, chunk, other);
    }
  }

  lemma Append(states: seq<System>, steps: seq<Step>, step: Step)
    requires IsRun(states, steps) && Enabled(states[|steps|], step)
    ensures IsRun(states + [Next(states[|steps|], step)], steps + [step])
  {
  }

  /** One more step of a firing request. */
  lemma FiresOn(states: seq<System>, steps: seq<Step>, id: RequestId) returns (more: seq<System>)
    requires IsRun(states, steps) && id in states[|steps|].requests && states[|steps|].requests[id].phase.Firing?
    requires EventsOf(states[|steps|].attempts, id) != states[|steps|].requests[id].phase.events
    ensures IsRun(more, steps + [FireChunk(id)]) && states <= more
    ensures var r, r' := states[|steps|].requests[id], more[|steps| + 1].requests;
      id in r' && r'[id].phase.Firing? && r'[id].phase.events == r.phase.events
    ensures |EventsOf(states[|steps|].attempts, id)| < |EventsOf(more[|steps| + 1].attempts, id)|
      <= |states[|steps|].requests[id].phase.events|
  {
    hide EventsOf, IsRun, Enabled, Next;
    var n, step := |steps|, FireChunk(id);
    LastIndex(states, steps);
    var last := states[n];
    GoesOnExactly(states, steps, n, id);
    Append(states, steps, step);
    more := states + [Next(last, step)];
    StillFiring(last, id);
    NextHundred(more, steps + [step], n, id);
    Outbox(states, steps, n, id);
    PrefixIsShorter(EventsOf(last.attempts, id), last.requests[id].phase.events);
  }

  lemma LastIndex(states: seq<System>, steps: seq<Step>)
    requires IsRun(states, steps)
    ensures |states| == |steps| + 1
  {
  }

  lemma StillFiring(s: System, id: RequestId)
    requires Enabled(s, FireChunk(id))
    ensures var r := Next(s, FireChunk(id)).requests;
      && id in s.requests && s.requests[id].phase.Firing?
      && id in r && r[id].phase.Firing? && r[id].phase.events == s.requests[id].phase.events
  {
  }

  lemma PrefixIsShorter(a: seq<Event>, b: seq<Event>)
    requires a <= b && a != b
    ensures |a| < |b|
  {
  }

  /** From wherever a run has got, a firing request gets all of its events attempted by going on. */
  lemma {:induction false} FiresToTheEnd(states: seq<System>, steps: seq<Step>, id: RequestId)
    returns (states': seq<System>, steps': seq<Step>)
    requires IsRun(states, steps) && id in states[|steps|].requests && states[|steps|].requests[id].phase.Firing?
    ensures IsRun(states', steps') && states <= states' && steps <= steps'
    ensures forall i :: |steps| <= i < |steps'| ==> steps'[i] == FireChunk(id)
    ensures EventsOf(states'[|steps'|].attempts, id) == states[|steps|].requests[id].phase.events
    decreases |states[|steps|].requests[id].phase.events| - |EventsOf(states[|steps|].attempts, id)|
  {
    states', steps' := states, steps;
    if EventsOf(states[|steps|].attempts, id) != states[|steps|].requests[id].phase.events {
      var more := FiresOn(states, steps, id);
      assert |more| == |steps| + 2;
      hide EventsOf, IsRun;
      states', steps' := FiresToTheEnd(more, steps + [FireChunk(id)], id);
      assert steps <= steps + [FireChunk(id)] <= steps';
    }
  }

  /** Nothing is attempted for a request nobody made. */
  lemma NothingUnasked(states: seq<System>, steps: seq<Step>, n: nat, i: nat)
    requires IsRun(states, steps) && n <= |steps| && i < |states[n].attempts|
    ensures states[n].attempts[i].request in states[n].requests
    ensures states[n].requests[states[n].attempts[i].request].phase.Firing?
  {
    RunsKeepInv(states, steps, n);
    AttemptShows(states[n].attempts, i);
  }

  lemma {:induction false} AttemptShows(attempts: seq<Attempt>, i: nat)
    requires i < |attempts|
    ensures EventsOf(attempts, attempts[i].request) != []
  {
    if i < |attempts| - 1 {
      assert attempts[..|attempts| - 1][i] == attempts[i];
      AttemptShows(attempts[..|attempts| - 1], i);
    }
  }

  /** What a request buffers while it is handled. */
  function EmittedBy(steps: seq<Step>, n: nat, id: RequestId): seq<Event>
    requires n <= |steps|
  {
    if n == 0 then []
    else
      var step := steps[n - 1];
      EmittedBy(steps, n - 1, id) + (if step.Emit? && step.request == id then [step.event] else [])
  }

  lemma {:induction false} BufferIsWhatWasEmitted(states: seq<System>, steps: seq<Step>, n: nat, id: RequestId)
    requires IsRun(states, steps) && n <= |steps|
    ensures id in states[n].requests ==> states[n].requests[id].buffer == EmittedBy(steps, n, id)
    ensures id !in states[n].requests ==> EmittedBy(steps, n, id) == []
  {
    if n > 0 {
      BufferIsWhatWasEmitted(states, steps, n - 1, id);
      assert Enabled(states[n - 1], steps[n - 1]);
    }
  }

  /** From its commit on, a request fires the events it had emitted by then, and no others. */
  lemma {:induction false} FiredIsFixedAtCommit(states: seq<System>, steps: seq<Step>, c: nat, n: nat)
    requires IsRun(states, steps) && c < n <= |steps| && steps[c].Commit? && steps[c].hooks
    ensures var id := steps[c].request;
            && id in states[n].requests && states[n].requests[id].phase.Firing?
            && states[n].requests[id].phase.events == EmittedBy(steps, c, id)
    decreases n
  {
    assert Enabled(states[n - 1], steps[n - 1]);
    if n == c + 1 {
      BufferIsWhatWasEmitted(states, steps, c, steps[c].request);
    } else {
      FiredIsFixedAtCommit(states, steps, c, n - 1);
    }
  }

  /** A request fires after one step: a commit whose hooks ran. */
  predicate RanHooks(step: Step, id: RequestId) {
    step.Commit? && step.request == id && step.hooks
  }

  lemma {:induction false} FiringMeansHooks(states: seq<System>, steps: seq<Step>, n: nat, id: RequestId)
    returns (c: nat)
    requires IsRun(states, steps) && n <= |steps|
    requires id in states[n].requests && states[n].requests[id].phase.Firing?
    ensures c < n && RanHooks(steps[c], id)
  {
    assert Enabled(states[n - 1], steps[n - 1]);
    if RanHooks(steps[n - 1], id) {
      c := n - 1;
    } else {
      c := FiringMeansHooks(states, steps, n - 1, id);
    }
  }

  /** All firing is done. */
  ghost predicate Quiet(s: System) {
    forall r :: r in s.requests && s.requests[r].phase.Firing? ==> Done(s.requests[r])
  }

  /**
   * When the firing is done, the attempts of a request are exactly its emissions before the commit whose hooks ran,
   * and nothing if there was none: so nothing after a rollback.
   */
  lemma ExactlyTheCommitted(states: seq<System>, steps: seq<Step>, n: nat, id: RequestId)
    requires IsRun(states, steps) && n <= |steps| && Quiet(states[n])
    ensures forall c :: 0 <= c < n && RanHooks(steps[c], id) ==>
      EventsOf(states[n].attempts, id) == EmittedBy(steps, c, id)
    ensures (forall c :: 0 <= c < n ==> !RanHooks(steps[c], id)) ==> EventsOf(states[n].attempts, id) == []
  {
    forall c: nat | c < n && RanHooks(steps[c], id)
      ensures EventsOf(states[n].attempts, id) == EmittedBy(steps, c, id)
    {
      FiredIsFixedAtCommit(states, steps, c, n);
      Outbox(states, steps, n, id);
    }
    RunsKeepInv(states, steps, n);
    if id in states[n].requests && states[n].requests[id].phase.Firing? {
      var c := FiringMeansHooks(states, steps, n, id);
    }
  }

  lemma {:induction false} StaysRolledBack(states: seq<System>, steps: seq<Step>, c: nat, n: nat, id: RequestId)
    requires IsRun(states, steps) && c < n <= |steps| && steps[c] == Fail(id)
    ensures id in states[n].requests && states[n].requests[id].phase == RolledBack
    decreases n
  {
    assert Enabled(states[n - 1], steps[n - 1]);
    if n > c + 1 { StaysRolledBack(states, steps, c, n - 1, id); }
  }

  /** A request whose handler failed is rolled back: it never commits, and none of its events is ever attempted. */
  lemma FailedNeverFires(states: seq<System>, steps: seq<Step>, c: nat, n: nat, id: RequestId)
    requires IsRun(states, steps) && c < n <= |steps| && steps[c] == Fail(id)
    ensures EventsOf(states[n].attempts, id) == []
    ensures n < |steps| ==> !steps[n].Commit? || steps[n].request != id
  {
    StaysRolledBack(states, steps, c, n, id);
    assert n < |steps| ==> Enabled(states[n], steps[n]);
    hide IsRun, EventsOf;
    Outbox(states, steps, n, id);
  }

  /** A request's commit failed, its hooks ran all the same, and it had emitted something. */
  ghost predicate SentInError(steps: seq<Step>, c: nat)
    requires c < |steps|
  {
    steps[c].Commit? && !steps[c].succeeds && steps[c].hooks && EmittedBy(steps, c, steps[c].request) != []
  }

  ghost predicate Committed(steps: seq<Step>, n: nat, id: RequestId)
    requires n <= |steps|
  {
    exists c :: 0 <= c < n && steps[c] == Commit(id, true, true)
  }

  /**
   * When the firing is done, only events of committed requests were attempted if and only if no hooks ran after a
   * failed commit of a request that had emitted something.
   */
  lemma OnlyTheCommittedExactly(states: seq<System>, steps: seq<Step>, n: nat)
    requires IsRun(states, steps) && n <= |steps| && Quiet(states[n])
    ensures (forall id: RequestId :: EventsOf(states[n].attempts, id) != [] ==> Committed(steps, n, id)) <==>
      (forall c :: 0 <= c < n ==> !SentInError(steps, c))
  {
    if c :| 0 <= c < n && SentInError(steps, c) {
      var id := steps[c].request;
      ExactlyTheCommitted(states, steps, n, id);
      assert EventsOf(states[n].attempts, id) != [];
      if d :| 0 <= d < n && steps[d] == Commit(id, true, true) { OneCommit(states, steps, c, d); }
    }
    if id: RequestId :| EventsOf(states[n].attempts, id) != [] && !Committed(steps, n, id) {
      ExactlyTheCommitted(states, steps, n, id);
      var c :| 0 <= c < n && RanHooks(steps[c], id);
      assert SentInError(steps, c);
    }
  }

  /** A request commits at most once. */
  lemma OneCommit(states: seq<System>, steps: seq<Step>, c: nat, d: nat)
    requires IsRun(states, steps) && c < |steps| && d < |steps|
    requires steps[c].Commit? && steps[c].hooks && steps[d].Commit? && steps[d].hooks
    requires steps[c].request == steps[d].request
    ensures c == d
  {
    assert Enabled(states[c], steps[c]) && Enabled(states[d], steps[d]);
    if c < d { FiredIsFixedAtCommit(states, steps, c, d); }
    if d < c { FiredIsFixedAtCommit(states, steps, d, c); }
  }

  lemma {:induction false} Emits(id: RequestId, events: seq<Event>) returns (states: seq<System>, steps: seq<Step>)
    ensures IsRun(states, steps) && states[|steps|] == System(map[id := Request(Handling, events)], [])
  {
    if events == [] {
      var s := System(map[], []);
      Append([s], [], Begin(id));
      states, steps := [s, Next(s, Begin(id))], [Begin(id)];
    } else {
      var n := |events| - 1;
      states, steps := Emits(id, events[..n]);
      var step := Emit(id, events[n]);
      Append(states, steps, step);
      assert events == events[..n] + [events[n]];
      states, steps := states + [Next(states[|steps|], step)], steps + [step];
    }
  }

  /** Whatever a request emits, there is a run that commits it and attempts all of it. */
  lemma AllCanBeFired(id: RequestId, events: seq<Event>) returns (states: seq<System>, steps: seq<Step>)
    ensures IsRun(states, steps) && Committed(steps, |steps|, id)
    ensures EventsOf(states[|steps|].attempts, id) == events
  {
    states, steps := Emits(id, events);
    Append(states, steps, Answer(id));
    states, steps := states + [Next(states[|steps|], Answer(id))], steps + [Answer(id)];
    var commit := Commit(id, true, true);
    Append(states, steps, commit);
    ghost var c := |steps|;
    states, steps := states + [Next(states[c], commit)], steps + [commit];
    var states', steps' := FiresToTheEnd(states, steps, id);
    assert steps'[c] == commit;
    states, steps := states', steps';
  }
}
