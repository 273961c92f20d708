/**
 * What follows a credit validation: pending, ready and error events are handled by observers that may receive them
 * late, repeatedly, out of order and at the same time, and each validation is stored in a table.
 */
module CreditValidationEvents {
  import opened CreditValidation
  import opened Wrappers

  /** An event's payload with its response, which a malformed one lacks. */
  datatype Message = Message(kind: Kind, payload: Payload, response: Option<Verdict>)

  datatype ValidationState = READY | FAILED

  /** A row of the table, keyed by the payload's id. */
  datatype Row = Row(state: ValidationState, payload: Payload, response: Option<Verdict>)

  function MessageOf(e: Event): Message {
    Message(e.kind, e.payload, Some(e.verdict))
  }

  /** The row with an id. */
  function Find(rows: seq<Row>, id: string): (r: Option<Row>)
    ensures r.Some? ==> r.value in rows && r.value.payload.id == id
    ensures r.None? ==> forall i :: 0 <= i < |rows| ==> rows[i].payload.id != id
  {
    if rows == [] then None
    else if rows[|rows| - 1].payload.id == id then Some(rows[|rows| - 1])
    else Find(rows[..|rows| - 1], id)
  }

  /** The table after an insert, which the primary key may refuse. */
  function Insert(rows: seq<Row>, row: Row): seq<Row> {
    if Find(rows, row.payload.id).Some? then rows else rows + [row]
  }

  function StateFor(k: Kind): ValidationState {
    if k.Ready? then READY else FAILED
  }

  /** What the pending observer needs. */
  predicate Complete(m: Message) {
    m.payload.id != "" && m.payload.groupId != "" && m.payload.endToEndId != "" && m.response.Some?
  }

  const FIELD_NAMES: set<string> := {
    "Notify Credit Validation ID",
    "Notify Credit Validation Group ID",
    "Notify Credit Validation End To End ID",
    "Notify Credit Validation Result Type"
  }

  /** Only a verified valid credit becomes ready. */
  function Reported(m: Message, verified: bool): Message {
    m.(kind := if verified && m.response == Some(VALID) then Ready else Error)
  }

  // ----- The observers -----

  class Repository {
    var rows: seq<Row>

    constructor ()
      ensures rows == []
    {
      rows := [];
    }

    method GetById(id: string) returns (row: Option<Row>)
      ensures row == Find(rows, id)
    {
      row := Find(rows, id);
    }

    method Create(row: Row) returns (stored: bool)
      modifies this
      ensures rows == Insert(old(rows), row) && stored == Find(old(rows), row.payload.id).None?
      ensures stored <==> forall i :: 0 <= i < |old(rows)| ==> old(rows)[i].payload.id != row.payload.id
      ensures rows == if stored then old(rows) + [row] else old(rows)
    {
      var existing := GetById(row.payload.id);
      stored := existing.None?;
      if stored { rows := rows + [row]; }
    }
  }

  lemma NamesDiffer()
    ensures |"Notify Credit Validation ID"| == 27
    ensures |"Notify Credit Validation Group ID"| == 33
    ensures |"Notify Credit Validation End To End ID"| == 38
    ensures |"Notify Credit Validation Result Type"| == 36
  {
  }

  class PendingObserver {
    var events: seq<Message>

    constructor ()
      ensures events == []
    {
      events := [];
    }

    /** Asks the PSP to verify; `verified` is false if it fails. Answers the names of what is missing. */
    method Execute(m: Message, verified: bool) returns (missing: seq<string>)
      requires m.kind.Pending?
      modifies this
      ensures missing == [] <==> Complete(m)
      ensures "Notify Credit Validation ID" in missing <==> m.payload.id == ""
      ensures "Notify Credit Validation Group ID" in missing <==> m.payload.groupId == ""
      ensures "Notify Credit Validation End To End ID" in missing <==> m.payload.endToEndId == ""
      ensures "Notify Credit Validation Result Type" in missing <==> m.response.None?
      ensures forall i, j :: 0 <= i < j < |missing| ==> missing[i] != missing[j]
      ensures forall name :: name in missing ==> name in FIELD_NAMES
      ensures events == if Complete(m) then old(events) + [Reported(m, verified)] else old(events)
      ensures m.payload.id == "" || m.payload.groupId == "" || m.payload.endToEndId == "" || m.response.None? ==>
        events == old(events)
      ensures m.payload.id != "" && m.payload.groupId != "" && m.payload.endToEndId != "" && m.response.Some? ==>
        && |events| == |old(events)| + 1 && old(events) <= events
        && var e := events[|old(events)|];
           && e.payload == m.payload && e.response == m.response
           && (e.kind.Ready? <==> verified && m.response == Some(VALID))
           && (e.kind.Error? <==> !(verified && m.response == Some(VALID)))
    {
      missing := [];
      if m.payload.id == "" || m.payload.groupId == "" || m.payload.endToEndId == "" || m.response.None? {
        missing := (if m.payload.id == "" then ["Notify Credit Validation ID"] else [])
          + (if m.payload.groupId == "" then ["Notify Credit Validation Group ID"] else [])
          + (if m.payload.endToEndId == "" then ["Notify Credit Validation End To End ID"] else [])
          + (if m.response.None? then ["Notify Credit Validation Result Type"] else []);
        NamesDiffer();
        return;
      }
      if verified {
        if m.response.value.VALID? { events := events + [m.(kind := Ready)]; }
        else { events := events + [m.(kind := Error)]; }
      } else {
        events := events + [m.(kind := Error)];
      }
    }
  }

  /** The ready and the failed observer, which differ in the state they store. */
  class StoringObserver {
    const repository: Repository
    const state: ValidationState

    constructor (repository: Repository, state: ValidationState)
      ensures this.repository == repository && this.state == state
    {
      this.repository, this.state := repository, state;
    }

    /** Stores the validation unless one with its id is stored; answers what is stored, or nothing without an id. */
    method Execute(m: Message) returns (stored: Option<Row>)
      modifies repository
      ensures m.payload.id == "" ==> stored.None? && repository.rows == old(repository.rows)
      ensures m.payload.id != "" ==>
        && repository.rows == Insert(old(repository.rows), Row(state, m.payload, m.response))
        && stored.Some? && stored == Find(repository.rows, m.payload.id)
      ensures m.payload.id != "" ==>
        && stored.Some? && stored.value in repository.rows && stored.value.payload.id == m.payload.id
        && (repository.rows == old(repository.rows)
            || repository.rows == old(repository.rows) + [Row(state, m.payload, m.response)])
        && (repository.rows == old(repository.rows) <==>
              exists i :: 0 <= i < |old(repository.rows)| && old(repository.rows)[i].payload.id == m.payload.id)
    {
      if m.payload.id == "" { return None; }
      var found := repository.GetById(m.payload.id);
      if found.Some? { return found; }
      var row := Row(state, m.payload, m.response);
      var _ := repository.Create(row);
      return Some(row);
    }
  }

  // ----- All observers at once -----

  /**
   * Published messages stay deliverable. A working observer has read that its id is not stored and is about to
   * create its row.
   */
  datatype System = System(published: set<Message>, working: map<nat, Message>, rows: seq<Row>)

  datatype Step =
    | Publish(event: Event)
    | Verify(message: Message, verified: bool)
    | Read(observer: nat, message: Message)
    | Create(observer: nat)

  /** What can happen: anything published can be delivered, to any observer that is free. */
  ghost predicate Enabled(s: System, step: Step) {
    match step
    case Publish(e) => WellRouted(e)
    case Verify(m, _) => m in s.published && m.kind.Pending?
    case Read(o, m) => m in s.published && !m.kind.Pending? && o !in s.working
    case Create(o) => o in s.working
  }

  function Take(s: System, step: Step): System {
    match step
    case Publish(e) => s.(published := s.published + {MessageOf(e)})
    case Verify(m, verified) =>
      if Complete(m) then s.(published := s.published + {Reported(m, verified)}) else s
    case Read(o, m) =>
      if m.payload.id == "" || Find(s.rows, m.payload.id).Some? then s else s.(working := s.working[o := m])
    case Create(o) =>
      if o !in s.working then s
      else
        var m := s.working[o];
        s.(working := s.working - {o}, rows := Insert(s.rows, Row(StateFor(m.kind), m.payload, m.response)))
  }

  const INITIAL := System({}, map[], [])

  function Run(steps: seq<Step>, n: nat): System
    requires n <= |steps|
  {
    if n == 0 then INITIAL else Take(Run(steps, n - 1), steps[n - 1])
  }

  ghost predicate IsRun(steps: seq<Step>) {
    forall n :: 0 <= n < |steps| ==> Enabled(Run(steps, n), steps[n])
  }

  /** The validations the use case published. */
  function Origins(steps: seq<Step>, n: nat): set<(Payload, Option<Verdict>)>
    requires n <= |steps|
  {
    if n == 0 then {}
    else WithOrigin(Origins(steps, n - 1), steps[n - 1])
  }

  function WithOrigin(origins: set<(Payload, Option<Verdict>)>, step: Step): set<(Payload, Option<Verdict>)> {
    if step.Publish? then origins + {(step.event.payload, Some(step.event.verdict))} else origins
  }

  /** A message says what the use case said, and only a valid credit is ready; a valid one in error was grouped. */
  ghost predicate Sound(m: Message, origins: set<(Payload, Option<Verdict>)>) {
    && (m.payload, m.response) in origins
    && (m.kind.Ready? ==> m.response == Some(VALID))
    && (m.kind.Error? && m.response == Some(VALID) ==> m.payload.groupId != "")
  }

  ghost predicate RowSound(r: Row, origins: set<(Payload, Option<Verdict>)>) {
    && r.payload.id != ""
    && (r.payload, r.response) in origins
    && (r.state.READY? ==> r.response == Some(VALID))
    && (r.state.FAILED? && r.response == Some(VALID) ==> r.payload.groupId != "")
  }

  ghost predicate UniqueIds(rows: seq<Row>) {
    forall i, j :: 0 <= i < j < |rows| ==> rows[i].payload.id != rows[j].payload.id
  }

  ghost predicate Inv(s: System, origins: set<(Payload, Option<Verdict>)>) {
    && (forall m :: m in s.published ==> Sound(m, origins))
    && (forall o :: o in s.working ==>
          s.working[o] in s.published && !s.working[o].kind.Pending? && s.working[o].payload.id != "")
    && (forall i :: 0 <= i < |s.rows| ==> RowSound(s.rows[i], origins))
    && UniqueIds(s.rows)
  }

  lemma CreateKeepsInv(s: System, o: nat, origins: set<(Payload, Option<Verdict>)>)
    requires Inv(s, origins) && Enabled(s, Create(o))
    ensures Inv(Take(s, Create(o)), origins)
  {
    var m := s.working[o];
    assert Sound(m, origins);
  }

  lemma StepKeepsInv(s: System, step: Step, origins: set<(Payload, Option<Verdict>)>)
    requires Inv(s, origins) && Enabled(s, step)
    ensures Inv(Take(s, step), WithOrigin(origins, step))
  {
    if step.Create? {
      CreateKeepsInv(s, step.observer, origins);
    } else if step.Verify? {
      assert Sound(step.message, origins);
    }
  }

  lemma {:induction false} RunsKeepInv(steps: seq<Step>, n: nat)
    requires IsRun(steps) && n <= |steps|
    ensures Inv(Run(steps, n), Origins(steps, n))
  {
    if n > 0 {
      RunsKeepInv(steps, n - 1);
      assert Enabled(Run(steps, n - 1), steps[n - 1]);
      StepKeepsInv(Run(steps, n - 1), steps[n - 1], Origins(steps, n - 1));
    }
  }

  /** Each id is stored at most once, and a stored validation says what the use case said of that id. */
  lemma StoredOnceAndSound(steps: seq<Step>, n: nat)
    requires IsRun(steps) && n <= |steps|
    ensures UniqueIds(Run(steps, n).rows)
    ensures forall i :: 0 <= i < |Run(steps, n).rows| ==> RowSound(Run(steps, n).rows[i], Origins(steps, n))
  {
    RunsKeepInv(steps, n);
  }

  /** Once stored, a validation never changes and is never removed. */
  lemma {:induction false} RowsOnlyGrow(steps: seq<Step>, m: nat, n: nat)
    requires m <= n <= |steps|
    ensures Run(steps, m).rows <= Run(steps, n).rows
  {
    if m < n { RowsOnlyGrow(steps, m, n - 1); }
  }

  lemma FindIsTheOne(rows: seq<Row>, i: nat)
    requires UniqueIds(rows) && i < |rows|
    ensures Find(rows, rows[i].payload.id) == Some(rows[i])
  {
    var r := Find(rows, rows[i].payload.id);
    if r.Some? {
      var k :| 0 <= k < |rows| && rows[k] == r.value;
    }
  }

  /** What is found under an id is found under it ever after. */
  lemma FoundStaysFound(steps: seq<Step>, m: nat, n: nat, id: string)
    requires IsRun(steps) && m <= n <= |steps| && Find(Run(steps, m).rows, id).Some?
    ensures Find(Run(steps, n).rows, id) == Find(Run(steps, m).rows, id)
  {
    var before, after := Run(steps, m).rows, Run(steps, n).rows;
    RowsOnlyGrow(steps, m, n);
    RunsKeepInv(steps, n);
    var row := Find(before, id).value;
    var i :| 0 <= i < |before| && before[i] == row;
    FindIsTheOne(after, i);
  }

  lemma InsertStores(rows: seq<Row>, row: Row)
    ensures Find(Insert(rows, row), row.payload.id).Some?
  {
  }

  lemma RunTakes(steps: seq<Step>, n: nat)
    requires n < |steps|
    ensures Run(steps, n + 1) == Take(Run(steps, n), steps[n])
  {
  }

  lemma RunStep(steps: seq<Step>, n: nat)
    requires IsRun(steps) && n < |steps|
    ensures Enabled(Run(steps, n), steps[n]) && Run(steps, n + 1) == Take(Run(steps, n), steps[n])
  {
  }

  /** Other steps leave a working observer at work. */
  lemma WorkGoesOn(s: System, step: Step, o: nat)
    requires Enabled(s, step) && step != Create(o) && o in s.working
    ensures o in Take(s, step).working && Take(s, step).working[o] == s.working[o]
  {
  }

  lemma ReadStartsWork(s: System, o: nat, m: Message)
    requires m.payload.id != "" && Find(s.rows, m.payload.id).None?
    ensures o in Take(s, Read(o, m)).working && Take(s, Read(o, m)).working[o] == m
  {
  }

  lemma CreateStores(s: System, o: nat)
    requires o in s.working
    ensures Find(Take(s, Create(o)).rows, s.working[o].payload.id).Some?
  {
    var m := s.working[o];
    InsertStores(s.rows, Row(StateFor(m.kind), m.payload, m.response));
  }

  /** An observer about to create its row stores one under its id, if only by finding it stored. */
  lemma {:induction false} WorkEndsStored(steps: seq<Step>, m: nat, k: nat, o: nat, msg: Message)
    requires IsRun(steps) && m <= k < |steps| && steps[k] == Create(o)
    requires o in Run(steps, m).working && Run(steps, m).working[o] == msg
    ensures Find(Run(steps, k + 1).rows, msg.payload.id).Some?
    decreases k - m
  {
    hide Take, Enabled, IsRun, Run;
    RunStep(steps, m);
    if steps[m] == Create(o) {
      CreateStores(Run(steps, m), o);
      FoundStaysFound(steps, m + 1, k + 1, msg.payload.id);
    } else {
      WorkGoesOn(Run(steps, m), steps[m], o);
      WorkEndsStored(steps, m + 1, k, o, msg);
    }
  }

  /** A delivery with an id, once its observer is done, leaves a validation stored whatever happened in between. */
  lemma DeliveryStores(steps: seq<Step>, m: nat, k: nat)
    requires IsRun(steps) && m < k < |steps| && steps[m].Read? && steps[m].message.payload.id != ""
    requires steps[k] == Create(steps[m].observer)
    ensures Find(Run(steps, k + 1).rows, steps[m].message.payload.id).Some?
  {
    hide Take, Enabled, IsRun, Run;
    var id := steps[m].message.payload.id;
    if Find(Run(steps, m).rows, id).Some? {
      FoundStaysFound(steps, m, k + 1, id);
    } else {
      RunStep(steps, m);
      ReadStartsWork(Run(steps, m), steps[m].observer, steps[m].message);
      WorkEndsStored(steps, m + 1, k, steps[m].observer, steps[m].message);
    }
  }

  predicate Publishes(step: Step, m: Message) {
    && step.Publish? && step.event.kind == m.kind && step.event.payload == m.payload
    && Some(step.event.verdict) == m.response
  }

  /** Only the use case asks for a verification: no observer sends a message back to wait. */
  lemma {:induction false} PendingIsEmitted(steps: seq<Step>, n: nat, m: Message)
    requires n <= |steps| && m in Run(steps, n).published && m.kind.Pending?
    ensures exists k :: 0 <= k < n && Publishes(steps[k], m)
  {
    if m in Run(steps, n - 1).published {
      PendingIsEmitted(steps, n - 1, m);
    } else {
      assert Publishes(steps[n - 1], m);
    }
  }

  lemma {:induction false} PublishedStays(steps: seq<Step>, k: nat, n: nat, m: Message)
    requires k <= n <= |steps| && m in Run(steps, k).published
    ensures m in Run(steps, n).published
    decreases n
  {
    if k < n { PublishedStays(steps, k, n - 1, m); }
  }

  /** What a verification makes of a complete message: ready if it is valid and was verified, else an error. */
  function Outcome(m: Message, verified: bool): Message {
    Message(if verified && m.response == Some(VALID) then Ready else Error, m.payload, m.response)
  }

  /** Alone, the two steps of an observer do what its method does. */
  lemma AloneIsInsert(s: System, o: nat, m: Message)
    requires Enabled(s, Read(o, m)) && m.payload.id != ""
    ensures var after := Take(Take(s, Read(o, m)), Create(o));
            && after.rows == Insert(s.rows, Row(if m.kind.Ready? then READY else FAILED, m.payload, m.response))
            && after.working == s.working && after.published == s.published
  {
    if Find(s.rows, m.payload.id).None? {
      assert s.working[o := m] - {o} == s.working;
    }
  }

  lemma VerifyPublishes(s: System, m: Message, verified: bool)
    requires Complete(m)
    ensures Outcome(m, verified) in Take(s, Verify(m, verified)).published
  {
    assert Outcome(m, verified) == Reported(m, verified);
  }

  lemma {:induction false} OutcomeIsPublished(steps: seq<Step>, v: nat, n: nat)
    requires v < n <= |steps| && steps[v].Verify? && Complete(steps[v].message)
    ensures Outcome(steps[v].message, steps[v].verified) in Run(steps, n).published
  {
    VerifyPublishes(Run(steps, v), steps[v].message, steps[v].verified);
    hide *;
    RunTakes(steps, v);
    PublishedStays(steps, v + 1, n, Outcome(steps[v].message, steps[v].verified));
  }

  /** A free observer that reads a message and creates its row leaves one stored, its own if it is the first. */
  lemma ReadThenCreate(s: System, o: nat, m: Message)
    requires Enabled(s, Read(o, m)) && m.payload.id != ""
    ensures var after := Take(Take(s, Read(o, m)), Create(o));
      && Find(after.rows, m.payload.id).Some?
      && (Find(s.rows, m.payload.id).None? ==>
            after.rows == s.rows + [Row(if m.kind.Ready? then READY else FAILED, m.payload, m.response)])
  {
    AloneIsInsert(s, o, m);
    InsertStores(s.rows, Row(StateFor(m.kind), m.payload, m.response));
    hide Take;
  }

  /**
   * Once a complete message was verified, whenever a free observer reads the outcome and creates its row, a validation
   * is stored under its id; and if it is the first for the id, it is this one, in the state of the outcome.
   */
  lemma VerifiedIsStored(steps: seq<Step>, v: nat, n: nat, o: nat)
    requires IsRun(steps) && v < n <= |steps| && steps[v].Verify?
    requires var p := steps[v].message.payload;
      p.id != "" && p.groupId != "" && p.endToEndId != "" && steps[v].message.response.Some?
    requires o !in Run(steps, n).working
    ensures var s, m, verified := Run(steps, n), steps[v].message, steps[v].verified;
      var state := if verified && m.response == Some(VALID) then READY else FAILED;
      && Enabled(s, Read(o, Outcome(m, verified)))
      && var after := Take(Take(s, Read(o, Outcome(m, verified))), Create(o));
         && Find(after.rows, m.payload.id).Some?
         && (Find(s.rows, m.payload.id).None? ==> after.rows == s.rows + [Row(state, m.payload, m.response)])
  {
    OutcomeIsPublished(steps, v, n);
    hide Run, Take, IsRun;
    ReadThenCreate(Run(steps, n), o, Outcome(steps[v].message, steps[v].verified));
  }

  /** The events the use case emits may be published. */
  lemma {:induction false} EmittedMayBePublished(c: Config, st: Store, run: seq<Execution>, n: nat, i: nat, s: System)
    requires n <= |run| && st.events == [] && i < |After(c, st, run, n).events|
    ensures Enabled(s, Publish(After(c, st, run, n).events[i]))
  {
    EventsFollowVerdicts(c, st, run, n);
  }

  lemma {:induction false} RunOfPrefix(steps: seq<Step>, step: Step, n: nat)
    requires n <= |steps|
    ensures Run(steps + [step], n) == Run(steps, n)
  {
    if n > 0 { RunOfPrefix(steps, step, n - 1); }
  }

  lemma Extend(steps: seq<Step>, step: Step)
    requires IsRun(steps) && Enabled(Run(steps, |steps|), step)
    ensures IsRun(steps + [step]) && Run(steps + [step], |steps| + 1) == Take(Run(steps, |steps|), step)
  {
    hide Take, Enabled;
    RunOfPrefix(steps, step, |steps|);
    forall n | 0 <= n < |steps| + 1
      ensures Enabled(Run(steps + [step], n), (steps + [step])[n])
    {
      RunOfPrefix(steps, step, n);
    }
  }

  lemma ExtendTwice(steps: seq<Step>, a: Step, b: Step)
    requires IsRun(steps) && Enabled(Run(steps, |steps|), a) && Enabled(Take(Run(steps, |steps|), a), b)
    ensures IsRun(steps + [a, b]) && Run(steps + [a, b], |steps| + 2) == Take(Take(Run(steps, |steps|), a), b)
  {
    hide *;
    Extend(steps, a);
    Extend(steps + [a], b);
    assert steps + [a] + [b] == steps + [a, b];
  }

  /** A pending credit is verified twice, with either answer. */
  lemma VerifiedTwice(p: Payload)
    requires p.id != "" && p.groupId != "" && p.endToEndId != ""
    ensures var pending := Message(Pending, p, Some(VALID));
      var steps := [Publish(Event(Pending, p, VALID))] + [Verify(pending, true), Verify(pending, false)];
      && IsRun(steps)
      && Run(steps, 3) == System({pending, Message(Ready, p, Some(VALID)), Message(Error, p, Some(VALID))}, map[], [])
  {
    var pending := Message(Pending, p, Some(VALID));
    var publish := Publish(Event(Pending, p, VALID));
    assert Run([], 0) == INITIAL && IsRun([]);
    Extend([], publish);
    assert [] + [publish] == [publish];
    ExtendTwice([publish], Verify(pending, true), Verify(pending, false));
  }

  /** Two observers read different messages of one credit; the first to create its row decides. */
  lemma FirstToCreate(s: System, m: Message, m': Message)
    requires s.working == map[] && s.rows == [] && m in s.published && m' in s.published
    requires !m.kind.Pending? && !m'.kind.Pending? && m.payload == m'.payload && m.payload.id != ""
    ensures var s1 := Take(s, Read(0, m));
      var s2 := Take(s1, Read(1, m'));
      var s3 := Take(s2, Create(0));
      && Enabled(s, Read(0, m)) && Enabled(s1, Read(1, m')) && Enabled(s2, Create(0)) && Enabled(s3, Create(1))
      && Take(s3, Create(1)).rows == [Row(if m.kind.Ready? then READY else FAILED, m.payload, m.response)]
  {
    var row := Row(StateFor(m.kind), m.payload, m.response);
    var s1 := Take(s, Read(0, m));
    assert s1 == s.(working := map[0 := m]);
    var s2 := Take(s1, Read(1, m'));
    assert s2 == s.(working := map[0 := m, 1 := m']);
    var s3 := Take(s2, Create(0));
    assert s3 == s.(working := map[1 := m'], rows := [row]);
  }

  /**
   * The PSP decides between ready and failed, and the first answer counts: a grouped valid credit whose verification
   * is delivered twice, and fails once, is stored as either.
   */
  lemma FirstAnswerCounts(p: Payload, first: bool)
    requires p.id != "" && p.groupId != "" && p.endToEndId != ""
    ensures var pending := Message(Pending, p, Some(VALID));
            var ready, failed := Message(Ready, p, Some(VALID)), Message(Error, p, Some(VALID));
            var steps := [Publish(Event(Pending, p, VALID))] + [Verify(pending, true), Verify(pending, false)]
              + [Read(0, if first then ready else failed), Read(1, if first then failed else ready)]
              + [Create(0), Create(1)];
            IsRun(steps) && Run(steps, 7).rows == [Row(if first then READY else FAILED, p, Some(VALID))]
  {
    var pending := Message(Pending, p, Some(VALID));
    var ready, failed := Message(Ready, p, Some(VALID)), Message(Error, p, Some(VALID));
    var m, m' := if first then ready else failed, if first then failed else ready;
    var steps := [Publish(Event(Pending, p, VALID))] + [Verify(pending, true), Verify(pending, false)];
    VerifiedTwice(p);
    hide *;
    FirstToCreate(Run(steps, 3), m, m');
    ExtendTwice(steps, Read(0, m), Read(1, m'));
    ExtendTwice(steps + [Read(0, m), Read(1, m')], Create(0), Create(1));
  }
}
