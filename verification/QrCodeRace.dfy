/**
 * Executions that present one single-use code at the same time. The expiry check, the look-up of the mark and its
 * writing are separate steps, and nothing keeps those of other executions from coming in between.
 */
module QrCodeRace {
  import opened CreditValidation
  import opened QrCodeStatic
  import opened Wrappers

  /** `Unpaid` is an execution that found no mark and has not written one yet. */
  datatype Phase = Started | InTime | Unpaid | Accepted | TurnedDown

  /** A step and when it happens; the time to live is computed at `now`, some time before the mark is written. */
  datatype Step =
    | Check(execution: nat, at: int)
    | Get(execution: nat, at: int)
    | Put(execution: nat, now: int, at: int)

  datatype State = State(paid: map<string, Mark>, phases: map<nat, Phase>)

  function PhaseOf(s: State, execution: nat): Phase {
    if execution in s.phases then s.phases[execution] else Started
  }

  /** One step; a step out of turn changes nothing. */
  function Next(s: State, txId: string, due: int, step: Step): State {
    match step
    case Check(e, at) =>
      if PhaseOf(s, e).Started? then s.(phases := s.phases[e := if due <= at then TurnedDown else InTime]) else s
    case Get(e, at) =>
      if PhaseOf(s, e).InTime? then s.(phases := s.phases[e := if IsPaid(s.paid, txId, at) then TurnedDown else Unpaid])
      else s
    case Put(e, now, at) =>
      if PhaseOf(s, e).Unpaid? then State(Marked(s.paid, txId, due - now, at), s.phases[e := Accepted]) else s
  }

  /** The first n steps of any executions in any order, on the code `txId` that is due at `due`. */
  function Run(start: map<string, Mark>, txId: string, due: int, steps: seq<Step>, n: nat): State
    requires n <= |steps|
  {
    if n == 0 then State(start, map[]) else Next(Run(start, txId, due, steps, n - 1), txId, due, steps[n - 1])
  }

  /** The clock does not run back, and a mark is written after its time to live was computed. */
  ghost predicate Timed(steps: seq<Step>) {
    && (forall i, j :: 0 <= i < j < |steps| ==> steps[i].at <= steps[j].at)
    && forall i :: 0 <= i < |steps| && steps[i].Put? ==> steps[i].now <= steps[i].at
  }

  /** The n-th step is the look-up of an execution. */
  predicate LooksUp(start: map<string, Mark>, txId: string, due: int, steps: seq<Step>, n: nat, e: nat)
    requires n < |steps|
  {
    steps[n].Get? && steps[n].execution == e && PhaseOf(Run(start, txId, due, steps, n), e).InTime?
  }

  /** The n-th step writes the mark of an execution. */
  predicate Writes(start: map<string, Mark>, txId: string, due: int, steps: seq<Step>, n: nat)
    requires n < |steps|
  {
    steps[n].Put? && PhaseOf(Run(start, txId, due, steps, n), steps[n].execution).Unpaid?
  }

  ghost predicate NoneWrote(start: map<string, Mark>, txId: string, due: int, steps: seq<Step>, n: nat)
    requires n <= |steps|
  {
    forall m :: 0 <= m < n ==> !Writes(start, txId, due, steps, m)
  }

  /** The code is unmarked until a first mark is written, and then marked at least until it is due. */
  ghost predicate MarkHolds(start: map<string, Mark>, txId: string, due: int, steps: seq<Step>, n: nat)
    requires n <= |steps|
  {
    var paid := Run(start, txId, due, steps, n).paid;
    if NoneWrote(start, txId, due, steps, n) then txId !in paid
    else
      (txId in paid && (paid[txId].expires.None? || paid[txId].expires.value >= due))
      || exists m :: 0 <= m < n && steps[m].at >= due
  }

  lemma {:induction false} MarkAlwaysHolds(start: map<string, Mark>, txId: string, due: int, steps: seq<Step>, n: nat)
    requires n <= |steps| && Timed(steps) && txId !in start
    ensures MarkHolds(start, txId, due, steps, n)
  {
    if n > 0 {
      MarkAlwaysHolds(start, txId, due, steps, n - 1);
      NoneWroteStep(start, txId, due, steps, n - 1);
      if Writes(start, txId, due, steps, n - 1) { assert steps[n - 1].now >= due ==> steps[n - 1].at >= due; }
    }
  }

  lemma NoneWroteStep(start: map<string, Mark>, txId: string, due: int, steps: seq<Step>, n: nat)
    requires n < |steps|
    ensures NoneWrote(start, txId, due, steps, n + 1) <==>
      NoneWrote(start, txId, due, steps, n) && !Writes(start, txId, due, steps, n)
  {
  }

  /** A look-up before the due date finds no mark exactly if none was written before it. */
  lemma LookUpExactly(start: map<string, Mark>, txId: string, due: int, steps: seq<Step>, n: nat, e: nat)
    requires n < |steps| && Timed(steps) && txId !in start
    requires LooksUp(start, txId, due, steps, n, e) && steps[n].at < due
    ensures PhaseOf(Run(start, txId, due, steps, n + 1), e).Unpaid? <==> NoneWrote(start, txId, due, steps, n)
  {
    MarkAlwaysHolds(start, txId, due, steps, n);
  }

  /** No execution passes the due date between its check and its look-up. */
  ghost predicate NoneStraddles(start: map<string, Mark>, txId: string, due: int, steps: seq<Step>) {
    forall n, e :: 0 <= n < |steps| && LooksUp(start, txId, due, steps, n, e) ==> steps[n].at < due
  }

  /** The code is or will be accepted. */
  predicate Passes(s: State, e: nat) {
    PhaseOf(s, e).Unpaid? || PhaseOf(s, e).Accepted?
  }

  ghost predicate LookedUpFirst(start: map<string, Mark>, txId: string, due: int, steps: seq<Step>, n: nat, e: nat)
    requires n <= |steps|
  {
    exists m :: 0 <= m < n && LooksUp(start, txId, due, steps, m, e) && NoneWrote(start, txId, due, steps, m)
  }

  /** Exactly the executions that look up before the first mark is written accept the code. */
  lemma {:induction false} PassesExactly(start: map<string, Mark>, txId: string, due: int, steps: seq<Step>, n: nat,
                                         e: nat)
    requires n <= |steps| && Timed(steps) && txId !in start && NoneStraddles(start, txId, due, steps)
    ensures Passes(Run(start, txId, due, steps, n), e) <==> LookedUpFirst(start, txId, due, steps, n, e)
  {
    if n > 0 {
      PassesExactly(start, txId, due, steps, n - 1, e);
      if LooksUp(start, txId, due, steps, n - 1, e) { LookUpExactly(start, txId, due, steps, n - 1, e); }
    }
  }

  predicate BothPass(s: State, e: nat, f: nat) {
    Passes(s, e) && Passes(s, f)
  }

  ghost predicate BothFirst(start: map<string, Mark>, txId: string, due: int, steps: seq<Step>, n: nat, e: nat, f: nat)
    requires n <= |steps|
  {
    LookedUpFirst(start, txId, due, steps, n, e) && LookedUpFirst(start, txId, due, steps, n, f)
  }

  lemma BothExactly(start: map<string, Mark>, txId: string, due: int, steps: seq<Step>, n: nat, e: nat, f: nat)
    requires n <= |steps| && Timed(steps) && txId !in start && NoneStraddles(start, txId, due, steps)
    ensures BothPass(Run(start, txId, due, steps, n), e, f) <==> BothFirst(start, txId, due, steps, n, e, f)
  {
    hide Run, Passes, LookedUpFirst, NoneStraddles, Timed;
    PassesExactly(start, txId, due, steps, n, e);
    PassesExactly(start, txId, due, steps, n, f);
  }

  /** So a code is accepted more than once exactly if two executions look up before the first mark is written. */
  lemma TwiceExactly(start: map<string, Mark>, txId: string, due: int, steps: seq<Step>, n: nat)
    requires n <= |steps| && Timed(steps) && txId !in start && NoneStraddles(start, txId, due, steps)
    ensures (exists e: nat, f: nat :: e != f && BothPass(Run(start, txId, due, steps, n), e, f)) <==>
      (exists e: nat, f: nat :: e != f && BothFirst(start, txId, due, steps, n, e, f))
  {
    hide Run, BothPass, BothFirst, NoneStraddles, Timed;
    if e: nat, f: nat :| e != f && BothPass(Run(start, txId, due, steps, n), e, f) {
      BothExactly(start, txId, due, steps, n, e, f);
    }
    if e: nat, f: nat :| e != f && BothFirst(start, txId, due, steps, n, e, f) {
      BothExactly(start, txId, due, steps, n, e, f);
    }
  }

  /** Two executions at once do accept one code, at any moment before it is due. */
  lemma RaceAcceptsTwice(start: map<string, Mark>, txId: string, due: int, t: int)
    requires txId !in start && t < due
    ensures var steps := [Check(0, t), Check(1, t), Get(0, t), Get(1, t), Put(0, t, t), Put(1, t, t)];
      && Timed(steps)
      && PhaseOf(Run(start, txId, due, steps, 6), 0).Accepted?
      && PhaseOf(Run(start, txId, due, steps, 6), 1).Accepted?
  {
    var steps := [Check(0, t), Check(1, t), Get(0, t), Get(1, t), Put(0, t, t), Put(1, t, t)];
    var s0 := State(start, map[]);
    assert Run(start, txId, due, steps, 0) == s0;
    var s1 := Next(s0, txId, due, steps[0]);
    assert s1 == State(start, map[0 := InTime]) == Run(start, txId, due, steps, 1);
    var s2 := Next(s1, txId, due, steps[1]);
    assert s2 == State(start, map[0 := InTime, 1 := InTime]) == Run(start, txId, due, steps, 2);
    var s3 := Next(s2, txId, due, steps[2]);
    assert s3 == State(start, map[0 := Unpaid, 1 := InTime]) == Run(start, txId, due, steps, 3);
    var s4 := Next(s3, txId, due, steps[3]);
    assert s4 == State(start, map[0 := Unpaid, 1 := Unpaid]) == Run(start, txId, due, steps, 4);
    var s5 := Next(s4, txId, due, steps[4]);
    assert s5.phases == map[0 := Accepted, 1 := Unpaid] && s5 == Run(start, txId, due, steps, 5);
    assert Next(s5, txId, due, steps[5]) == Run(start, txId, due, steps, 6);
  }

  /** The three steps of one execution. */
  function OneExecution(s: State, txId: string, due: int, e: nat, t: Times): State {
    Next(Next(Next(s, txId, due, Check(e, t.check)), txId, due, Get(e, t.get)), txId, due, Put(e, t.now, t.put))
  }

  /** With nothing in between they do what an execution does. */
  lemma AloneIsExecution(c: Config, st: Store, x: Execution, txId: string, due: int, phases: map<nat, Phase>, e: nat)
    requires SingleUse(c, txId, due) && Presents(c, x, txId) && e !in phases
    ensures var s := OneExecution(State(st.paid, phases), txId, due, e, x.times);
      && s.paid == CreditValidation.Next(c, st, x).paid
      && PhaseOf(s, e) == (if Decision(c, st, x) == Some(VALID) then Accepted else TurnedDown)
  {
    DueDateDecision(c, st, x, txId, due);
  }
}
