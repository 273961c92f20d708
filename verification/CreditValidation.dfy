/**
 * The decision on an incoming credit, with its two caches: the verdicts given for an account, kept for ten minutes, and
 * the marks of single-use QR codes that were paid.
 */
module CreditValidation {
  import opened DoubleHex
  import opened QrCodeStatic
  import opened Wrappers

  const VERDICT_TTL := 600000
  const TX_ID_MAX_LENGTH := 25

  datatype ErrorCode = DS04 | AG03 | BE17 | AC03 | ED05 | BE01 | AC07 | AM09

  datatype Verdict = VALID | INVALID(devolutionCode: ErrorCode)

  /** The fields a verdict depends on or an event is routed by; an empty string stands for a missing one. */
  datatype Payload = Payload(
    id: string,
    groupId: string,
    endToEndId: string,
    clientIspb: string,
    clientAccountNumber: string,
    clientDocument: string,
    clientAccountType: string,
    clientConciliationId: string,
    originalEndToEndId: string,
    amount: int)

  datatype User = User(document: string, active: bool)

  /** What the user and payment services answer during one execution. */
  datatype Services = Services(
    onboarding: string -> Option<nat>,
    user: nat -> Option<User>,
    paymentValue: string -> Option<int>)

  /** When an execution checks the due date, reads a cache, computes the time to live and writes a cache. */
  datatype Times = Times(check: int, get: int, now: int, put: int) {
    predicate Ordered() {
      check <= get <= now <= put
    }
  }

  datatype Execution = Execution(payload: Payload, services: Services, times: Times)

  /** `instant` reads YYYYMMDDHHmmss digits as a moment, unless they are no date. */
  datatype Config = Config(ispb: string, instant: int -> Option<int>)

  datatype Kind = Pending | Ready | Error

  datatype Event = Event(kind: Kind, payload: Payload, verdict: Verdict)

  /** An entry is visible before it expires; a mark without a time stays. */
  datatype CachedVerdict = CachedVerdict(verdict: Verdict, expires: int)
  datatype Mark = Mark(expires: Option<int>)

  datatype Store = Store(verdicts: map<string, CachedVerdict>, paid: map<string, Mark>, events: seq<Event>)

  // ----- The decision -----

  datatype Route = Refused(code: ErrorCode) | DueDate(txId: string) | Account

  function RouteOf(c: Config, p: Payload): Route {
    if p.clientIspb == "" || p.clientIspb != c.ispb || p.clientAccountNumber == "" || p.clientDocument == ""
    then Refused(DS04)
    else if p.clientAccountType != "CACC" then Refused(AG03)
    else
      var txId := p.clientConciliationId;
      if !IsFastFormat(txId) then Account
      else if !CheckTxId(txId) || (HasValue(txId) && GetValue(txId) != p.amount) then Refused(BE17)
      else if HasDueDate(txId) then DueDate(txId)
      else Account
  }

  /** What the services say about the client and the payment that is given back. */
  function Assess(p: Payload, s: Services): Verdict {
    var onboarding := s.onboarding(p.clientAccountNumber);
    if onboarding.None? then INVALID(AC03)
    else
      var user := s.user(onboarding.value);
      if user.None? then INVALID(ED05)
      else if user.value.document != p.clientDocument then INVALID(BE01)
      else if !user.value.active then INVALID(AC07)
      else if p.originalEndToEndId == "" then VALID
      else
        var original := s.paymentValue(p.originalEndToEndId);
        if original.None? then INVALID(ED05)
        else if p.amount > original.value then INVALID(AM09)
        else VALID
  }

  predicate Remembers(verdicts: map<string, CachedVerdict>, account: string, t: int) {
    account in verdicts && t < verdicts[account].expires
  }

  predicate IsPaid(paid: map<string, Mark>, txId: string, t: int) {
    txId in paid && (paid[txId].expires.None? || t < paid[txId].expires.value)
  }

  predicate IsExpired(c: Config, txId: string, t: int) {
    var due := c.instant(GetDueDate(txId));
    due.Some? && due.value <= t
  }

  /** The cache model refuses long ids and dates that are none. */
  predicate CanBeMarked(c: Config, txId: string) {
    |txId| <= TX_ID_MAX_LENGTH && c.instant(GetDueDate(txId)).Some?
  }

  /** A command with a negative time to live is refused; without one the entry stays. */
  function Marked(paid: map<string, Mark>, txId: string, ttl: int, t: int): map<string, Mark> {
    if ttl < 0 then paid else paid[txId := Mark(if ttl == 0 then None else Some(t + ttl))]
  }

  /** The verdict of an execution, none if it fails before giving one. */
  function Decision(c: Config, st: Store, x: Execution): Option<Verdict> {
    match RouteOf(c, x.payload)
    case Refused(code) => Some(INVALID(code))
    case DueDate(txId) =>
      if IsExpired(c, txId, x.times.check) then Some(INVALID(BE17))
      else if IsFastFormat(txId) && IsPayableManyTimes(txId) then Some(VALID)
      else if IsPaid(st.paid, txId, x.times.get) then Some(INVALID(BE17))
      else if !CanBeMarked(c, txId) then None
      else Some(VALID)
    case Account =>
      if Remembers(st.verdicts, x.payload.clientAccountNumber, x.times.get)
      then Some(st.verdicts[x.payload.clientAccountNumber].verdict)
      else Some(Assess(x.payload, x.services))
  }

  function KindOf(p: Payload, v: Verdict): Kind {
    if p.groupId != "" then Pending else if v.VALID? then Ready else Error
  }

  function Told(events: seq<Event>, p: Payload, v: Verdict): seq<Event> {
    events + [Event(KindOf(p, v), p, v)]
  }

  /** The caches and the events after an execution. */
  function Next(c: Config, st: Store, x: Execution): Store {
    var d, route := Decision(c, st, x), RouteOf(c, x.payload);
    var account := x.payload.clientAccountNumber;
    Store(
      if route.Account? && !Remembers(st.verdicts, account, x.times.get)
      then st.verdicts[account := CachedVerdict(Assess(x.payload, x.services), x.times.put + VERDICT_TTL)]
      else st.verdicts,
      if route.DueDate? && !(IsFastFormat(route.txId) && IsPayableManyTimes(route.txId)) && d == Some(VALID)
         && CanBeMarked(c, route.txId)
      then Marked(st.paid, route.txId, c.instant(GetDueDate(route.txId)).value - x.times.now, x.times.put) else st.paid,
      if d.Some? then Told(st.events, x.payload, d.value) else st.events)
  }

  // ----- What the decision comes to -----

  /** The client is not ours or not told. */
  predicate ClientMissing(c: Config, p: Payload) {
    p.clientIspb == "" || p.clientIspb != c.ispb || p.clientAccountNumber == "" || p.clientDocument == ""
  }

  /** The payload brings the id of a QR code in the fast format. */
  predicate BringsCode(p: Payload) {
    p.clientConciliationId != "" && 'S' <= p.clientConciliationId[0] <= 'Z'
  }

  lemma FastFormatLetters(txId: string)
    ensures IsFastFormat(txId) <==> txId != "" && 'S' <= txId[0] <= 'Z'
  {
  }

  /** The code fails its check, or is of another amount. */
  predicate BadCode(p: Payload)
    requires BringsCode(p)
  {
    var txId := p.clientConciliationId;
    FastFormatLetters(txId);
    !CheckTxId(txId) || (HasValue(txId) && GetValue(txId) != p.amount)
  }

  predicate GoodClient(c: Config, p: Payload) {
    !ClientMissing(c, p) && p.clientAccountType == "CACC"
  }

  predicate HasGoodCodeWithDueDate(p: Payload) {
    && BringsCode(p) && !BadCode(p)
    && (FastFormatLetters(p.clientConciliationId); HasDueDate(p.clientConciliationId))
  }

  /** Which way every payload goes. */
  lemma RouteExactly(c: Config, p: Payload)
    ensures RouteOf(c, p) == Refused(DS04) <==> ClientMissing(c, p)
    ensures RouteOf(c, p) == Refused(AG03) <==> !ClientMissing(c, p) && p.clientAccountType != "CACC"
    ensures RouteOf(c, p) == Refused(BE17) <==> GoodClient(c, p) && BringsCode(p) && BadCode(p)
    ensures RouteOf(c, p) == DueDate(p.clientConciliationId) <==> GoodClient(c, p) && HasGoodCodeWithDueDate(p)
    ensures RouteOf(c, p).Account? <==>
      GoodClient(c, p) && (BringsCode(p) ==> !BadCode(p)) && !HasGoodCodeWithDueDate(p)
    ensures RouteOf(c, p).DueDate? ==> RouteOf(c, p).txId == p.clientConciliationId
  {
    FastFormatLetters(p.clientConciliationId);
  }

  /** Verdicts of the services, which is what the cache holds. */
  ghost predicate CachesAssessments(verdicts: map<string, CachedVerdict>) {
    forall a :: a in verdicts && verdicts[a].verdict.INVALID? ==>
      verdicts[a].verdict.devolutionCode !in {DS04, AG03, BE17}
  }

  lemma CacheHoldsAssessments(c: Config, st: Store, x: Execution)
    requires CachesAssessments(st.verdicts)
    ensures CachesAssessments(Next(c, st, x).verdicts)
  {
  }

  lemma {:induction false} RunCachesAssessments(c: Config, st: Store, run: seq<Execution>, n: nat)
    requires n <= |run| && CachesAssessments(st.verdicts)
    ensures CachesAssessments(After(c, st, run, n).verdicts)
  {
    if n > 0 {
      RunCachesAssessments(c, st, run, n - 1);
      CacheHoldsAssessments(c, After(c, st, run, n - 1), run[n - 1]);
    }
  }

  /** What is refused before any service is asked, and with which code; nothing of it is ever accepted. */
  lemma RefusalsExactly(c: Config, st: Store, x: Execution)
    requires CachesAssessments(st.verdicts)
    ensures var d, p := Decision(c, st, x), x.payload;
      && (d == Some(INVALID(DS04)) <==> ClientMissing(c, p))
      && (d == Some(INVALID(AG03)) <==> !ClientMissing(c, p) && p.clientAccountType != "CACC")
      && (GoodClient(c, p) && BringsCode(p) && BadCode(p) ==> d == Some(INVALID(BE17)))
      && (d == Some(INVALID(BE17)) ==> GoodClient(c, p) && BringsCode(p) && (BadCode(p) || HasGoodCodeWithDueDate(p)))
      && (d == Some(VALID) ==> GoodClient(c, p) && (BringsCode(p) ==> !BadCode(p)))
  {
    RouteExactly(c, x.payload);
    hide RouteOf;
  }

  /** The code of a payment of another amount is refused, one of its own amount is not for that. */
  lemma OtherAmountIsRefused(c: Config, st: Store, x: Execution, q: QrCode, r: Randomness)
    requires r.Valid() && (q.expirationDate.Some? ==> NineLetterDate(q.expirationDate.value))
    requires 0 < q.documentValue < Pow32(VALUE_DHEX_SIZE) && CreateTxId(q, r).Ok?
    requires GoodClient(c, x.payload) && x.payload.clientConciliationId == CreateTxId(q, r).value
    ensures BringsCode(x.payload) && (BadCode(x.payload) <==> x.payload.amount != q.documentValue)
    ensures x.payload.amount != q.documentValue ==> Decision(c, st, x) == Some(INVALID(BE17))
  {
    UsualWidths(q);
    CreatedTxIdIsValid(q, r);
    ValueRoundTrip(q, r);
    FastFormatLetters(x.payload.clientConciliationId);
    RouteExactly(c, x.payload);
    hide RouteOf, CreateTxId, CheckTxId, GetValue, HasValue;
  }

  /** What a due date, its mark and its flags decide, and what is written for it. */
  lemma DueDateExactly(c: Config, st: Store, x: Execution)
    requires GoodClient(c, x.payload) && HasGoodCodeWithDueDate(x.payload)
    ensures var txId, t, paid := x.payload.clientConciliationId, x.times, st.paid;
      var due, d, paid' := c.instant(GetDueDate(txId)), Decision(c, st, x), Next(c, st, x).paid;
      var expired := due.Some? && due.value <= t.check;
      var marked := txId in paid && (paid[txId].expires.None? || t.get < paid[txId].expires.value);
      IsFastFormat(txId) &&
      var many := IsPayableManyTimes(txId);
      && (d == Some(INVALID(BE17)) <==> expired || (!many && marked))
      && (d == None <==> !expired && !many && !marked && (|txId| > 25 || due.None?))
      && (d == Some(VALID) <==> !expired && (many || (!marked && |txId| <= 25 && due.Some?)))
      && (many || d != Some(VALID) ==> paid' == paid)
      && (!many && d == Some(VALID) ==>
            var ttl := due.value - t.now;
            && (ttl > 0 ==> paid' == paid[txId := Mark(Some(t.put + ttl))])
            && (ttl == 0 ==> paid' == paid[txId := Mark(None)])
            && (ttl < 0 ==> paid' == paid))
      && Next(c, st, x).verdicts == st.verdicts
  {
    FastFormatLetters(x.payload.clientConciliationId);
    RouteExactly(c, x.payload);
    hide RouteOf;
  }

  /** An execution without a verdict leaves no trace. */
  lemma NoVerdictNoTrace(c: Config, st: Store, x: Execution)
    requires Decision(c, st, x).None?
    ensures Next(c, st, x) == st
  {
  }

  /** What the services must say for each verdict. */
  lemma AssessExactly(p: Payload, s: Services)
    ensures var known := s.onboarding(p.clientAccountNumber);
      var holder := if known.Some? then s.user(known.value) else None;
      var fits := holder.Some? && holder.value.document == p.clientDocument;
      var good := fits && holder.value.active;
      var original := s.paymentValue(p.originalEndToEndId);
      && (Assess(p, s) == INVALID(AC03) <==> known.None?)
      && (Assess(p, s) == INVALID(BE01) <==> holder.Some? && !fits)
      && (Assess(p, s) == INVALID(AC07) <==> fits && !good)
      && (Assess(p, s) == INVALID(ED05) <==>
            (known.Some? && holder.None?) || (good && p.originalEndToEndId != "" && original.None?))
      && (Assess(p, s) == INVALID(AM09) <==>
            good && p.originalEndToEndId != "" && original.Some? && p.amount > original.value)
      && (Assess(p, s) == VALID <==>
            good && (p.originalEndToEndId == "" || (original.Some? && p.amount <= original.value)))
  {
  }

  // ----- The use case -----

  class CreateNotifyCreditValidation {
    const config: Config
    var verdicts: map<string, CachedVerdict>
    var paid: map<string, Mark>
    var events: seq<Event>

    constructor (config: Config)
      ensures this.config == config && State() == Store(map[], map[], [])
    {
      this.config := config;
      verdicts, paid, events := map[], map[], [];
    }

    function State(): Store
      reads this
    {
      Store(verdicts, paid, events)
    }

    /** One execution, with the moments its steps happen at. */
    method Execute(x: Execution) returns (verdict: Option<Verdict>)
      modifies this
      ensures verdict == Decision(config, old(State()), x)
      ensures State() == Next(config, old(State()), x)
    {
      var p := x.payload;
      if p.clientIspb == "" || p.clientIspb != config.ispb || p.clientAccountNumber == "" || p.clientDocument == "" {
        verdict := HandleInvalidCredit(p, DS04, None, x.times); return;
      }
      if p.clientAccountType != "CACC" { verdict := HandleInvalidCredit(p, AG03, None, x.times); return; }
      if p.clientConciliationId != "" {
        var txId := p.clientConciliationId;
        if IsFastFormat(txId) {
          if !CheckTxId(txId) { verdict := HandleInvalidCredit(p, BE17, None, x.times); return; }
          if HasValue(txId) {
            var documentValue := GetValue(txId);
            if documentValue != p.amount { verdict := HandleInvalidCredit(p, BE17, None, x.times); return; }
          }
          if HasDueDate(txId) { verdict := CheckQrCodeStaticWithDueDate(txId, x); return; }
        }
      }
      verdict := CheckAccount(x);
    }

    /** The rest of an execution: the verdict cache and the services behind it. */
    method CheckAccount(x: Execution) returns (verdict: Option<Verdict>)
      requires RouteOf(config, x.payload) == Account
      modifies this
      ensures verdict == Decision(config, old(State()), x)
      ensures State() == Next(config, old(State()), x)
    {
      var p, s, hash := x.payload, x.services, x.payload.clientAccountNumber;
      if Remembers(verdicts, hash, x.times.get) {
        var response := verdicts[hash].verdict;
        if response.VALID? { verdict := HandleValidCredit(p, None, x.times); }
        else { verdict := HandleInvalidCredit(p, response.devolutionCode, None, x.times); }
        return;
      }
      var onboarding := s.onboarding(p.clientAccountNumber);
      if onboarding.None? { verdict := HandleInvalidCredit(p, AC03, Some(hash), x.times); return; }
      var user := s.user(onboarding.value);
      if user.None? { verdict := HandleInvalidCredit(p, ED05, Some(hash), x.times); return; }
      if user.value.document != p.clientDocument {
        verdict := HandleInvalidCredit(p, BE01, Some(hash), x.times); return;
      }
      if !user.value.active { verdict := HandleInvalidCredit(p, AC07, Some(hash), x.times); return; }
      if p.originalEndToEndId != "" {
        var original := s.paymentValue(p.originalEndToEndId);
        if original.None? { verdict := HandleInvalidCredit(p, ED05, Some(hash), x.times); return; }
        if p.amount > original.value { verdict := HandleInvalidCredit(p, AM09, Some(hash), x.times); return; }
      }
      verdict := HandleValidCredit(p, Some(hash), x.times);
    }

    method HandleValidCredit(p: Payload, hash: Option<string>, t: Times) returns (verdict: Option<Verdict>)
      modifies this`verdicts, this`events
      ensures verdict == Some(VALID) && events == Told(old(events), p, VALID)
      ensures verdicts ==
        if hash.Some? then old(verdicts)[hash.value := CachedVerdict(VALID, t.put + VERDICT_TTL)]
        else old(verdicts)
    {
      if hash.Some? { verdicts := verdicts[hash.value := CachedVerdict(VALID, t.put + VERDICT_TTL)]; }
      events := events + [Event(if p.groupId != "" then Pending else Ready, p, VALID)];
      verdict := Some(VALID);
    }

    method HandleInvalidCredit(p: Payload, code: ErrorCode, hash: Option<string>, t: Times)
      returns (verdict: Option<Verdict>)
      modifies this`verdicts, this`events
      ensures verdict == Some(INVALID(code)) && events == Told(old(events), p, INVALID(code))
      ensures verdicts ==
        if hash.Some? then old(verdicts)[hash.value := CachedVerdict(INVALID(code), t.put + VERDICT_TTL)]
        else old(verdicts)
    {
      if hash.Some? { verdicts := verdicts[hash.value := CachedVerdict(INVALID(code), t.put + VERDICT_TTL)]; }
      events := events + [Event(if p.groupId != "" then Pending else Error, p, INVALID(code))];
      verdict := Some(INVALID(code));
    }

    method CheckQrCodeStaticWithDueDate(txId: string, x: Execution) returns (verdict: Option<Verdict>)
      requires RouteOf(config, x.payload) == DueDate(txId)
      modifies this
      ensures verdict == Decision(config, old(State()), x)
      ensures State() == Next(config, old(State()), x)
    {
      var expirationDate := config.instant(GetDueDate(txId));
      if expirationDate.Some? && expirationDate.value <= x.times.check {
        verdict := HandleInvalidCredit(x.payload, BE17, None, x.times); return;
      }
      if IsPayableManyTimes(txId) { verdict := HandleValidCredit(x.payload, None, x.times); return; }
      if IsPaid(paid, txId, x.times.get) { verdict := HandleInvalidCredit(x.payload, BE17, None, x.times); return; }
      if |txId| > TX_ID_MAX_LENGTH || expirationDate.None? { return None; }
      var ttl := expirationDate.value - x.times.now;
      if ttl > 0 { paid := paid[txId := Mark(Some(x.times.put + ttl))]; }
      else if ttl == 0 { paid := paid[txId := Mark(None)]; }
      verdict := HandleValidCredit(x.payload, None, x.times);
    }
  }

  // ----- Runs -----

  /** The caches after the first n executions, one after the other. */
  function After(c: Config, st: Store, run: seq<Execution>, n: nat): Store
    requires n <= |run|
  {
    if n == 0 then st else Next(c, After(c, st, run, n - 1), run[n - 1])
  }

  function Answer(c: Config, st: Store, run: seq<Execution>, i: nat): Option<Verdict>
    requires i < |run|
  {
    Decision(c, After(c, st, run, i), run[i])
  }

  ghost predicate Serial(run: seq<Execution>) {
    && (forall i :: 0 <= i < |run| ==> run[i].times.Ordered())
    && forall i, j :: 0 <= i < j < |run| ==> run[i].times.put <= run[j].times.check
  }

  // ----- Single-use codes -----

  /** A code that can be paid once, until its due date. */
  ghost predicate SingleUse(c: Config, txId: string, due: int) {
    && IsFastFormat(txId) && CheckTxId(txId) && HasDueDate(txId) && !IsPayableManyTimes(txId)
    && |txId| <= TX_ID_MAX_LENGTH && c.instant(GetDueDate(txId)) == Some(due)
  }

  predicate Presents(c: Config, x: Execution, txId: string) {
    RouteOf(c, x.payload) == DueDate(txId)
  }

  predicate Pays(c: Config, st: Store, run: seq<Execution>, txId: string, i: nat)
    requires i < |run|
  {
    Presents(c, run[i], txId) && Answer(c, st, run, i) == Some(VALID)
  }

  /** Until when the mark an execution leaves is visible: the due date, plus the time the write took. */
  function MarkEnd(x: Execution, due: int): int {
    x.times.put + (due - x.times.now)
  }

  /** The payments among the first n executions. */
  function Payments(c: Config, st: Store, run: seq<Execution>, txId: string, n: nat): (r: set<nat>)
    requires n <= |run|
    ensures forall j :: j in r ==> j < n
  {
    if n == 0 then {}
    else Payments(c, st, run, txId, n - 1) + (if Pays(c, st, run, txId, n - 1) then {n - 1} else {})
  }

  lemma {:induction false} PaymentsAre(c: Config, st: Store, run: seq<Execution>, txId: string, n: nat, j: nat)
    requires n <= |run|
    ensures j in Payments(c, st, run, txId, n) <==> j < n && Pays(c, st, run, txId, j)
  {
    hide Decision, Next, RouteOf;
    if 0 < n && j != n - 1 { PaymentsAre(c, st, run, txId, n - 1, j); }
  }

  /** The code is unmarked until it is paid; then its mark stands, unless a payment came too late to leave one. */
  ghost predicate MarkFollows(paid: map<string, Mark>, run: seq<Execution>, payments: set<nat>, txId: string, due: int)
    requires forall j :: j in payments ==> j < |run|
  {
    && (payments == {} ==> txId !in paid)
    && ((exists j :: j in payments && run[j].times.now >= due)
        || forall j :: j in payments ==> txId in paid && paid[txId] == Mark(Some(MarkEnd(run[j], due))))
  }

  /** What the marks say about the next execution that presents the code. */
  lemma MarkDecides(paid: map<string, Mark>, run: seq<Execution>, payments: set<nat>, txId: string, due: int, n: nat)
    requires Serial(run) && n < |run| && forall j :: j in payments ==> j < n
    requires MarkFollows(paid, run, payments, txId, due)
    ensures run[n].times.check < due && !IsPaid(paid, txId, run[n].times.get) <==>
      run[n].times.check < due && forall j :: j in payments ==> run[n].times.get >= MarkEnd(run[j], due)
  {
    if j :| j in payments && run[j].times.now >= due {
      assert run[j].times.put <= run[n].times.check;
    } else if j :| j in payments {
      assert paid[txId] == Mark(Some(MarkEnd(run[j], due)));
    }
  }

  /** A payment leaves its mark, or comes too late to. */
  lemma MarkAfterPayment(paid: map<string, Mark>, run: seq<Execution>, payments: set<nat>, txId: string, due: int,
                         n: nat)
    requires Serial(run) && n < |run| && forall j :: j in payments ==> j < n
    requires MarkFollows(paid, run, payments, txId, due)
    requires forall j :: j in payments ==> run[n].times.get >= MarkEnd(run[j], due)
    ensures MarkFollows(Marked(paid, txId, due - run[n].times.now, run[n].times.put), run, payments + {n}, txId, due)
  {
    assert n in payments + {n};
    if j :| j in payments {
      assert run[j].times.Ordered();
      assert run[n].times.now >= due;
    }
  }

  /** Two sets of entries agree on one code. */
  ghost predicate SameMark(a: map<string, Mark>, b: map<string, Mark>, txId: string) {
    (txId in a <==> txId in b) && (txId in a ==> a[txId] == b[txId])
  }

  lemma DueDateDecision(c: Config, st: Store, x: Execution, txId: string, due: int)
    requires SingleUse(c, txId, due) && Presents(c, x, txId)
    ensures Decision(c, st, x) == Some(VALID) <==> x.times.check < due && !IsPaid(st.paid, txId, x.times.get)
    ensures Next(c, st, x).paid ==
      if Decision(c, st, x) == Some(VALID) then Marked(st.paid, txId, due - x.times.now, x.times.put) else st.paid
  {
  }

  lemma OthersLeaveMark(c: Config, st: Store, x: Execution, txId: string)
    requires !Presents(c, x, txId)
    ensures SameMark(st.paid, Next(c, st, x).paid, txId)
  {
  }

  lemma MarkStep(c: Config, before: Store, run: seq<Execution>, payments: set<nat>, txId: string, due: int, n: nat)
    requires SingleUse(c, txId, due) && Serial(run) && n < |run| && forall j :: j in payments ==> j < n
    requires MarkFollows(before.paid, run, payments, txId, due)
    ensures Presents(c, run[n], txId) && Decision(c, before, run[n]) == Some(VALID) ==>
      MarkFollows(Next(c, before, run[n]).paid, run, payments + {n}, txId, due)
    ensures !(Presents(c, run[n], txId) && Decision(c, before, run[n]) == Some(VALID)) ==>
      MarkFollows(Next(c, before, run[n]).paid, run, payments, txId, due)
  {
    if Presents(c, run[n], txId) {
      DueDateDecision(c, before, run[n], txId, due);
      if Decision(c, before, run[n]) == Some(VALID) {
        MarkDecides(before.paid, run, payments, txId, due, n);
        MarkAfterPayment(before.paid, run, payments, txId, due, n);
      }
    } else {
      OthersLeaveMark(c, before, run[n], txId);
    }
  }

  lemma {:induction false} MarkAlwaysFollows(c: Config, st: Store, run: seq<Execution>, txId: string, due: int, n: nat)
    requires SingleUse(c, txId, due) && Serial(run) && n <= |run| && txId !in st.paid
    ensures MarkFollows(After(c, st, run, n).paid, run, Payments(c, st, run, txId, n), txId, due)
  {
    hide IsFastFormat, CheckTxId, RouteOf;
    if n > 0 {
      var payments := Payments(c, st, run, txId, n - 1);
      MarkAlwaysFollows(c, st, run, txId, due, n - 1);
      MarkStep(c, After(c, st, run, n - 1), run, payments, txId, due, n - 1);
      assert payments + {} == payments;
    }
  }

  /**
   * Exactly when an execution that presents a single-use code accepts it: its expiry check comes before the due date,
   * and its lookup comes after the end of the mark of every payment before it.
   */
  lemma SingleUseExactly(c: Config, st: Store, run: seq<Execution>, txId: string, due: int, n: nat)
    requires SingleUse(c, txId, due) && Serial(run) && n < |run| && txId !in st.paid
    requires Presents(c, run[n], txId)
    ensures Pays(c, st, run, txId, n) <==>
      && run[n].times.check < due
      && forall j :: 0 <= j < n && Pays(c, st, run, txId, j) ==> run[n].times.get >= MarkEnd(run[j], due)
  {
    var before, payments := After(c, st, run, n), Payments(c, st, run, txId, n);
    MarkAlwaysFollows(c, st, run, txId, due, n);
    DueDateDecision(c, before, run[n], txId, due);
    MarkDecides(before.paid, run, payments, txId, due, n);
    forall j: nat
      ensures j in payments <==> j < n && Pays(c, st, run, txId, j)
    {
      PaymentsAre(c, st, run, txId, n, j);
    }
  }

  /** An execution straddles the due date if the clock passes it between the expiry check and the lookup. */
  predicate Straddles(x: Execution, due: int) {
    x.times.check < due <= x.times.get
  }

  /** A second payment straddles the due date. */
  lemma SecondPaymentStraddles(c: Config, st: Store, run: seq<Execution>, txId: string, due: int, i: nat, j: nat)
    requires SingleUse(c, txId, due) && Serial(run) && txId !in st.paid && i < j < |run|
    requires Pays(c, st, run, txId, i) && Pays(c, st, run, txId, j)
    ensures Straddles(run[j], due)
  {
    SingleUseExactly(c, st, run, txId, due, j);
  }

  /** Where no execution straddles the due date, a single-use code is paid at most once, ever. */
  lemma PaidAtMostOnce(c: Config, st: Store, run: seq<Execution>, txId: string, due: int)
    requires SingleUse(c, txId, due) && Serial(run) && txId !in st.paid
    requires forall j :: 0 <= j < |run| && Presents(c, run[j], txId) ==> !Straddles(run[j], due)
    ensures forall i, j :: 0 <= i < j < |run| ==> !(Pays(c, st, run, txId, i) && Pays(c, st, run, txId, j))
  {
    forall i: nat, j: nat | i < j < |run| && Pays(c, st, run, txId, i) && Pays(c, st, run, txId, j)
      ensures false
    {
      SecondPaymentStraddles(c, st, run, txId, due, i, j);
    }
  }

  /** Whatever the clock does, no single-use code is paid a third time. */
  lemma NeverPaidThrice(c: Config, st: Store, run: seq<Execution>, txId: string, due: int, i: nat, j: nat, k: nat)
    requires SingleUse(c, txId, due) && Serial(run) && txId !in st.paid && i < j < k < |run|
    requires Presents(c, run[k], txId)
    ensures Pays(c, st, run, txId, i) && Pays(c, st, run, txId, j) ==> Answer(c, st, run, k) == Some(INVALID(BE17))
  {
    if Pays(c, st, run, txId, i) && Pays(c, st, run, txId, j) {
      SecondPaymentStraddles(c, st, run, txId, due, i, j);
      assert run[j].times.put <= run[k].times.check;
    }
  }

  /** Straddling the due date does pay a code twice, even with no time between the steps of the first payment. */
  lemma StraddlingPaysTwice(c: Config, x: Execution, txId: string, due: int)
    requires SingleUse(c, txId, due) && Presents(c, x, txId)
    ensures var first := x.(times := Times(due - 2, due - 2, due - 2, due - 2));
            var second := x.(times := Times(due - 1, due, due, due));
            && Serial([first, second])
            && Pays(c, Store(map[], map[], []), [first, second], txId, 0)
            && Pays(c, Store(map[], map[], []), [first, second], txId, 1)
  {
    var run := [x.(times := Times(due - 2, due - 2, due - 2, due - 2)), x.(times := Times(due - 1, due, due, due))];
    SingleUseExactly(c, Store(map[], map[], []), run, txId, due, 0);
    SingleUseExactly(c, Store(map[], map[], []), run, txId, due, 1);
  }

  // ----- The verdict cache -----

  predicate AsksAbout(c: Config, x: Execution, account: string) {
    RouteOf(c, x.payload).Account? && x.payload.clientAccountNumber == account
  }

  /**
   * The execution whose entry for an account is the latest after the first n: an execution makes one when it asks
   * about the account after the entry before it expired.
   */
  function Creator(c: Config, run: seq<Execution>, account: string, n: nat): (r: Option<nat>)
    requires n <= |run|
    ensures r.Some? ==> r.value < n && AsksAbout(c, run[r.value], account)
  {
    if n == 0 then None
    else
      var last := Creator(c, run, account, n - 1);
      if AsksAbout(c, run[n - 1], account)
         && (last.None? || run[n - 1].times.get >= run[last.value].times.put + VERDICT_TTL)
      then Some(n - 1) else last
  }

  /** The execution whose assessment the n-th gives back: its own unless the latest entry is still alive. */
  function Source(c: Config, run: seq<Execution>, account: string, n: nat): (r: nat)
    requires n < |run| && AsksAbout(c, run[n], account)
    ensures r <= n && AsksAbout(c, run[r], account)
  {
    var last := Creator(c, run, account, n);
    if last.Some? && run[n].times.get < run[last.value].times.put + VERDICT_TTL then last.value else n
  }

  ghost predicate CacheFollows(c: Config, st: Store, run: seq<Execution>, account: string, n: nat)
    requires n <= |run|
  {
    var verdicts, last := After(c, st, run, n).verdicts, Creator(c, run, account, n);
    && (account in verdicts <==> last.Some?)
    && (last.Some? ==>
          var x := run[last.value];
          verdicts[account] == CachedVerdict(Assess(x.payload, x.services), x.times.put + VERDICT_TTL))
  }

  lemma AccountDecision(c: Config, st: Store, x: Execution, account: string)
    ensures AsksAbout(c, x, account) ==>
      Decision(c, st, x)
      == Some(if Remembers(st.verdicts, account, x.times.get) then st.verdicts[account].verdict
              else Assess(x.payload, x.services))
    ensures AsksAbout(c, x, account) && !Remembers(st.verdicts, account, x.times.get) ==>
      Next(c, st, x).verdicts
      == st.verdicts[account := CachedVerdict(Assess(x.payload, x.services), x.times.put + VERDICT_TTL)]
    ensures AsksAbout(c, x, account) && Remembers(st.verdicts, account, x.times.get) ==>
      Next(c, st, x).verdicts == st.verdicts
    ensures !AsksAbout(c, x, account) ==>
      && (account in Next(c, st, x).verdicts <==> account in st.verdicts)
      && (account in st.verdicts ==> Next(c, st, x).verdicts[account] == st.verdicts[account])
  {
  }

  lemma {:induction false} CacheAlwaysFollows(c: Config, st: Store, run: seq<Execution>, account: string, n: nat)
    requires account !in st.verdicts && n <= |run|
    ensures CacheFollows(c, st, run, account, n)
  {
    hide IsFastFormat, CheckTxId, RouteOf;
    if n > 0 {
      CacheAlwaysFollows(c, st, run, account, n - 1);
      AccountDecision(c, After(c, st, run, n - 1), run[n - 1], account);
    }
  }

  /** Every payload that reaches the verdict cache gets what was assessed for the payload that made the entry. */
  lemma VerdictOfTheCreator(c: Config, st: Store, run: seq<Execution>, account: string, n: nat)
    requires account !in st.verdicts && n < |run| && AsksAbout(c, run[n], account)
    ensures var x := run[Source(c, run, account, n)];
            Answer(c, st, run, n) == Some(Assess(x.payload, x.services))
  {
    CacheAlwaysFollows(c, st, run, account, n);
    AccountDecision(c, After(c, st, run, n), run[n], account);
  }

  /** The entry is never rewritten while it lives, so its lifetime has one source. */
  lemma {:induction false} OneSourcePerLifetime(c: Config, run: seq<Execution>, account: string, i: nat, n: nat)
    requires Serial(run) && i < n < |run| && Creator(c, run, account, i + 1) == Some(i)
    requires AsksAbout(c, run[n], account) && run[n].times.get < run[i].times.put + 600000
    ensures Source(c, run, account, n) == i
  {
    CreatorStays(c, run, account, i, n, n);
  }

  lemma {:induction false} CreatorStays(c: Config, run: seq<Execution>, account: string, i: nat, k: nat, n: nat)
    requires Serial(run) && i < k <= n < |run| && Creator(c, run, account, i + 1) == Some(i)
    requires run[n].times.get < run[i].times.put + VERDICT_TTL
    ensures Creator(c, run, account, k) == Some(i)
  {
    if k > i + 1 {
      CreatorStays(c, run, account, i, k - 1, n);
      assert run[k - 1].times.put <= run[n].times.check;
    }
  }

  /** What the services know of an account's holder. */
  function Holder(account: string, s: Services): Option<User> {
    var onboarding := s.onboarding(account);
    if onboarding.None? then None else s.user(onboarding.value)
  }

  /** What is wrong with the payment a payload gives back, if it gives one back. */
  function GivenBack(p: Payload, s: Services): Option<ErrorCode> {
    if p.originalEndToEndId == "" then None
    else
      match s.paymentValue(p.originalEndToEndId)
      case None => Some(ED05)
      case Some(value) => if p.amount > value then Some(AM09) else None
  }

  /** Nothing is wrong with a payload but the payment it gives back, which is not found. */
  predicate LacksOnlyPayment(p: Payload, s: Services, holder: User) {
    holder.document == p.clientDocument && holder.active && GivenBack(p, s) == Some(ED05)
  }

  /**
   * What of two payloads for one account, and of what was known at the time of each, decides whether they are treated
   * alike. Without a holder on either side there was an onboarding for both or for neither. Two holders must fit both
   * documents or neither; where they fit both or neither must be active; and where they are, the payments given back
   * must be as good. A holder that is not found is told as a payment that is not found.
   */
  predicate Interchangeable(p: Payload, ps: Services, q: Payload, qs: Services) {
    var account := q.clientAccountNumber;
    match (Holder(account, ps), Holder(account, qs))
    case (None, None) => ps.onboarding(account).Some? == qs.onboarding(account).Some?
    case (Some(x), Some(y)) =>
      && (x.document == p.clientDocument <==> y.document == q.clientDocument)
      && (y.document == q.clientDocument ==> x.active == y.active)
      && (y.document == q.clientDocument && y.active ==> GivenBack(p, ps) == GivenBack(q, qs))
    case (Some(x), None) => qs.onboarding(account).Some? && LacksOnlyPayment(p, ps, x)
    case (None, Some(y)) => ps.onboarding(account).Some? && LacksOnlyPayment(q, qs, y)
  }

  /**
   * When exactly the verdict cache is transparent: the answer is the payload's own assessment if and only if payload
   * and services are interchangeable with those the entry was made from.
   */
  lemma TransparentExactly(c: Config, st: Store, run: seq<Execution>, account: string, n: nat)
    requires account !in st.verdicts && n < |run| && AsksAbout(c, run[n], account)
    ensures var x, y := run[Source(c, run, account, n)], run[n];
      (Answer(c, st, run, n) == Some(Assess(y.payload, y.services))) <==>
      Interchangeable(x.payload, x.services, y.payload, y.services)
  {
    VerdictOfTheCreator(c, st, run, account, n);
  }

  /** A verdict outlives what it rests on: a payload is still answered valid after its holder was switched off. */
  lemma VerdictsGoStale(c: Config, x: Execution, later: Services, holder: User)
    requires RouteOf(c, x.payload).Account? && Assess(x.payload, x.services) == VALID && x.times == Times(0, 0, 0, 0)
    requires Holder(x.payload.clientAccountNumber, x.services) == Some(holder)
    requires Holder(x.payload.clientAccountNumber, later) == Some(holder.(active := false))
    ensures Assess(x.payload, later) == INVALID(AC07)
    ensures Answer(c, Store(map[], map[], []), [x, x.(services := later)], 1) == Some(VALID)
  {
    var run, account := [x, x.(services := later)], x.payload.clientAccountNumber;
    assert Creator(c, run, account, 1) == Some(0);
    VerdictOfTheCreator(c, Store(map[], map[], []), run, account, 1);
  }

  /** The cache does not look at the payload: a valid first payload lets one of another person through. */
  lemma VerdictCacheIsNotTransparent(c: Config, x: Execution, other: Payload)
    requires RouteOf(c, x.payload).Account? && Assess(x.payload, x.services) == VALID && x.times == Times(0, 0, 0, 0)
    requires RouteOf(c, other).Account? && other.clientAccountNumber == x.payload.clientAccountNumber
    requires other.clientDocument != x.payload.clientDocument
    ensures Assess(other, x.services) == INVALID(BE01)
    ensures Answer(c, Store(map[], map[], []), [x, x.(payload := other)], 1) == Some(VALID)
  {
    var run := [x, x.(payload := other)];
    var account := other.clientAccountNumber;
    assert Creator(c, run, account, 1) == Some(0);
    VerdictOfTheCreator(c, Store(map[], map[], []), run, account, 1);
  }

  // ----- Events -----

  /** An event as the use case emits them: grouped payloads wait, others are ready or in error by their verdict. */
  predicate WellRouted(e: Event) {
    && (e.kind.Pending? <==> e.payload.groupId != "")
    && (e.kind.Ready? ==> e.verdict.VALID?)
    && (e.kind.Error? ==> e.verdict.INVALID?)
  }

  /** One event for each verdict given, in order. */
  function Verdicts(c: Config, st: Store, run: seq<Execution>, n: nat): seq<(Payload, Verdict)>
    requires n <= |run|
  {
    if n == 0 then []
    else
      Verdicts(c, st, run, n - 1)
      + (if Answer(c, st, run, n - 1).Some? then [(run[n - 1].payload, Answer(c, st, run, n - 1).value)] else [])
  }

  ghost predicate EventsFollow(events: seq<Event>, verdicts: seq<(Payload, Verdict)>) {
    && |events| == |verdicts|
    && forall i :: 0 <= i < |events| ==> (events[i].payload, events[i].verdict) == verdicts[i] && WellRouted(events[i])
  }

  lemma OneEventPerVerdict(c: Config, st: Store, x: Execution, verdicts: seq<(Payload, Verdict)>)
    requires EventsFollow(st.events, verdicts)
    ensures EventsFollow(Next(c, st, x).events,
      verdicts + (if Decision(c, st, x).Some? then [(x.payload, Decision(c, st, x).value)] else []))
  {
    var d := Decision(c, st, x);
    assert Next(c, st, x).events == if d.Some? then Told(st.events, x.payload, d.value) else st.events;
  }

  lemma {:induction false} EventsFollowVerdicts(c: Config, st: Store, run: seq<Execution>, n: nat)
    requires n <= |run| && st.events == []
    ensures EventsFollow(After(c, st, run, n).events, Verdicts(c, st, run, n))
  {
    hide IsFastFormat, CheckTxId, RouteOf;
    if n > 0 {
      EventsFollowVerdicts(c, st, run, n - 1);
      OneEventPerVerdict(c, After(c, st, run, n - 1), run[n - 1], Verdicts(c, st, run, n - 1));
    }
  }
}
