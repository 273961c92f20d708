/** The response cache in front of message handlers, and when its replies are those the handlers would give. */
module RpcCache {
  import opened Wrappers

  datatype Json =
    | Undefined
    | Null
    | Bool(b: bool)
    | Number(n: real)
    | Str(s: string)
    | Array(elements: seq<Json>)
    | Object(fields: map<string, Json>)

  /** What the cache tells apart: a message's topic and value. */
  datatype RpcKey = RpcKey(topic: string, value: Json)

  datatype Message = Message(key: Json, headers: Json, topic: string, value: Json)

  datatype Reply = Reply(key: Json, headers: Json, value: Json)

  /** A handler answers a topic and a value with a value, or fails. */
  type Handler = (string, Json) -> Result<Json, string>

  predicate Truthy(j: Json) {
    match j
    case Undefined => false
    case Null => false
    case Bool(b) => b
    case Number(n) => n != 0.0
    case Str(s) => s != ""
    case _ => true
  }

  /** An object that stands for null in the cache. */
  predicate IsNullMarker(j: Json) {
    j.Object? && "__is_null__" in j.fields && Truthy(j.fields["__is_null__"])
  }

  function Wrap(j: Json): Json {
    if j.Undefined? || j.Null? then Object(map["__is_null__" := Bool(true)]) else j
  }

  function Unwrap(cached: Json): Json {
    if IsNullMarker(cached) then Null else cached
  }

  /** Equal, but for the difference between undefined and null. */
  predicate SameValue(a: Json, b: Json) {
    a == b || ((a.Undefined? || a.Null?) && (b.Undefined? || b.Null?))
  }

  predicate SameReply(a: Result<Reply, string>, b: Result<Reply, string>) {
    if a.Ok? && b.Ok?
    then a.value.key == b.value.key && a.value.headers == b.value.headers && SameValue(a.value.value, b.value.value)
    else a == b
  }

  function KeyOf(m: Message): RpcKey {
    RpcKey(m.topic, m.value)
  }

  /** The reply without a cache: the message's own key and headers with the handler's value. */
  function Uncached(h: Handler, m: Message): Result<Reply, string> {
    match h(m.topic, m.value)
    case Ok(v) => Ok(Reply(m.key, m.headers, v))
    case Err(e) => Err(e)
  }

  /** The values that count as nothing. */
  lemma FalsyExactly(j: Json)
    ensures !Truthy(j) <==> j == Undefined || j == Null || j == Bool(false) || j == Number(0.0) || j == Str("")
  {
  }

  /** What the null marker is: an object whose field of that name counts as something. */
  lemma NullMarkerExactly(j: Json)
    ensures IsNullMarker(j) <==>
      exists fields :: j == Object(fields) && "__is_null__" in fields && Truthy(fields["__is_null__"])
  {
    if IsNullMarker(j) { assert j == Object(j.fields); }
  }

  /** A round trip through the cache keeps a value exactly if it does not look like the null marker. */
  lemma UnwrapWrap(v: Json)
    ensures SameValue(Unwrap(Wrap(v)), v) <==> !IsNullMarker(v)
    ensures Truthy(Wrap(v)) <==> Truthy(v) || v.Undefined? || v.Null?
  {
    assert Object(map["__is_null__" := Bool(true)]).fields["__is_null__"] == Bool(true);
  }

  /** Entries hold what the handler answers. */
  ghost predicate Faithful(h: Handler, cache: map<RpcKey, Json>) {
    forall k :: k in cache ==> h(k.topic, k.value).Ok? && cache[k] == Wrap(h(k.topic, k.value).value)
  }

  /** The handler's answer to a request survives the cache. */
  predicate Cacheable(h: Handler, m: Message) {
    h(m.topic, m.value).Ok? ==> !IsNullMarker(h(m.topic, m.value).value)
  }

  // ----- One request at a time -----

  class CacheInterceptor {
    const handler: Handler
    var rpc: map<RpcKey, Json>
    var http: map<Json, Json>

    constructor (handler: Handler)
      ensures this.handler == handler && rpc == map[] && http == map[]
    {
      this.handler := handler;
      rpc, http := map[], map[];
    }

    /** The reply, and whether the handler was called for it. */
    method InterceptRpc(m: Message) returns (reply: Result<Reply, string>, called: bool)
      requires Faithful(handler, rpc)
      modifies this`rpc
      ensures Faithful(handler, rpc)
      ensures called <==> KeyOf(m) !in old(rpc) || !Truthy(old(rpc)[KeyOf(m)])
      ensures called ==> reply == Uncached(handler, m)
      ensures Cacheable(handler, m) ==> SameReply(reply, Uncached(handler, m))
      ensures rpc == if called && reply.Ok? then old(rpc)[KeyOf(m) := Wrap(reply.value.value)] else old(rpc)
    {
      var key := KeyOf(m);
      if key in rpc {
        var cachedResponse := rpc[key];
        if Truthy(cachedResponse) {
          var response := if IsNullMarker(cachedResponse) then Null else cachedResponse;
          UnwrapWrap(handler(m.topic, m.value).value);
          return Ok(Reply(m.key, m.headers, response)), false;
        }
      }
      var answer := handler(m.topic, m.value);
      if answer.Err? { return Err(answer.error), true; }
      var response := if answer.value != Undefined && answer.value != Null then answer.value
                      else Object(map["__is_null__" := Bool(true)]);
      rpc := rpc[key := response];
      return Ok(Reply(m.key, m.headers, answer.value)), true;
    }

    /** The same for a web request, told apart by all that is hashed of it; nothing is wrapped. */
    method InterceptHttp(request: Json, respond: Json -> Result<Json, string>) returns (data: Result<Json, string>)
      requires forall k :: k in http ==> respond(k) == Ok(http[k])
      modifies this`http
      ensures data == respond(request)
      ensures http == if (request in old(http) && Truthy(old(http)[request])) || data.Err? then old(http)
                      else old(http)[request := data.value]
      ensures forall k :: k in http ==> respond(k) == Ok(http[k])
    {
      if request in http {
        var cachedResponse := http[request];
        if Truthy(cachedResponse) { return Ok(cachedResponse); }
      }
      data := respond(request);
      if data.Ok? { http := http[request := data.value]; }
    }
  }

  // ----- Requests side by side -----

  type RequestId = nat

  /** A reply is given before its value is stored, and entries vanish at any time. */
  datatype System = System(
    cache: map<RpcKey, Json>,
    running: map<RequestId, Message>,
    storing: map<RequestId, Message>,
    replies: seq<(Message, Result<Reply, string>)>)

  datatype Step =
    | Arrive(request: RequestId, message: Message)
    | Finish(request: RequestId)
    | Store(request: RequestId)
    | Evict(key: RpcKey)

  predicate Enabled(s: System, step: Step) {
    match step
    case Arrive(r, _) => r !in s.running && r !in s.storing
    case Finish(r) => r in s.running
    case Store(r) => r in s.storing
    case Evict(k) => k in s.cache
  }

  function Next(h: Handler, s: System, step: Step): System
    requires Enabled(s, step)
  {
    match step
    case Arrive(r, m) =>
      if KeyOf(m) in s.cache && Truthy(s.cache[KeyOf(m)])
      then s.(replies := s.replies + [(m, Ok(Reply(m.key, m.headers, Unwrap(s.cache[KeyOf(m)]))))])
      else s.(running := s.running[r := m])
    case Finish(r) =>
      var m := s.running[r];
      s.(running := s.running - {r},
         storing := if h(m.topic, m.value).Ok? then s.storing[r := m] else s.storing,
         replies := s.replies + [(m, Uncached(h, m))])
    case Store(r) =>
      var m := s.storing[r];
      s.(storing := s.storing - {r},
         cache := if h(m.topic, m.value).Ok? then s.cache[KeyOf(m) := Wrap(h(m.topic, m.value).value)] else s.cache)
    case Evict(k) => s.(cache := s.cache - {k})
  }

  const INITIAL := System(map[], map[], map[], [])

  ghost predicate IsRun(h: Handler, states: seq<System>, steps: seq<Step>) {
    && |states| == |steps| + 1 && states[0] == INITIAL
    && forall i :: 0 <= i < |steps| ==> Enabled(states[i], steps[i]) && states[i + 1] == Next(h, states[i], steps[i])
  }

  ghost predicate Transparent(h: Handler, s: System) {
    forall i :: 0 <= i < |s.replies| && Cacheable(h, s.replies[i].0) ==>
      SameReply(s.replies[i].1, Uncached(h, s.replies[i].0))
  }

  lemma {:induction false} RunsStayFaithful(h: Handler, states: seq<System>, steps: seq<Step>, n: nat)
    requires IsRun(h, states, steps) && n <= |steps|
    ensures Faithful(h, states[n].cache) && Transparent(h, states[n])
  {
    if n > 0 {
      RunsStayFaithful(h, states, steps, n - 1);
      var s, step := states[n - 1], steps[n - 1];
      if step.Arrive? && KeyOf(step.message) in s.cache {
        UnwrapWrap(h(step.message.topic, step.message.value).value);
      }
    }
  }

  /**
   * In every run, with any expiry, every reply to a request the cache can hold is the uncached one, whatever its value.
   */
  lemma RepliesAsUncached(h: Handler, states: seq<System>, steps: seq<Step>, n: nat, i: nat)
    requires IsRun(h, states, steps) && n <= |steps| && i < |states[n].replies|
    requires Cacheable(h, states[n].replies[i].0)
    ensures SameReply(states[n].replies[i].1, Uncached(h, states[n].replies[i].0))
  {
    RunsStayFaithful(h, states, steps, n);
  }

  /** And no other request: asked for twice, one whose answer looks like the null marker is answered null. */
  lemma OthersAreNot(h: Handler, m: Message)
    requires !Cacheable(h, m)
    ensures var steps := [Arrive(0, m), Finish(0), Store(0), Arrive(1, m)];
            exists states: seq<System> :: IsRun(h, states, steps) && |states[4].replies| == 2
              && !SameReply(states[4].replies[1].1, Uncached(h, m))
  {
    var steps := [Arrive(0, m), Finish(0), Store(0), Arrive(1, m)];
    var s1 := Next(h, INITIAL, steps[0]);
    var s2 := Next(h, s1, steps[1]);
    var s3 := Next(h, s2, steps[2]);
    var s4 := Next(h, s3, steps[3]);
    UnwrapWrap(h(m.topic, m.value).value);
    assert IsRun(h, [INITIAL, s1, s2, s3, s4], steps);
  }

  /** Undisturbed, the steps of a miss do what the interceptor's method does. */
  lemma MissAlone(h: Handler, s: System, r: RequestId, m: Message)
    requires Enabled(s, Arrive(r, m)) && (KeyOf(m) in s.cache ==> !Truthy(s.cache[KeyOf(m)]))
    ensures var finished := Next(h, Next(h, s, Arrive(r, m)), Finish(r));
            var after := if Enabled(finished, Store(r)) then Next(h, finished, Store(r)) else finished;
            && after.replies == s.replies + [(m, Uncached(h, m))]
            && after.cache == (if h(m.topic, m.value).Ok?
                               then s.cache[KeyOf(m) := Wrap(h(m.topic, m.value).value)] else s.cache)
            && after.running == s.running && after.storing == s.storing
  {
    assert s.running[r := m] - {r} == s.running && s.storing[r := m] - {r} == s.storing;
  }

  /** While an entry lives, a truthy or null answer costs no further call of the handler. */
  lemma HitsAreNotRun(h: Handler, s: System, r: RequestId, m: Message)
    requires Faithful(h, s.cache) && Enabled(s, Arrive(r, m)) && KeyOf(m) in s.cache
    ensures var v := h(m.topic, m.value).value;
            Next(h, s, Arrive(r, m)).running == s.running <==> Truthy(v) || v.Undefined? || v.Null?
  {
    UnwrapWrap(h(m.topic, m.value).value);
    assert r in Next(h, s, Arrive(r, m)).running <==> !Truthy(s.cache[KeyOf(m)]);
  }
}
