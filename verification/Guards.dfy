/** The replay guard, its interceptor, the exception filter and the nonce guard, for one request at a time. */
module Guards {
  import opened RequestKey
  import opened Wrappers

  /** The shared cache. Entries vanish when their time to live has elapsed. */
  class Cache {
    var entries: map<Key, Entry>

    constructor ()
      ensures entries == map[]
    {
      entries := map[];
    }

    method Get(k: Key, now: int) returns (found: Option<RequestId>)
      ensures found.Some? <==> k in entries && now < entries[k].expires
      ensures found.Some? ==> found.value == entries[k].owner
    {
      if k in entries && now < entries[k].expires { return Some(entries[k].owner); }
      return None;
    }

    method Set(k: Key, id: RequestId, ttl: int, now: int)
      modifies this
      ensures entries == old(entries)[k := Entry(id, now + ttl)]
    {
      entries := entries[k := Entry(id, now + ttl)];
    }

    method Del(k: Key)
      modifies this
      ensures entries == old(entries) - {k}
    {
      entries := entries - {k};
    }
  }

  class HttpRequest {
    const id: RequestId
    const target: Target
    var headers: map<string, string>
    var query: map<string, string>
    var replyProtection: Option<Key>

    constructor (id: RequestId, target: Target, headers: map<string, string>, query: map<string, string>)
      ensures this.id == id && this.target == target && this.headers == headers && this.query == query
      ensures replyProtection == None
    {
      this.id, this.target, this.headers, this.query := id, target, headers, query;
      replyProtection := None;
    }

    function Sent(): Fields
      reads this
    {
      Fields(headers, query)
    }
  }

  /** How a request reached the service. */
  datatype Protocol = Http | Rpc | Other

  function Without(entries: map<Key, Entry>, k: Option<Key>): map<Key, Entry> {
    if k.Some? then entries - {k.value} else entries
  }

  class ReplayGuard {
    const cache: Cache
    const useNonce: bool

    constructor (cache: Cache, useNonce: bool)
      ensures this.cache == cache && this.useNonce == useNonce
    {
      this.cache, this.useNonce := cache, useNonce;
    }

    /** The transaction id and the nonce may come in the query; they belong in the headers. */
    static method MoveToHeaders(req: HttpRequest)
      modifies req
      ensures req.Sent() == Normalise(old(req.Sent())) && req.replyProtection == old(req.replyProtection)
    {
      if !Given(req.headers, TRANSACTION_HEADER) && Given(req.query, TRANSACTION_HEADER) {
        req.headers := req.headers[TRANSACTION_HEADER := req.query[TRANSACTION_HEADER]];
        req.query := req.query - {TRANSACTION_HEADER};
      }
      if !Given(req.headers, NONCE_HEADER) && Given(req.query, NONCE_HEADER) {
        req.headers := req.headers[NONCE_HEADER := req.query[NONCE_HEADER]];
        req.query := req.query - {NONCE_HEADER};
      }
    }

    /** The object that is hashed, built up from the request. */
    method RequestData(req: HttpRequest) returns (data: ReplayData)
      ensures data == DataIn(req.target, req.Sent(), useNonce)
    {
      var t := req.target;
      data := ReplayData(t.httpMethod, t.params, t.path, req.query, t.body, t.userId, None, None);
      if (Given(req.headers, "transaction_uuid") || Given(req.headers, TRANSACTION_HEADER))
         && Includes(t.path, "p2p-transfers") {
        data := data.(transactionId :=
          if Given(req.headers, "transaction_uuid") then Some(req.headers["transaction_uuid"])
          else Some(req.headers[TRANSACTION_HEADER]));
      } else if useNonce && Given(req.headers, NONCE_HEADER) {
        data := data.(nonce := Some(req.headers[NONCE_HEADER]));
      }
    }

    /** `ttl` is 0 for handlers without replay protection; the mutex is held from the look-up to the end. */
    method CanActivate(req: HttpRequest, ttl: nat, now: int) returns (r: Result<bool, string>)
      modifies req, cache
      ensures ttl == 0 ==> r == Ok(true) && unchanged(req) && unchanged(cache)
      ensures ttl > 0 ==> req.Sent() == Normalise(old(req.Sent()))
      ensures ttl > 0 ==>
        var k, entries := ReplayKey(DataOf(req.target, old(req.Sent()), useNonce)), old(cache.entries);
        if k in entries && now < entries[k].expires
        then r.Err? && cache.entries == entries && req.replyProtection == old(req.replyProtection)
        else r == Ok(true) && cache.entries == entries[k := Entry(req.id, now + ttl)] && req.replyProtection == Some(k)
    {
      if ttl == 0 { return Ok(true); }
      MoveToHeaders(req);
      var data := RequestData(req);
      var key := ReplayKey(data);
      var replayed := cache.Get(key, now);
      if replayed.Some? { return Err("REPLAY"); }
      cache.Set(key, req.id, ttl, now);
      req.replyProtection := Some(key);
      return Ok(true);
    }
  }

  class ReplayInterceptor {
    const cache: Cache

    constructor (cache: Cache)
      ensures this.cache == cache
    {
      this.cache := cache;
    }

    /**
     * `handled` is what the handler answered. On an error the entry goes first, then the ownership; the error travels
     * on to the exception filters.
     */
    method Intercept(req: HttpRequest, handled: Result<string, string>) returns (r: Result<string, string>)
      modifies req, cache
      ensures r == handled && req.Sent() == old(req.Sent())
      ensures handled.Ok? ==> unchanged(req) && unchanged(cache)
      ensures handled.Err? ==> req.replyProtection == None
      ensures handled.Err? ==> cache.entries == Without(old(cache.entries), old(req.replyProtection))
    {
      if handled.Err? && req.replyProtection.Some? {
        cache.Del(req.replyProtection.value);
        req.replyProtection := None;
      }
      return handled;
    }
  }

  /** An exception with the stack it was thrown with and those of the exceptions that caused it. */
  class Exception {
    const stack: string
    var causedByStack: seq<string>

    constructor (stack: string)
      ensures this.stack == stack && causedByStack == []
    {
      this.stack := stack;
      causedByStack := [];
    }
  }

  class ExceptionFilter {
    const cache: Cache

    constructor (cache: Cache)
      ensures this.cache == cache
    {
      this.cache := cache;
    }

    /**
     * Only HTTP requests lose their entry; ownership is left as it is. A message is answered with its exception, which
     * records its own stack among the causes first.
     */
    method Catch(exception: Exception, req: HttpRequest, protocol: Protocol) returns (r: Result<bool, seq<string>>)
      modifies cache, exception
      ensures protocol == Http ==> r == Ok(true) && unchanged(exception)
      ensures protocol == Http ==> cache.entries == Without(old(cache.entries), req.replyProtection)
      ensures protocol != Http ==> unchanged(cache)
      ensures protocol == Rpc ==> exception.causedByStack == old(exception.causedByStack) + [exception.stack]
      ensures protocol == Rpc ==> r == Err(exception.causedByStack)
      ensures protocol == Other ==> r.Err? && unchanged(exception)
    {
      match protocol {
        case Rpc =>
          exception.causedByStack := exception.causedByStack + [exception.stack];
          return Err(exception.causedByStack);
        case Other => return Err(["NOT IMPLEMENTED"]);
        case Http =>
          if req.replyProtection.Some? { cache.Del(req.replyProtection.value); }
          return Ok(true);
      }
    }

    /** The filter for exceptions of the HTTP framework knows no other protocol. */
    method CatchHttpException(req: HttpRequest)
      modifies cache
      ensures cache.entries == Without(old(cache.entries), req.replyProtection)
    {
      if req.replyProtection.Some? { cache.Del(req.replyProtection.value); }
    }
  }

  class NonceGuard {
    const cache: Cache
    const nonceTtl: nat
    const isUuid: string -> bool

    constructor (cache: Cache, nonceTtl: nat, isUuid: string -> bool)
      ensures this.cache == cache && this.nonceTtl == nonceTtl && this.isUuid == isUuid
    {
      this.cache, this.nonceTtl, this.isUuid := cache, nonceTtl, isUuid;
    }

    /** A request without nonce passes unchecked, and so does every request when the time to live is 0. */
    method CanActivate(req: HttpRequest, now: int) returns (r: Result<bool, string>)
      modifies cache
      ensures nonceTtl == 0 || !Given(req.headers, NONCE_HEADER) ==> r == Ok(true) && unchanged(cache)
      ensures nonceTtl > 0 && Given(req.headers, NONCE_HEADER) ==>
        var k, entries := NonceKey(req.headers[NONCE_HEADER]), old(cache.entries);
        if !isUuid(k.nonce) then r == Err("BAD REQUEST") && unchanged(cache)
        else if k in entries && now < entries[k].expires then r == Err("CONFLICT") && cache.entries == entries
        else r == Ok(true) && cache.entries == entries[k := Entry(req.id, now + nonceTtl)]
    {
      if nonceTtl == 0 { return Ok(true); }
      if !Given(req.headers, NONCE_HEADER) { return Ok(true); }
      var nonce := req.headers[NONCE_HEADER];
      if !isUuid(nonce) { return Err("BAD REQUEST"); }
      var cached := cache.Get(NonceKey(nonce), now);
      if cached.Some? { return Err("CONFLICT"); }
      cache.Set(NonceKey(nonce), req.id, nonceTtl, now);
      return Ok(true);
    }
  }

  /**
   * A protected request that is admitted and fails leaves the way free: whether its error passes the interceptor
   * before the filter or reaches the filter directly, an equal request is admitted at once.
   */
  method FailThenRetry(cache: Cache, useNonce: bool, first: HttpRequest, again: HttpRequest, ttl: nat, now: int,
                       intercepted: bool)
    returns (admitted: bool)
    requires ttl > 0 && first != again && first.replyProtection == None
    requires DataOf(first.target, first.Sent(), useNonce) == DataOf(again.target, again.Sent(), useNonce)
    modifies cache, first, again
    ensures var k := ReplayKey(old(DataOf(first.target, first.Sent(), useNonce)));
      && (admitted <==> !(k in old(cache.entries) && now < old(cache.entries)[k].expires))
      && (admitted ==> k in cache.entries && cache.entries[k] == Entry(again.id, now + ttl))
  {
    var guard := new ReplayGuard(cache, useNonce);
    var interceptor := new ReplayInterceptor(cache);
    var filter := new ExceptionFilter(cache);
    var r := guard.CanActivate(first, ttl, now);
    if r.Ok? && intercepted { var _ := interceptor.Intercept(first, Err("FAILED")); }
    var exception := new Exception("FAILED");
    var _ := filter.Catch(exception, first, Http);
    r := guard.CanActivate(again, ttl, now);
    return r.Ok?;
  }

  /**
   * Of two requests, one after the other, the second is refused for the first exactly if it is the same request: a
   * difference in anything the key is made of lets it pass, unless an older entry stands in its own way.
   */
  method TwoRequests(cache: Cache, useNonce: bool, first: HttpRequest, second: HttpRequest, ttl: nat, now: int)
    returns (firstPasses: bool, secondPasses: bool)
    requires ttl > 0 && first != second
    modifies cache, first, second
    ensures var k := ReplayKey(old(DataOf(first.target, first.Sent(), useNonce)));
      firstPasses <==> !(k in old(cache.entries) && now < old(cache.entries)[k].expires)
    ensures var k := ReplayKey(old(DataOf(second.target, second.Sent(), useNonce)));
      secondPasses <==>
      && !(k in old(cache.entries) && now < old(cache.entries)[k].expires)
      && !SameRequest(first.target, old(first.Sent()), second.target, old(second.Sent()), useNonce)
  {
    SameKeyExactly(first.target, first.Sent(), second.target, second.Sent(), useNonce);
    var guard := new ReplayGuard(cache, useNonce);
    var r := guard.CanActivate(first, ttl, now);
    firstPasses := r.Ok?;
    hide SameRequest, DataOf, Normalise;
    r := guard.CanActivate(second, ttl, now);
    secondPasses := r.Ok?;
  }
}
