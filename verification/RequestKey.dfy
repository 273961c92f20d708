/** What the guards look requests up by, and what one look-up does to the cache. */
module RequestKey {
  import opened Wrappers

  type RequestId = nat

  /**
   * The request data the replay guard hashes. The hash is taken to be injective, so the data itself is the key.
   * A field of the request object that was never assigned is `None`.
   */
  datatype ReplayData = ReplayData(
    httpMethod: string,
    params: map<string, string>,
    path: string,
    query: map<string, string>,
    body: string,
    userId: string,
    transactionId: Option<string>,
    nonce: Option<string>)

  /** The two guards use keys with different prefixes. */
  datatype Key = ReplayKey(data: ReplayData) | NonceKey(nonce: string)

  /** A cache entry is present before `expires` and gone from then on. */
  datatype Entry = Entry(owner: RequestId, expires: int)

  datatype Outcome = Outcome(admitted: bool, cache: map<Key, Entry>)

  /** One undisturbed look-up: an entry that is present refuses, otherwise the request leaves its own. */
  function Enter(cache: map<Key, Entry>, k: Key, id: RequestId, ttl: int, now: int): Outcome {
    if k in cache && now < cache[k].expires
    then Outcome(false, cache)
    else Outcome(true, cache[k := Entry(id, now + ttl)])
  }

  const TRANSACTION_HEADER := "x-transaction-uuid"
  const NONCE_HEADER := "nonce"

  /** A header or query field that is there and not empty. */
  predicate Given(fields: map<string, string>, name: string) {
    name in fields && fields[name] != ""
  }

  datatype Fields = Fields(headers: map<string, string>, query: map<string, string>)

  /** A field the query gives and the headers do not moves to the headers. */
  function MoveField(f: Fields, name: string): Fields {
    if !Given(f.headers, name) && Given(f.query, name)
    then Fields(f.headers[name := f.query[name]], f.query - {name})
    else f
  }

  function Normalise(f: Fields): Fields {
    MoveField(MoveField(f, TRANSACTION_HEADER), NONCE_HEADER)
  }

  /** Does `text` contain `part`? */
  predicate Includes(text: string, part: string) {
    |part| <= |text| && (text[..|part|] == part || (text != "" && Includes(text[1..], part)))
  }

  /** The transaction id that replaces the nonce on peer-to-peer transfers. */
  function TransactionId(headers: map<string, string>): Option<string> {
    if Given(headers, "transaction_uuid") then Some(headers["transaction_uuid"])
    else if Given(headers, TRANSACTION_HEADER) then Some(headers[TRANSACTION_HEADER])
    else None
  }

  /** The part of a request that no guard changes. */
  datatype Target = Target(httpMethod: string, params: map<string, string>, path: string, body: string, userId: string)

  predicate IdentifiedTransfer(t: Target, headers: map<string, string>) {
    Includes(t.path, "p2p-transfers") && TransactionId(headers).Some?
  }

  /** The data hashed once the fields are in place. */
  function DataIn(t: Target, n: Fields, useNonce: bool): ReplayData {
    ReplayData(t.httpMethod, t.params, t.path, n.query, t.body, t.userId,
               if IdentifiedTransfer(t, n.headers) then TransactionId(n.headers) else None,
               if !IdentifiedTransfer(t, n.headers) && useNonce && Given(n.headers, NONCE_HEADER)
               then Some(n.headers[NONCE_HEADER]) else None)
  }

  /** The data hashed for a request as the client sent it. */
  function DataOf(t: Target, f: Fields, useNonce: bool): ReplayData {
    DataIn(t, Normalise(f), useNonce)
  }

  /** Normalising twice is normalising once. */
  lemma NormaliseIdempotent(f: Fields)
    ensures Normalise(Normalise(f)) == Normalise(f)
  {
  }

  /** It makes no difference whether the client sends one of the two fields as a header or in the query. */
  lemma PlacementIrrelevant(t: Target, f: Fields, name: string, value: string, useNonce: bool)
    requires name in {TRANSACTION_HEADER, NONCE_HEADER} && value != ""
    requires name !in f.headers && name !in f.query
    ensures DataOf(t, f.(headers := f.headers[name := value]), useNonce)
      == DataOf(t, f.(query := f.query[name := value]), useNonce)
  {
    assert f.query[name := value] - {name} == f.query;
    assert TRANSACTION_HEADER != NONCE_HEADER;
    var h, q := f.(headers := f.headers[name := value]), f.(query := f.query[name := value]);
    if name == NONCE_HEADER {
      var m := MoveField(f, TRANSACTION_HEADER);
      assert MoveField(q, TRANSACTION_HEADER).query - {name} == m.query;
      assert MoveField(q, TRANSACTION_HEADER).headers[name := value] == m.headers[name := value];
    }
    assert Normalise(h) == Normalise(q);
  }

  /** On a peer-to-peer transfer the transaction id alone tells repeats apart: the nonce header does not matter. */
  lemma TransferIgnoresNonce(t: Target, f: Fields, a: string, b: string, useNonce: bool)
    requires Includes(t.path, "p2p-transfers") && TransactionId(f.headers).Some?
    requires a != "" && b != ""
    ensures DataOf(t, f.(headers := f.headers[NONCE_HEADER := a]), useNonce)
      == DataOf(t, f.(headers := f.headers[NONCE_HEADER := b]), useNonce)
  {
    assert TRANSACTION_HEADER != NONCE_HEADER && "transaction_uuid" != NONCE_HEADER;
  }

  /** Two transfers alike in everything but the transaction header get the same key exactly if the ids are equal. */
  lemma TransfersToldApart(t: Target, f: Fields, a: string, b: string, useNonce: bool)
    requires Includes(t.path, "p2p-transfers") && !Given(f.headers, "transaction_uuid")
    requires a != "" && b != ""
    ensures (DataOf(t, f.(headers := f.headers[TRANSACTION_HEADER := a]), useNonce)
      == DataOf(t, f.(headers := f.headers[TRANSACTION_HEADER := b]), useNonce)) <==> a == b
  {
    assert TRANSACTION_HEADER != NONCE_HEADER && "transaction_uuid" != TRANSACTION_HEADER
        && "transaction_uuid" != NONCE_HEADER;
    var h := f.(headers := f.headers[TRANSACTION_HEADER := a]);
    assert TransactionId(Normalise(h).headers) == Some(a);
    var g := f.(headers := f.headers[TRANSACTION_HEADER := b]);
    assert TransactionId(Normalise(g).headers) == Some(b);
  }

  /** Elsewhere the nonce separates requests exactly when the guard is set up to use it. */
  lemma NonceToldApart(t: Target, f: Fields, a: string, b: string, useNonce: bool)
    requires !Includes(t.path, "p2p-transfers") && a != "" && b != "" && a != b
    ensures (DataOf(t, f.(headers := f.headers[NONCE_HEADER := a]), useNonce)
      == DataOf(t, f.(headers := f.headers[NONCE_HEADER := b]), useNonce)) <==> !useNonce
  {
    assert TRANSACTION_HEADER != NONCE_HEADER;
    var h := Normalise(f.(headers := f.headers[NONCE_HEADER := a]));
    var g := Normalise(f.(headers := f.headers[NONCE_HEADER := b]));
    assert h.query == g.query;
  }

  // ----- What the key is made of -----

  predicate HasAt(text: string, part: string, i: int) {
    0 <= i && i + |part| <= |text| && text[i..i + |part|] == part
  }

  /** A text contains another exactly if it has it at some place. */
  lemma {:induction false} IncludesExactly(text: string, part: string)
    ensures Includes(text, part) <==> exists i :: HasAt(text, part, i)
  {
    if |part| <= |text| && text[..|part|] == part {
      assert HasAt(text, part, 0);
    } else if text != "" {
      IncludesExactly(text[1..], part);
      if i :| HasAt(text[1..], part, i) { assert HasAt(text, part, i + 1); }
      if i :| HasAt(text, part, i) { assert HasAt(text[1..], part, i - 1); }
    }
  }

  /** What a request says under a name: its header, or its query field where it has no header. */
  function Said(f: Fields, name: string): Option<string> {
    if name in f.headers && f.headers[name] != "" then Some(f.headers[name])
    else if name in f.query && f.query[name] != "" then Some(f.query[name])
    else None
  }

  /** Is a query field that was moved to the headers no longer in the query? */
  predicate MovesAway(f: Fields, name: string) {
    && (name == "x-transaction-uuid" || name == "nonce")
    && !(name in f.headers && f.headers[name] != "")
    && name in f.query && f.query[name] != ""
  }

  /** Two requests have the same query once the two fields are in place. */
  ghost predicate SameQuery(f: Fields, g: Fields) {
    forall name: string ::
      && (name in f.query && !MovesAway(f, name) <==> name in g.query && !MovesAway(g, name))
      && (name in f.query && !MovesAway(f, name) && name in g.query ==> f.query[name] == g.query[name])
  }

  /** What tells repeats of a request apart, if anything: the id of a transfer, or a nonce if nonces are used. */
  datatype Identity = Transaction(id: string) | Nonce(nonce: string) | Neither

  ghost function IdentityOf(t: Target, f: Fields, useNonce: bool): Identity {
    var own := if "transaction_uuid" in f.headers && f.headers["transaction_uuid"] != ""
      then Some(f.headers["transaction_uuid"]) else Said(f, "x-transaction-uuid");
    if own.Some? && exists i :: HasAt(t.path, "p2p-transfers", i) then Transaction(own.value)
    else if useNonce && Said(f, "nonce").Some? then Nonce(Said(f, "nonce").value)
    else Neither
  }

  /** Method, parameters, path, body, user, query and identity: all that a key distinguishes. */
  ghost predicate SameRequest(t: Target, f: Fields, t': Target, f': Fields, useNonce: bool) {
    && t.httpMethod == t'.httpMethod && t.params == t'.params && t.path == t'.path
    && t.body == t'.body && t.userId == t'.userId
    && SameQuery(f, f')
    && IdentityOf(t, f, useNonce) == IdentityOf(t', f', useNonce)
  }

  lemma NormalisedFields(f: Fields, name: string)
    ensures var n := Normalise(f);
      && (name in n.query <==> name in f.query && !MovesAway(f, name))
      && (name in n.query ==> n.query[name] == f.query[name])
      && (name == "x-transaction-uuid" || name == "nonce" ==>
            && (Given(n.headers, name) <==> Said(f, name).Some?)
            && (Given(n.headers, name) ==> n.headers[name] == Said(f, name).value))
      && (name != "x-transaction-uuid" && name != "nonce" ==>
            && (name in n.headers <==> name in f.headers)
            && (name in n.headers ==> n.headers[name] == f.headers[name]))
  {
    NamesDiffer();
  }

  lemma NamesDiffer()
    ensures TRANSACTION_HEADER != NONCE_HEADER && "transaction_uuid" != NONCE_HEADER
    ensures "transaction_uuid" != TRANSACTION_HEADER
  {
    assert |TRANSACTION_HEADER| == 18 && |NONCE_HEADER| == 5 && |"transaction_uuid"| == 16;
  }

  lemma IdentityIsHashed(t: Target, f: Fields, useNonce: bool)
    ensures var d := DataOf(t, f, useNonce);
      match IdentityOf(t, f, useNonce)
      case Transaction(id) => d.transactionId == Some(id) && d.nonce == None
      case Nonce(n) => d.transactionId == None && d.nonce == Some(n)
      case Neither => d.transactionId == None && d.nonce == None
  {
    NamesDiffer();
    NormalisedFields(f, "transaction_uuid");
    NormalisedFields(f, "x-transaction-uuid");
    NormalisedFields(f, "nonce");
    IncludesExactly(t.path, "p2p-transfers");
    var n := Normalise(f);
    assert Given(n.headers, "transaction_uuid") <==> Given(f.headers, "transaction_uuid");
    hide Normalise, Includes, HasAt;
  }

  lemma SameQueryExactly(f: Fields, g: Fields)
    ensures Normalise(f).query == Normalise(g).query <==> SameQuery(f, g)
  {
    forall name: string
      ensures name in Normalise(f).query <==> name in f.query && !MovesAway(f, name)
      ensures name in Normalise(f).query ==> Normalise(f).query[name] == f.query[name]
      ensures name in Normalise(g).query <==> name in g.query && !MovesAway(g, name)
      ensures name in Normalise(g).query ==> Normalise(g).query[name] == g.query[name]
    {
      NormalisedFields(f, name);
      NormalisedFields(g, name);
    }
    hide Normalise, MovesAway;
    if SameQuery(f, g) { assert Normalise(f).query.Keys == Normalise(g).query.Keys; }
    if Normalise(f).query == Normalise(g).query {
      forall name: string
        ensures name in f.query && !MovesAway(f, name) <==> name in g.query && !MovesAway(g, name)
        ensures name in f.query && !MovesAway(f, name) && name in g.query ==> f.query[name] == g.query[name]
      {
        assert name in Normalise(f).query <==> name in Normalise(g).query;
      }
    }
  }

  /** Exactly the requests that are the same in all of these get the same key. */
  lemma SameKeyExactly(t: Target, f: Fields, t': Target, f': Fields, useNonce: bool)
    ensures ReplayKey(DataOf(t, f, useNonce)) == ReplayKey(DataOf(t', f', useNonce)) <==>
      SameRequest(t, f, t', f', useNonce)
  {
    IdentityIsHashed(t, f, useNonce);
    IdentityIsHashed(t', f', useNonce);
    SameQueryExactly(f, f');
    hide Normalise, IdentityOf, SameQuery, IdentifiedTransfer;
  }
}
