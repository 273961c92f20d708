/** Creation of the topics a service needs, and of the partitions they lack. */
module KafkaTopics {

  const REPLY := ".reply"

  /** An empty prefix is none. */
  function ApplyPrefix(prefix: string, topic: string): string {
    if prefix == "" then topic else prefix + "." + topic
  }

  predicate StartsWith(s: string, prefix: string) {
    prefix <= s
  }

  function Map(f: string -> string, s: seq<string>): (r: seq<string>)
    ensures |r| == |s| && forall i :: 0 <= i < |s| ==> r[i] == f(s[i])
  {
    seq(|s|, i requires 0 <= i < |s| => f(s[i]))
  }

  function Filter(keep: string -> bool, s: seq<string>): (r: seq<string>)
    ensures forall t :: t in r <==> t in s && keep(t)
  {
    if s == [] then [] else Filter(keep, s[..|s| - 1]) + (if keep(s[|s| - 1]) then [s[|s| - 1]] else [])
  }

  function Names(s: seq<string>): set<string> {
    set t | t in s
  }

  /** The first occurrences. */
  function Distinct(s: seq<string>): (r: seq<string>)
    ensures forall t :: t in r <==> t in s
    ensures forall i, j :: 0 <= i < j < |r| ==> r[i] != r[j]
  {
    if s == [] then []
    else
      var front := Distinct(s[..|s| - 1]);
      if s[|s| - 1] in front then front else front + [s[|s| - 1]]
  }

  /** Every pattern, its reply topic, and every event, all with the prefix. */
  function Requested(prefix: string, patterns: seq<string>, events: seq<string>): seq<string> {
    Map(t => ApplyPrefix(prefix, t), patterns + Map(p => p + REPLY, patterns) + events)
  }

  /** Number of partitions of each topic. */
  type Topics = map<string, nat>

  /** Requested topics have at least n partitions; the others and any surplus stay. */
  function Reconciled(topics: Topics, requested: set<string>, n: nat): Topics {
    map t | t in topics.Keys + requested ::
      if t in topics && (t !in requested || topics[t] >= n) then topics[t] else n
  }

  function Missing(requested: seq<string>, known: set<string>): (r: seq<string>)
    ensures forall t :: t in r <==> t in requested && t !in known
  {
    Filter(t => t !in known, requested)
  }

  /** Topics with too few partitions, each once. */
  function Short(requested: seq<string>, topics: Topics, n: nat): (r: seq<string>)
    ensures forall t :: t in r <==> t in requested && t in topics && topics[t] < n
    ensures forall i, j :: 0 <= i < j < |r| ==> r[i] != r[j]
  {
    ShortIsDistinct(t => t in topics && topics[t] < n, Distinct(requested));
    Filter(t => t in topics && topics[t] < n, Distinct(requested))
  }

  class Admin {
    var topics: Topics

    constructor (topics: Topics)
      ensures this.topics == topics
    {
      this.topics := topics;
    }

    method ListTopics() returns (names: set<string>)
      ensures names == topics.Keys
    {
      names := topics.Keys;
    }

    /** Creating a topic that exists does nothing. */
    method CreateTopic(topic: string, numPartitions: nat)
      modifies this
      ensures topics == if topic in old(topics) then old(topics) else old(topics)[topic := numPartitions]
    {
      if topic !in topics { topics := topics[topic := numPartitions]; }
    }

    /** Partitions can only be added. */
    method CreatePartitions(topic: string, count: nat)
      requires topic in topics && topics[topic] < count
      modifies this
      ensures topics == old(topics)[topic := count]
    {
      topics := topics[topic := count];
    }
  }

  class KafkaService {
    const topicPrefix: string
    const numPartitions: nat
    const admin: Admin
    var topics: seq<string>
    var events: seq<string>

    constructor (topicPrefix: string, numPartitions: nat, admin: Admin)
      ensures this.topicPrefix == topicPrefix && this.numPartitions == numPartitions && this.admin == admin
      ensures topics == [] && events == []
    {
      this.topicPrefix, this.numPartitions, this.admin := topicPrefix, numPartitions, admin;
      topics, events := [], [];
    }

    /** Keeps what is new in the order given; what is given twice at once is kept twice. */
    method Subscribe(more: seq<string>)
      modifies this`topics
      ensures old(topics) <= topics
      ensures forall t :: t in topics <==> t in old(topics) || t in more
      ensures topics == old(topics) + Filter(t => t !in old(topics), more)
    {
      var known := topics;
      var added := Filter(t => t !in known, more);
      for i := 0 to |added|
        invariant topics == known + added[..i]
      {
        topics := topics + [added[i]];
      }
      assert added[..|added|] == added;
    }

    method CreateEvents(more: seq<string>)
      modifies this`events
      ensures old(events) <= events
      ensures forall t :: t in events <==> t in old(events) || t in more
      ensures events == old(events) + Filter(t => t !in old(events), more)
    {
      var known := events;
      var added := Filter(t => t !in known, more);
      for i := 0 to |added|
        invariant events == known + added[..i]
      {
        events := events + [added[i]];
      }
      assert added[..|added|] == added;
    }

    /** Reconciles the broker with the requested topics. */
    method CreateTopics(patterns: seq<string>, events: seq<string>)
      modifies admin
      ensures admin.topics
        == Reconciled(old(admin.topics), Names(Requested(topicPrefix, patterns, events)), numPartitions)
    {
      var requested := Requested(topicPrefix, patterns, events);
      ghost var before, wanted := admin.topics, Names(requested);
      if |patterns| == 0 && |events| == 0 {
        assert requested == [];
        return;
      }
      var knownTopics := admin.ListTopics();
      if topicPrefix != "" {
        knownTopics := set t | t in knownTopics && StartsWith(t, topicPrefix);
      }
      PrefixHidesNothing(topicPrefix, patterns, events);
      var missing := Missing(requested, knownTopics);
      assert Names(missing) == wanted - before.Keys;
      CreateMissing(missing);
      var short := Short(requested, admin.topics, numPartitions);
      AddPartitions(short);
      TwoStepsReconcile(before, requested, numPartitions);
    }

    /** Creates topics one by one. */
    method CreateMissing(missing: seq<string>)
      modifies admin
      ensures admin.topics == Created(old(admin.topics), Names(missing), numPartitions)
    {
      assert Created(admin.topics, {}, numPartitions) == admin.topics;
      for i := 0 to |missing|
        invariant admin.topics == Created(old(admin.topics), Names(missing[..i]), numPartitions)
      {
        admin.CreateTopic(missing[i], numPartitions);
        assert Names(missing[..i + 1]) == Names(missing[..i]) + {missing[i]};
      }
      assert missing[..|missing|] == missing;
    }

    /** Adds partitions to topics one by one. */
    method AddPartitions(short: seq<string>)
      requires forall i, j :: 0 <= i < j < |short| ==> short[i] != short[j]
      requires forall t :: t in short ==> t in admin.topics && admin.topics[t] < numPartitions
      modifies admin
      ensures admin.topics == Raised(old(admin.topics), Names(short), numPartitions)
    {
      assert Raised(admin.topics, {}, numPartitions) == admin.topics;
      for i := 0 to |short|
        invariant admin.topics == Raised(old(admin.topics), Names(short[..i]), numPartitions)
      {
        assert short[i] in short && short[i] !in Names(short[..i]);
        admin.CreatePartitions(short[i], numPartitions);
        assert Names(short[..i + 1]) == Names(short[..i]) + {short[i]};
      }
      assert short[..|short|] == short;
    }
  }

  function Created(topics: Topics, missing: set<string>, n: nat): Topics {
    map t | t in topics.Keys + missing :: if t in topics then topics[t] else n
  }

  function Raised(topics: Topics, short: set<string>, n: nat): Topics {
    map t | t in topics :: if t in short then n else topics[t]
  }

  /** Creating what is missing and then adding partitions reconciles. */
  lemma TwoStepsReconcile(topics: Topics, requested: seq<string>, n: nat)
    ensures var created := Created(topics, Names(requested) - topics.Keys, n);
            Raised(created, Names(Short(requested, created, n)), n) == Reconciled(topics, Names(requested), n)
  {
    var created := Created(topics, Names(requested) - topics.Keys, n);
    assert created.Keys == topics.Keys + Names(requested);
  }

  lemma {:induction false} ShortIsDistinct(keep: string -> bool, s: seq<string>)
    requires forall i, j :: 0 <= i < j < |s| ==> s[i] != s[j]
    ensures forall i, j :: 0 <= i < j < |Filter(keep, s)| ==> Filter(keep, s)[i] != Filter(keep, s)[j]
  {
    if s != [] { ShortIsDistinct(keep, s[..|s| - 1]); }
  }

  /** Every requested topic passes the filter on known topics, so none that exists is taken for missing. */
  lemma PrefixHidesNothing(prefix: string, patterns: seq<string>, events: seq<string>)
    ensures forall t :: t in Requested(prefix, patterns, events) ==> StartsWith(t, prefix)
  {
    forall t | t in Requested(prefix, patterns, events)
      ensures StartsWith(t, prefix)
    {
      var all := patterns + Map(p => p + REPLY, patterns) + events;
      var i :| 0 <= i < |all| && t == ApplyPrefix(prefix, all[i]);
    }
  }

  /** Every pattern, every pattern with ".reply" after it, and every event. */
  ghost predicate Asked(patterns: seq<string>, events: seq<string>, name: string) {
    name in patterns || name in events || exists p :: p in patterns && name == p + ".reply"
  }

  lemma AskedIsRequested(prefix: string, patterns: seq<string>, events: seq<string>, name: string)
    requires Asked(patterns, events, name)
    ensures ApplyPrefix(prefix, name) in Requested(prefix, patterns, events)
  {
    var replies := Map(p => p + REPLY, patterns);
    var all := patterns + replies + events;
    if name !in patterns && name !in events {
      var p :| p in patterns && name == p + ".reply";
      var k :| 0 <= k < |patterns| && patterns[k] == p;
      assert replies[k] == name;
    }
    assert name in all;
    var i :| 0 <= i < |all| && all[i] == name;
    assert Requested(prefix, patterns, events)[i] == ApplyPrefix(prefix, name);
  }

  lemma RequestedIsAsked(prefix: string, patterns: seq<string>, events: seq<string>, t: string) returns (name: string)
    requires t in Requested(prefix, patterns, events)
    ensures Asked(patterns, events, name) && t == ApplyPrefix(prefix, name)
  {
    var replies := Map(p => p + REPLY, patterns);
    var r := Requested(prefix, patterns, events);
    var i :| 0 <= i < |r| && r[i] == t;
    name := (patterns + replies + events)[i];
    if |patterns| <= i < |patterns| + |replies| {
      var p := patterns[i - |patterns|];
      assert p in patterns && name == p + ".reply";
    }
  }

  /** What is requested is what was asked for, each behind the prefix and a dot if there is a prefix. */
  lemma RequestedAre(prefix: string, patterns: seq<string>, events: seq<string>, t: string)
    ensures t in Requested(prefix, patterns, events) <==>
      exists name :: Asked(patterns, events, name) && t == (if prefix == "" then name else prefix + "." + name)
  {
    hide Requested, Asked;
    if t in Requested(prefix, patterns, events) {
      var name := RequestedIsAsked(prefix, patterns, events, t);
      assert Asked(patterns, events, name) && t == (if prefix == "" then name else prefix + "." + name);
    }
    if name :| Asked(patterns, events, name) && t == (if prefix == "" then name else prefix + "." + name) {
      AskedIsRequested(prefix, patterns, events, name);
    }
  }

  /**
   * What reconciliation achieves: all that was asked for is there, with the partitions it had or n if those are more;
   * nothing else is touched.
   */
  lemma ReconciledIsEnough(topics: Topics, requested: set<string>, n: nat)
    ensures var r := Reconciled(topics, requested, n);
      && (forall t :: t in r <==> t in topics || t in requested)
      && (forall t :: t in topics && t !in requested ==> r[t] == topics[t])
      && (forall t :: t in topics && t in requested ==> r[t] >= n && r[t] >= topics[t] && r[t] in {n, topics[t]})
      && (forall t :: t !in topics && t in requested ==> r[t] == n)
  {
  }

  /** It changes nothing exactly if all that was asked for is there. */
  lemma NothingToDo(topics: Topics, requested: set<string>, n: nat)
    ensures Reconciled(topics, requested, n) == topics <==> forall t :: t in requested ==> t in topics && topics[t] >= n
  {
    var r := Reconciled(topics, requested, n);
    if r == topics {
      forall t | t in requested
        ensures t in topics && topics[t] >= n
      {
        assert t in r;
      }
    }
    if forall t :: t in requested ==> t in topics && topics[t] >= n {
      assert r.Keys == topics.Keys;
    }
  }

  lemma SecondRunChangesNothing(topics: Topics, requested: set<string>, n: nat)
    ensures Reconciled(Reconciled(topics, requested, n), requested, n) == Reconciled(topics, requested, n)
  {
    NothingToDo(Reconciled(topics, requested, n), requested, n);
  }

  /** Services may start in any order, whatever topics and partition numbers they share. */
  lemma ServicesCommute(topics: Topics, a: set<string>, m: nat, b: set<string>, n: nat)
    ensures Reconciled(Reconciled(topics, a, m), b, n) == Reconciled(Reconciled(topics, b, n), a, m)
  {
    var x, y := Reconciled(Reconciled(topics, a, m), b, n), Reconciled(Reconciled(topics, b, n), a, m);
    assert x.Keys == y.Keys;
  }
}
