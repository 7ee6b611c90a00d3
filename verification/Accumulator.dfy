/**
 * The agent's accumulator: one bucket per key, updated in place. The functions on
 * `map<Key, State>` are the specification of the class; `Group` is the reference
 * (group the events by key, fold each group in arrival order).
 */
module Accumulator {
  import opened Prelude
  import opened FlowState

  type Flows = map<Key, State>

  // ---------------------------------------------------------------- specification

  function AddEvent(m: Flows, e: Metric): Flows {
    var k := KeyOf(e);
    m[k := ApplyEvent(if k in m then m[k] else NewState(k), e)]
  }

  function AddState(m: Flows, s: State): Flows {
    m[s.key := if s.key in m then MergeStates(m[s.key], s) else s]
  }

  function AddAll(m: Flows, states: seq<State>): Flows {
    if states == [] then m else AddState(AddAll(m, Init(states)), Last(states))
  }

  /** `states` lists the buckets of `m`, each once, in some order. */
  ghost predicate Enumerates(states: seq<State>, m: Flows) {
    && (forall s :: s in states ==> s.key in m && m[s.key] == s)
    && (forall k :: k in m ==> m[k] in states)
    && (forall i, j :: 0 <= i < j < |states| ==> states[i].key != states[j].key)
  }

  ghost predicate WellKeyed(m: Flows) { forall k :: k in m ==> m[k].key == k }

  // ---------------------------------------------------------------- reference

  /** The events of one key, in arrival order. */
  function Select(k: Key, xs: seq<Metric>): (r: seq<Metric>)
    ensures SameKey(k, r)
  {
    if xs == [] then [] else if KeyOf(Last(xs)) == k then Select(k, Init(xs)) + [Last(xs)] else Select(k, Init(xs))
  }

  function Keys(xs: seq<Metric>): set<Key> {
    if xs == [] then {} else Keys(Init(xs)) + {KeyOf(Last(xs))}
  }

  lemma {:induction false} KeysConcat(xs: seq<Metric>, ys: seq<Metric>)
    ensures Keys(xs + ys) == Keys(xs) + Keys(ys)
  {
    if ys == [] {
      assert xs + ys == xs;
    } else {
      InitOfConcat(xs, ys);
      KeysConcat(xs, Init(ys));
    }
  }

  /** The bucket a key has after these events. */
  function BucketOf(k: Key, xs: seq<Metric>): State { Fold(k, Select(k, xs)) }

  function Group(xs: seq<Metric>): Flows {
    map k | k in Keys(xs) :: BucketOf(k, xs)
  }

  lemma {:induction false} FoldKey(k: Key, xs: seq<Metric>)
    ensures Fold(k, xs).key == k
  {
    if xs != [] { FoldKey(k, Init(xs)); }
  }

  lemma GroupWellKeyed(xs: seq<Metric>)
    ensures WellKeyed(Group(xs))
  {
    forall k | k in Group(xs) ensures Group(xs)[k].key == k { FoldKey(k, Select(k, xs)); }
  }

  lemma {:induction false} SelectAbsent(k: Key, xs: seq<Metric>)
    ensures k in Keys(xs) <==> Select(k, xs) != []
  {
    if xs != [] {
      SelectAbsent(k, Init(xs));
    }
  }

  lemma {:induction false} SelectConcat(k: Key, xs: seq<Metric>, ys: seq<Metric>)
    ensures Select(k, xs + ys) == Select(k, xs) + Select(k, ys)
  {
    if ys == [] {
      assert xs + ys == xs;
    } else {
      InitOfConcat(xs, ys);
      SelectConcat(k, xs, Init(ys));
    }
  }

  lemma SelectSnoc(k: Key, xs: seq<Metric>, e: Metric)
    ensures Select(k, xs + [e]) == if KeyOf(e) == k then Select(k, xs) + [e] else Select(k, xs)
    ensures Keys(xs + [e]) == Keys(xs) + {KeyOf(e)}
  {
    assert Init(xs + [e]) == xs;
  }

  lemma FoldSnoc(k: Key, xs: seq<Metric>, e: Metric)
    ensures Fold(k, xs + [e]) == ApplyEvent(Fold(k, xs), e)
  {
    hide ApplyEvent;
    assert Init(xs + [e]) == xs;
  }

  lemma AddEventBucket(xs: seq<Metric>, e: Metric)
    ensures var k := KeyOf(e);
            ApplyEvent(if k in Keys(xs) then BucketOf(k, xs) else NewState(k), e) == BucketOf(k, xs + [e])
  {
    hide ApplyEvent;
    var k := KeyOf(e);
    SelectSnoc(k, xs, e);
    SelectAbsent(k, xs);
    FoldSnoc(k, Select(k, xs), e);
  }

  lemma OtherBucket(k: Key, xs: seq<Metric>, e: Metric)
    requires k != KeyOf(e)
    ensures BucketOf(k, xs + [e]) == BucketOf(k, xs)
  {
    SelectSnoc(k, xs, e);
  }

  lemma GroupSnoc(xs: seq<Metric>, e: Metric)
    ensures Group(xs + [e]) == Group(xs)[KeyOf(e) := BucketOf(KeyOf(e), xs + [e])]
  {
    hide BucketOf;
    SelectSnoc(KeyOf(e), xs, e);
    var g, h := Group(xs), Group(xs + [e]);
    assert h.Keys == g.Keys + {KeyOf(e)};
    forall k | k in h && k != KeyOf(e) ensures h[k] == g[k] { OtherBucket(k, xs, e); }
  }

  /** One more event: updating its bucket in place is regrouping the longer sequence. */
  lemma AddEventGroups(xs: seq<Metric>, e: Metric)
    ensures AddEvent(Group(xs), e) == Group(xs + [e])
  {
    AddEventBucket(xs, e);
    GroupSnoc(xs, e);
  }

  /** The bucket of `k` once the keys in `done` also took in the events `ys`. */
  function MergedAt(xs: seq<Metric>, ys: seq<Metric>, done: set<Key>, k: Key): State {
    if k in done then BucketOf(k, xs + ys) else BucketOf(k, xs)
  }

  function Merged(xs: seq<Metric>, ys: seq<Metric>, done: set<Key>): Flows {
    map k | k in Keys(xs) + done :: MergedAt(xs, ys, done, k)
  }

  lemma AbsorbOneValue(xs: seq<Metric>, ys: seq<Metric>, k: Key)
    requires k in Keys(ys)
    ensures k in Keys(xs) ==> MergeStates(BucketOf(k, xs), BucketOf(k, ys)) == BucketOf(k, xs + ys)
    ensures k !in Keys(xs) ==> BucketOf(k, ys) == BucketOf(k, xs + ys)
  {
    hide MergeStates, Fold, Select, Keys;
    SelectConcat(k, xs, ys);
    SelectAbsent(k, xs);
    if k in Keys(xs) {
      MergeHomomorphism(k, Select(k, xs), Select(k, ys));
    } else {
      assert Select(k, xs) + Select(k, ys) == Select(k, ys);
    }
  }

  /** Absorbing one drained bucket moves one key from pending-only to merged. */
  lemma AbsorbOne(xs: seq<Metric>, ys: seq<Metric>, done: set<Key>, k: Key)
    requires k !in done && k in Keys(ys)
    ensures AddState(Merged(xs, ys, done), BucketOf(k, ys)) == Merged(xs, ys, done + {k})
  {
    hide MergeStates, Fold, Select, Keys;
    var a, s := Merged(xs, ys, done), BucketOf(k, ys);
    FoldKey(k, Select(k, ys));
    AbsorbOneValue(xs, ys, k);
    var v := BucketOf(k, xs + ys);
    assert AddState(a, s) == a[k := v];
    assert Merged(xs, ys, done + {k}) == a[k := v] by { ExtendMerged(xs, ys, done, k, v); }
  }

  lemma ExtendMerged(xs: seq<Metric>, ys: seq<Metric>, done: set<Key>, k: Key, v: State)
    requires v == BucketOf(k, xs + ys)
    ensures Merged(xs, ys, done + {k}) == Merged(xs, ys, done)[k := v]
  {
  }

  function KeySet(states: seq<State>): set<Key> {
    if states == [] then {} else KeySet(Init(states)) + {Last(states).key}
  }

  lemma {:induction false} KeySetMember(states: seq<State>, k: Key)
    ensures k in KeySet(states) <==> exists i :: 0 <= i < |states| && states[i].key == k
  {
    if states != [] {
      KeySetMember(Init(states), k);
      assert states[|states| - 1] == Last(states);
      if i :| 0 <= i < |Init(states)| && Init(states)[i].key == k { assert states[i].key == k; }
    }
  }

  /** `states` are buckets of `ys`, each key at most once. */
  ghost predicate BucketsOf(states: seq<State>, ys: seq<Metric>) {
    && (forall i :: 0 <= i < |states| ==> states[i].key in Keys(ys) && states[i] == Group(ys)[states[i].key])
    && (forall i, j :: 0 <= i < j < |states| ==> states[i].key != states[j].key)
  }

  lemma {:induction false} AddAllPrefix(xs: seq<Metric>, ys: seq<Metric>, states: seq<State>)
    requires BucketsOf(states, ys)
    ensures AddAll(Group(xs), states) == Merged(xs, ys, KeySet(states))
  {
    if states == [] {
      assert Merged(xs, ys, {}) == Group(xs);
    } else {
      var rest, s := Init(states), Last(states);
      assert BucketsOf(rest, ys);
      AddAllPrefix(xs, ys, rest);
      KeySetMember(rest, s.key);
      AbsorbOne(xs, ys, KeySet(rest), s.key);
    }
  }

  lemma AllKeysDrained(ys: seq<Metric>, states: seq<State>)
    requires Enumerates(states, Group(ys))
    ensures BucketsOf(states, ys) && KeySet(states) == Keys(ys)
  {
    forall i | 0 <= i < |states| ensures states[i].key in Keys(ys) && states[i] == Group(ys)[states[i].key] {
      assert states[i] in states;
    }
    GroupWellKeyed(ys);
    forall k ensures k in KeySet(states) <==> k in Keys(ys) {
      KeySetMember(states, k);
      if k in Keys(ys) {
        assert Group(ys)[k] in states;
        var i :| 0 <= i < |states| && states[i] == Group(ys)[k];
        assert states[i].key == k;
      }
    }
  }

  lemma MergedAll(xs: seq<Metric>, ys: seq<Metric>)
    ensures Merged(xs, ys, Keys(ys)) == Group(xs + ys)
  {
    KeysConcat(xs, ys);
    forall k | k in Keys(xs + ys) ensures MergedAt(xs, ys, Keys(ys), k) == BucketOf(k, xs + ys) {
      if k !in Keys(ys) {
        SelectConcat(k, xs, ys);
        SelectAbsent(k, ys);
        assert Select(k, xs) + Select(k, ys) == Select(k, xs);
      }
    }
  }

  /** Putting a drained batch back is as if its events had arrived after the pending ones. */
  lemma AddAllGroups(xs: seq<Metric>, ys: seq<Metric>, states: seq<State>)
    requires Enumerates(states, Group(ys))
    ensures AddAll(Group(xs), states) == Group(xs + ys)
  {
    AllKeysDrained(ys, states);
    AddAllPrefix(xs, ys, states);
    MergedAll(xs, ys);
  }

  lemma EmptyBatch(m: Flows)
    requires Enumerates([], m)
    ensures m == map[]
  {
  }

  lemma EnumeratesOneMore(states: seq<State>, m: Flows, s: State)
    requires Enumerates(states, m) && WellKeyed(m) && s.key !in m
    ensures Enumerates(states + [s], m[s.key := s]) && WellKeyed(m[s.key := s])
  {
    var r := m[s.key := s];
    assert s in states + [s];
    forall k | k in r ensures r[k] in states + [s] {
      if k != s.key { assert m[k] in states; }
    }
    forall i | 0 <= i < |states| ensures states[i].key != s.key { assert states[i] in states; }
  }

  lemma {:induction false} AddAllDistinct(states: seq<State>)
    requires forall i, j :: 0 <= i < j < |states| ==> states[i].key != states[j].key
    ensures Enumerates(states, AddAll(map[], states)) && WellKeyed(AddAll(map[], states))
  {
    if states != [] {
      var rest, s := Init(states), Last(states);
      AddAllDistinct(rest);
      var m := AddAll(map[], rest);
      assert s.key !in m;
      EnumeratesOneMore(rest, m, s);
      assert rest + [s] == states;
    }
  }

  lemma EnumerationDetermines(states: seq<State>, m: Flows, r: Flows)
    requires Enumerates(states, m) && WellKeyed(m) && Enumerates(states, r) && WellKeyed(r)
    ensures m == r
  {
    forall k | k in m ensures k in r && r[k] == m[k] { assert m[k] in states; }
    forall k | k in r ensures k in m { assert r[k] in states; }
  }

  /** Draining and putting the batch back is the identity on every accumulator. */
  lemma DrainThenAddAll(m: Flows, states: seq<State>)
    requires WellKeyed(m) && Enumerates(states, m)
    ensures AddAll(map[], states) == m
  {
    AddAllDistinct(states);
    EnumerationDetermines(states, m, AddAll(map[], states));
  }

  // ---------------------------------------------------------------- one bucket, in place

  class Bucket {
    var s: State

    constructor (initial: State)
      ensures s == initial
    {
      s := initial;
    }

    method ApplyBytes(flowDirection: string, byteCount: nat)
      modifies this
      ensures s == old(s).(sent := if flowDirection == INGRESS then old(s).sent else old(s).sent + byteCount,
                           received := if flowDirection == INGRESS then old(s).received + byteCount else old(s).received)
    {
      if byteCount == 0 { return; }
      if flowDirection == INGRESS {
        s := s.(received := s.received + byteCount);
        return;
      }
      s := s.(sent := s.sent + byteCount);
    }

    method ApplyConnectionEvent(e: Metric)
      modifies this
      ensures s == old(s).(connection := ApplyConnection(old(s).connection, e))
    {
      var m := s.connection;
      var connections, errors := Narrow(e.connectionCount), Narrow(e.errorCount);
      if connections > 0 { m := m.(open := m.open + connections); }
      if errors > 0 { m := m.(errors := m.errors + errors); }
      var requests := Narrow(e.requestCount);
      if requests == 0 {
        requests := InferRequestCount(e.protocol, e.direction, e.byteCount, connections, errors);
      }
      if requests > 0 { m := m.(requests := m.requests + requests); }
      s := s.(connection := m);
    }

    method ApplyRttSample(valueMs: real)
      modifies this
      ensures s == old(s).(rtt := ApplyRtt(old(s).rtt, valueMs))
    {
      if valueMs <= 0.0 { return; }
      var m := s.rtt.(current := valueMs);
      if m.samples == 0 || valueMs < m.min { m := m.(min := valueMs); }
      if valueMs > m.max { m := m.(max := valueMs); }
      m := m.(samples := m.samples + 1);
      m := m.(avg := m.avg + (valueMs - m.avg) / m.samples as real);
      s := s.(rtt := m);
    }

    method ApplyDelaySample(valueMs: real)
      modifies this
      ensures s == old(s).(delay := ApplyDelay(old(s).delay, valueMs))
    {
      if valueMs <= 0.0 { return; }
      var m := s.delay.(samples := s.delay.samples + 1);
      m := m.(avg := m.avg + (valueMs - m.avg) / m.samples as real);
      s := s.(delay := m);
    }

    method RecordStatus(status: int)
      modifies this
      ensures s == old(s).(http := ApplyStatus(old(s).http, status))
    {
      if status < 100 || status > 599 { return; }
      var m := s.http;
      if status / 100 == 1 {
        m := m.(informational := m.informational + 1);
      } else if status / 100 == 2 {
        m := m.(success := m.success + 1);
      } else if status / 100 == 3 {
        m := m.(redirect := m.redirect + 1);
      } else if status / 100 == 4 {
        m := m.(clientError := m.clientError + 1);
      } else {
        m := m.(serverError := m.serverError + 1);
      }
      s := s.(http := m.(last := status));
    }

    method ClaimPort(port: int)
      modifies this
      ensures s == old(s).(srcPort := if old(s).srcPort == 0 && port > 0 then port else old(s).srcPort)
    {
      if s.srcPort == 0 && port > 0 { s := s.(srcPort := port); }
    }

    method Touch(first: int, last: int)
      modifies this
      ensures s == old(s).(firstSeen := EarlierSeen(old(s).firstSeen, first), lastSeen := Max(old(s).lastSeen, last))
    {
      if s.firstSeen == 0 || (first != 0 && first < s.firstSeen) { s := s.(firstSeen := first); }
      if last > s.lastSeen { s := s.(lastSeen := last); }
    }

    method Apply(e: Metric)
      modifies this
      ensures s == ApplyEvent(old(s), e)
    {
      ClaimPort(e.srcPort);
      ApplyBytes(e.direction, NonNegative(e.byteCount));
      s := s.(packets := s.packets + NonNegative(e.packetCount), direction := e.direction);
      ApplyConnectionEvent(e);
      ApplyRttSample(e.rttMs);
      s := s.(retrans := s.retrans + NonNegative(e.retransCount));
      ApplyDelaySample(e.appDelayMs);
      RecordStatus(e.httpStatus);
      s := s.(classification := Classify(KeyOf(e)));
      Touch(e.firstSeen, e.lastSeen);
    }

    method AbsorbRtt(next: Rtt)
      modifies this
      ensures s == old(s).(rtt := MergeRtt(old(s).rtt, next))
    {
      if next.samples == 0 { return; }
      if s.rtt.samples == 0 {
        s := s.(rtt := next);
        return;
      }
      var m := s.rtt;
      m := m.(avg := PooledMean(m.avg, m.samples, next.avg, next.samples));
      m := m.(samples := m.samples + next.samples);
      m := m.(current := next.current);
      if m.min == 0.0 || (next.min > 0.0 && next.min < m.min) { m := m.(min := next.min); }
      if next.max > m.max { m := m.(max := next.max); }
      s := s.(rtt := m);
    }

    method Merge(next: State)
      modifies this
      ensures s == MergeStates(old(s), next)
    {
      ClaimPort(next.srcPort);
      s := s.(sent := s.sent + next.sent, received := s.received + next.received,
              packets := s.packets + next.packets);
      if next.direction != "" { s := s.(direction := next.direction); }
      s := s.(connection := Connection(s.connection.open + next.connection.open,
                                       s.connection.errors + next.connection.errors,
                                       s.connection.requests + next.connection.requests));
      AbsorbRtt(next.rtt);
      s := s.(retrans := s.retrans + next.retrans, delay := MergeDelay(s.delay, next.delay),
              http := MergeStatus(s.http, next.http));
      if next.classification != NO_CLASS { s := s.(classification := next.classification); }
      Touch(next.firstSeen, next.lastSeen);
    }
  }

  // ---------------------------------------------------------------- the map of buckets

  class Store {
    var flows: map<Key, Bucket>

    ghost predicate Valid()
      reads this, flows.Values
    {
      forall k :: k in flows ==> flows[k].s.key == k
    }

    ghost function View(): Flows
      reads this, flows.Values
    {
      map k | k in flows :: flows[k].s
    }

    constructor ()
      ensures Valid() && View() == map[]
    {
      flows := map[];
    }

    method Add(e: Metric)
      requires Valid()
      modifies this, flows.Values
      ensures Valid() && View() == AddEvent(old(View()), e)
      ensures fresh(flows.Values - old(flows.Values))
    {
      var key := KeyOf(e);
      if key !in flows {
        var current := new Bucket(NewState(key));
        flows := flows[key := current];
      }
      flows[key].Apply(e);
    }

    method Absorb(state: State)
      requires Valid()
      modifies this, flows.Values
      ensures Valid() && View() == AddState(old(View()), state)
      ensures fresh(flows.Values - old(flows.Values))
    {
      if state.key !in flows {
        var copy := new Bucket(state);
        flows := flows[state.key := copy];
        return;
      }
      flows[state.key].Merge(state);
    }

    method AbsorbAll(states: seq<State>)
      requires Valid()
      modifies this, flows.Values
      ensures Valid() && View() == AddAll(old(View()), states)
    {
      for i := 0 to |states|
        invariant Valid() && View() == AddAll(old(View()), states[..i])
        invariant fresh(flows.Values - old(flows.Values))
      {
        assert Init(states[..i + 1]) == states[..i];
        Absorb(states[i]);
      }
      assert states[..|states|] == states;
    }

    /** The order of the batch is the map's, hence unspecified. */
    method Drain() returns (states: seq<State>)
      requires Valid()
      modifies this
      ensures Enumerates(states, old(View())) && flows == map[]
    {
      states := [];
      var rest := flows.Keys;
      while rest != {}
        invariant rest <= flows.Keys && flows == old(flows) && Valid()
        invariant forall s :: s in states ==> s.key in View() && View()[s.key] == s && s.key !in rest
        invariant forall k :: k in flows.Keys - rest ==> View()[k] in states
        invariant forall i, j :: 0 <= i < j < |states| ==> states[i].key != states[j].key
        decreases rest
      {
        var k :| k in rest;
        states := states + [flows[k].s];
        rest := rest - {k};
      }
      assert forall k :: k in flows ==> View()[k] in states;
      flows := map[];
    }
  }
}
