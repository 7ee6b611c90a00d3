/**
 * Throttle and fan-out joined. A flush that was taken waits until its broadcast ends; in the
 * meantime the broadcast offers it to the clients one by one, while other broadcasts, timers
 * and connections go on. This module says in which order the flushes of a kind reach each
 * client's channel. A step that is not enabled changes nothing.
 */
module HubClients {
  import opened Prelude
  import T = HubThrottle
  import F = HubFanout
  import D = HubDelivery

  /** The two runs so far, and which flush each broadcast carries. */
  datatype Joint = Joint(throttle: seq<T.Step>, fan: seq<F.Step>, carried: map<F.BroadcastId, T.Flush>)

  datatype Step =
    | Submit(kind: T.Kind, payload: T.Payload, interval: int, at: int)
    | Fire(timer: nat, at: int)
    | Start(broadcast: F.BroadcastId, item: nat)    // the flush that waits at `item` begins to be broadcast
    | Finish(broadcast: F.BroadcastId, item: nat)   // its broadcast ends, and it waits no longer
    | Plain(broadcast: F.BroadcastId)               // a broadcast that carries no flush begins
    | PlainEnd(broadcast: F.BroadcastId)            // and ends
    | Other(move: F.Step)                           // a client connects, leaves, is offered a payload or reads one

  const START := Joint([], [], map[])

  function Throttle(j: Joint): T.Hub { T.Run(j.throttle) }

  function Fan(j: Joint): F.Hub { F.Run(j.fan) }

  predicate Enabled(j: Joint, step: Step) {
    var th, fn := Throttle(j), Fan(j);
    match step
    case Submit(_, _, _, _) => true
    case Fire(_, _) => true
    case Start(b, k) => k < |th.outbox| && b !in fn.begun && forall x :: x in j.carried ==> j.carried[x] != th.outbox[k]
    case Finish(b, k) => b in j.carried && k < |th.outbox| && th.outbox[k] == j.carried[b] && F.Enabled(fn, F.End(b))
    case Plain(b) => b !in fn.begun
    case PlainEnd(b) => b !in j.carried
    case Other(x) => !x.Begin? && !x.End?
  }

  function Do(j: Joint, step: Step): Joint {
    if !Enabled(j, step) then j
    else
      match step
      case Submit(kind, payload, interval, now) => j.(throttle := j.throttle + [T.Submit(kind, payload, interval, now)])
      case Fire(i, now) => j.(throttle := j.throttle + [T.Fire(i, now)])
      case Start(b, k) => j.(fan := j.fan + [F.Begin(b)], carried := j.carried[b := Throttle(j).outbox[k]])
      case Finish(b, k) => j.(fan := j.fan + [F.End(b)], throttle := j.throttle + [T.Emit(k)])
      case Plain(b) => j.(fan := j.fan + [F.Begin(b)])
      case PlainEnd(b) => j.(fan := j.fan + [F.End(b)])
      case Other(x) => j.(fan := j.fan + [x])
  }

  function Run(steps: seq<Step>): Joint {
    if steps == [] then START else Do(Run(Init(steps)), Last(steps))
  }

  // ---------------------------------------------------------------- what is carried

  /**
   * Each broadcast carries its own flush, which waits while it is under way and was sent once
   * it is not; and what was sent was carried.
   */
  ghost predicate CarriedInv(th: T.Hub, fn: F.Hub, carried: map<F.BroadcastId, T.Flush>) {
    && (forall b :: b in carried ==> b in fn.begun && (carried[b] in th.outbox || carried[b] in th.sent))
    && (forall a, b :: a in carried && b in carried && carried[a] == carried[b] ==> a == b)
    && (forall b :: b in carried && b in fn.readers ==> carried[b] in th.outbox)
    && (forall f :: f in th.sent ==> SentBy(fn, carried, f))
  }

  ghost predicate SentBy(fn: F.Hub, carried: map<F.BroadcastId, T.Flush>, f: T.Flush) {
    exists b :: b in carried && carried[b] == f && b !in fn.readers
  }

  predicate Carries(carried: map<F.BroadcastId, T.Flush>, b: F.BroadcastId, kind: T.Kind) {
    b in carried && carried[b].kind == kind
  }

  /** The flushes of one kind in a channel's history are in the order they were submitted in. */
  ghost predicate ChannelInOrder(bs: seq<F.BroadcastId>, carried: map<F.BroadcastId, T.Flush>, kind: T.Kind) {
    forall i, j :: 0 <= i < j < |bs| && Carries(carried, bs[i], kind) && Carries(carried, bs[j], kind)
                   ==> carried[bs[i]].index < carried[bs[j]].index
  }

  ghost predicate ChannelsInOrder(fn: F.Hub, carried: map<F.BroadcastId, T.Flush>, kind: T.Kind) {
    forall c :: c in fn.offered ==> ChannelInOrder(fn.offered[c], carried, kind)
  }

  // ---------------------------------------------------------------- steps of the throttle

  lemma ThrottleKeeps(th: T.Hub, x: T.Step, fn: F.Hub, carried: map<F.BroadcastId, T.Flush>)
    requires CarriedInv(th, fn, carried) && !x.Emit?
    ensures CarriedInv(T.Do(th, x), fn, carried)
  {
    var out := T.Do(th, x);
    assert out.sent == th.sent && forall f :: f in th.outbox ==> f in out.outbox;
    hide T.Do;
  }

  // ---------------------------------------------------------------- begin and end of a broadcast

  lemma StartKeeps(th: T.Hub, fn: F.Hub, carried: map<F.BroadcastId, T.Flush>, b: F.BroadcastId, k: nat)
    requires CarriedInv(th, fn, carried) && k < |th.outbox| && b !in fn.begun
    requires forall x :: x in carried ==> carried[x] != th.outbox[k]
    ensures CarriedInv(th, F.Do(fn, F.Begin(b)), carried[b := th.outbox[k]])
  {
    var out, more := F.Do(fn, F.Begin(b)), carried[b := th.outbox[k]];
    assert b !in carried && out.readers == fn.readers[b := fn.clients] && out.begun == fn.begun[b := fn.clients];
    hide F.Do;
    forall f | f in th.sent ensures SentBy(out, more, f) {
      var x :| x in carried && carried[x] == f && x !in fn.readers;
      assert x in more && more[x] == f && x !in out.readers;
    }
  }

  lemma PlainKeeps(th: T.Hub, fn: F.Hub, carried: map<F.BroadcastId, T.Flush>, b: F.BroadcastId)
    requires CarriedInv(th, fn, carried) && b !in fn.begun
    ensures CarriedInv(th, F.Do(fn, F.Begin(b)), carried)
  {
    var out := F.Do(fn, F.Begin(b));
    assert b !in carried && out.readers == fn.readers[b := fn.clients] && out.begun == fn.begun[b := fn.clients];
    hide F.Do;
    forall f | f in th.sent ensures SentBy(out, carried, f) {
      var x :| x in carried && carried[x] == f && x !in fn.readers;
      assert x !in out.readers;
    }
  }

  lemma EmitMoves(th: T.Hub, k: nat)
    requires k < |th.outbox|
    ensures var out := T.Do(th, T.Emit(k));
            && out.sent == th.sent + [th.outbox[k]]
            && forall f :: f in th.outbox && f != th.outbox[k] ==> f in out.outbox
  {
    D.EmitShape(th, k);
    var out := T.Do(th, T.Emit(k));
    hide T.Do;
    forall f | f in th.outbox && f != th.outbox[k] ensures f in out.outbox {
      var i :| 0 <= i < |th.outbox| && th.outbox[i] == f;
      assert out.outbox[if i < k then i else i - 1] == f;
    }
  }

  lemma FinishKeeps(th: T.Hub, fn: F.Hub, carried: map<F.BroadcastId, T.Flush>, b: F.BroadcastId, k: nat)
    requires CarriedInv(th, fn, carried) && b in carried && k < |th.outbox| && th.outbox[k] == carried[b]
    requires F.Enabled(fn, F.End(b))
    ensures CarriedInv(T.Do(th, T.Emit(k)), F.Do(fn, F.End(b)), carried)
  {
    EmitMoves(th, k);
    var sent, out := T.Do(th, T.Emit(k)), F.Do(fn, F.End(b));
    assert out.readers == fn.readers - {b} && out.begun == fn.begun;
    hide T.Do, F.Do;
    forall f | f in sent.sent ensures SentBy(out, carried, f) {
      if f in th.sent {
        var x :| x in carried && carried[x] == f && x !in fn.readers;
        assert x !in out.readers;
      } else {
        assert f == carried[b] && b !in out.readers;
      }
    }
    assert carried[b] in sent.sent;
    forall x | x in carried ensures carried[x] in sent.outbox || carried[x] in sent.sent {
      if carried[x] in th.sent { assert carried[x] in sent.sent; }
    }
  }

  // ---------------------------------------------------------------- steps of the fan-out

  lemma EndEffect(fn: F.Hub, b: F.BroadcastId)
    ensures var out := F.Do(fn, F.End(b));
            out.begun == fn.begun && out.offered == fn.offered && out.readers.Keys <= fn.readers.Keys
  {
  }

  lemma FewerReaders(th: T.Hub, fn: F.Hub, out: F.Hub, carried: map<F.BroadcastId, T.Flush>)
    requires CarriedInv(th, fn, carried) && out.begun == fn.begun && out.readers.Keys <= fn.readers.Keys
    ensures CarriedInv(th, out, carried)
  {
    forall f | f in th.sent ensures SentBy(out, carried, f) {
      var x :| x in carried && carried[x] == f && x !in fn.readers;
      assert x !in out.readers;
    }
  }

  lemma OtherEffect(fn: F.Hub, x: F.Step)
    requires !x.Begin? && !x.End?
    ensures F.Do(fn, x).begun == fn.begun && F.Do(fn, x).readers.Keys <= fn.readers.Keys
    ensures !x.Offer? ==> forall c :: c in F.Do(fn, x).offered ==>
              F.Do(fn, x).offered[c] == if c in fn.offered then fn.offered[c] else []
  {
  }

  /** Of two broadcasts of the kind that wait, each is the other. */
  lemma WaitingIsSame(th: T.Hub, fn: F.Hub, carried: map<F.BroadcastId, T.Flush>, a: F.BroadcastId, b: F.BroadcastId, kind: T.Kind)
    requires D.Orderly(th, kind) && CarriedInv(th, fn, carried) && Carries(carried, a, kind) && Carries(carried, b, kind)
    ensures carried[a] in th.outbox && carried[b] in th.outbox ==> a == b
  {
    if carried[a] in th.outbox && carried[b] in th.outbox {
      var o :| 0 <= o < |th.outbox| && th.outbox[o] == carried[a];
      var p :| 0 <= p < |th.outbox| && th.outbox[p] == carried[b];
      assert o == p;
    }
  }

  lemma NotOfferedYet(fn: F.Hub, b: F.BroadcastId, c: F.ClientId, i: nat)
    requires F.Inv(fn) && F.Enabled(fn, F.Offer(b, c)) && i < |fn.offered[c]|
    ensures fn.offered[c][i] != b
  {
    assert F.BroadcastsInv(fn) && F.ReadersInv(fn) && F.Waiting(fn, b, c) && F.ExactlyOne(fn, b, c);
  }

  /** A new payload of the kind is newer than everything of the kind that the channel had. */
  lemma OfferedIsNewest(th: T.Hub, fn: F.Hub, carried: map<F.BroadcastId, T.Flush>, b: F.BroadcastId, c: F.ClientId,
                        kind: T.Kind, i: nat)
    requires D.Orderly(th, kind) && F.Inv(fn) && CarriedInv(th, fn, carried) && F.Enabled(fn, F.Offer(b, c))
    requires Carries(carried, b, kind) && i < |fn.offered[c]| && Carries(carried, fn.offered[c][i], kind)
    ensures carried[fn.offered[c][i]].index < carried[b].index
  {
    var earlier := fn.offered[c][i];
    WaitingIsSame(th, fn, carried, earlier, b, kind);
    NotOfferedYet(fn, b, c, i);
    hide F.Inv;
    var o :| 0 <= o < |th.outbox| && th.outbox[o] == carried[b];
    var s :| 0 <= s < |th.sent| && th.sent[s] == carried[earlier];
  }

  lemma OfferKeepsOrder(th: T.Hub, fn: F.Hub, carried: map<F.BroadcastId, T.Flush>, b: F.BroadcastId, c: F.ClientId, kind: T.Kind)
    requires D.Orderly(th, kind) && F.Inv(fn) && CarriedInv(th, fn, carried) && ChannelsInOrder(fn, carried, kind)
    ensures ChannelsInOrder(F.Do(fn, F.Offer(b, c)), carried, kind)
  {
    if F.Enabled(fn, F.Offer(b, c)) {
      var out := F.Do(fn, F.Offer(b, c));
      forall i: nat | i < |fn.offered[c]| && Carries(carried, b, kind) && Carries(carried, fn.offered[c][i], kind)
        ensures carried[fn.offered[c][i]].index < carried[b].index
      {
        OfferedIsNewest(th, fn, carried, b, c, kind, i);
      }
      OfferEffect(fn, b, c);
      hide F.Do, F.Inv, F.Enabled, CarriedInv, D.Orderly;
      assert ChannelInOrder(fn.offered[c], carried, kind);
      assert ChannelInOrder(fn.offered[c] + [b], carried, kind);
    }
  }

  lemma OfferEffect(fn: F.Hub, b: F.BroadcastId, c: F.ClientId)
    requires F.Enabled(fn, F.Offer(b, c))
    ensures var out := F.Do(fn, F.Offer(b, c));
            out.offered == fn.offered || out.offered == fn.offered[c := fn.offered[c] + [b]]
  {
  }

  /** New broadcasts change no channel, and are in none. */
  lemma MoreCarried(fn: F.Hub, carried: map<F.BroadcastId, T.Flush>, b: F.BroadcastId, f: T.Flush, kind: T.Kind)
    requires F.Inv(fn) && b !in fn.begun && ChannelsInOrder(fn, carried, kind)
    ensures ChannelsInOrder(F.Do(fn, F.Begin(b)), carried[b := f], kind)
  {
    var out := F.Do(fn, F.Begin(b));
    assert out.offered == fn.offered;
    assert F.BroadcastsInv(fn) && F.OfferedInv(fn);
    hide F.Do, F.Inv, F.ReadersInv, F.ExactlyOne;
    forall c | c in fn.offered ensures ChannelInOrder(fn.offered[c], carried[b := f], kind) {
      assert ChannelInOrder(fn.offered[c], carried, kind);
      forall i | 0 <= i < |fn.offered[c]| ensures fn.offered[c][i] != b {}
    }
  }

  // ---------------------------------------------------------------- every joint run

  lemma CarriedStep(j: Joint, step: Step)
    requires CarriedInv(Throttle(j), Fan(j), j.carried)
    ensures var k := Do(j, step); CarriedInv(Throttle(k), Fan(k), k.carried)
  {
    if Enabled(j, step) {
      var th, fn := Throttle(j), Fan(j);
      match step {
        case Submit(kind, payload, interval, now) =>
          T.RunSnoc(j.throttle, T.Submit(kind, payload, interval, now));
          ThrottleKeeps(th, T.Submit(kind, payload, interval, now), fn, j.carried);
        case Fire(i, now) =>
          T.RunSnoc(j.throttle, T.Fire(i, now));
          ThrottleKeeps(th, T.Fire(i, now), fn, j.carried);
        case Start(b, k) =>
          F.RunSnoc(j.fan, F.Begin(b));
          StartKeeps(th, fn, j.carried, b, k);
        case Finish(b, k) =>
          T.RunSnoc(j.throttle, T.Emit(k));
          F.RunSnoc(j.fan, F.End(b));
          FinishKeeps(th, fn, j.carried, b, k);
        case Plain(b) =>
          F.RunSnoc(j.fan, F.Begin(b));
          PlainKeeps(th, fn, j.carried, b);
        case PlainEnd(b) =>
          F.RunSnoc(j.fan, F.End(b));
          EndEffect(fn, b);
          FewerReaders(th, fn, F.Do(fn, F.End(b)), j.carried);
        case Other(x) =>
          F.RunSnoc(j.fan, x);
          OtherEffect(fn, x);
          FewerReaders(th, fn, F.Do(fn, x), j.carried);
      }
    }
  }

  lemma {:induction false} RunCarries(steps: seq<Step>)
    ensures var j := Run(steps); CarriedInv(Throttle(j), Fan(j), j.carried)
  {
    hide Do;
    if steps != [] {
      RunCarries(Init(steps));
      hide CarriedInv;
      CarriedStep(Run(Init(steps)), Last(steps));
    }
  }

  lemma OtherKeepsOrder(th: T.Hub, fn: F.Hub, carried: map<F.BroadcastId, T.Flush>, x: F.Step, kind: T.Kind)
    requires !x.Begin? && !x.End?
    requires D.Orderly(th, kind) && F.Inv(fn) && CarriedInv(th, fn, carried) && ChannelsInOrder(fn, carried, kind)
    ensures ChannelsInOrder(F.Do(fn, x), carried, kind)
  {
    OtherEffect(fn, x);
    if x.Offer? {
      OfferKeepsOrder(th, fn, carried, x.broadcast, x.client, kind);
    } else {
      hide F.Do;
    }
  }

  lemma OrderStep(j: Joint, step: Step, kind: T.Kind)
    requires D.Orderly(Throttle(j), kind) && F.Inv(Fan(j)) && CarriedInv(Throttle(j), Fan(j), j.carried)
    requires ChannelsInOrder(Fan(j), j.carried, kind)
    ensures ChannelsInOrder(Fan(Do(j, step)), Do(j, step).carried, kind)
  {
    hide F.Run, T.Run, F.Inv, D.Orderly;
    if Enabled(j, step) {
      var th, fn := Throttle(j), Fan(j);
      match step {
        case Start(b, k) =>
          F.RunSnoc(j.fan, F.Begin(b));
          MoreCarried(fn, j.carried, b, th.outbox[k], kind);
        case Finish(b, _) =>
          F.RunSnoc(j.fan, F.End(b));
          EndEffect(fn, b);
        case Plain(b) =>
          F.RunSnoc(j.fan, F.Begin(b));
        case PlainEnd(b) =>
          F.RunSnoc(j.fan, F.End(b));
          EndEffect(fn, b);
        case Other(x) =>
          F.RunSnoc(j.fan, x);
          OtherKeepsOrder(th, fn, j.carried, x, kind);
        case _ =>
      }
    }
  }

  lemma NoRaceBefore(j: Joint, step: Step, kind: T.Kind)
    requires D.NoRace(Do(j, step).throttle, kind)
    ensures D.NoRace(j.throttle, kind)
  {
    var k := Do(j, step);
    hide D.NoRace;
    if k.throttle != j.throttle {
      assert Init(k.throttle) == j.throttle;
      D.NoRaceInit(k.throttle, kind);
    }
  }

  lemma {:induction false} OrderHolds(steps: seq<Step>, kind: T.Kind)
    requires D.NoRace(Run(steps).throttle, kind)
    ensures ChannelsInOrder(Fan(Run(steps)), Run(steps).carried, kind)
  {
    if steps != [] {
      var j := Run(Init(steps));
      NoRaceBefore(j, Last(steps), kind);
      hide Do, D.NoRace, D.Orderly, F.Inv, CarriedInv, ChannelsInOrder;
      OrderHolds(Init(steps), kind);
      D.NoRaceKeepsOrderly(j.throttle, kind);
      F.RunKeeps(j.fan);
      RunCarries(Init(steps));
      OrderStep(j, Last(steps), kind);
    }
  }

  // ---------------------------------------------------------------- main results

  /**
   * In every interleaving in which no timer of a kind fires while a flush of it still waits
   * or is being broadcast, every client's channel got the flushes of the kind in submission
   * order; what the browser read and what is still buffered is that channel, front to back.
   */
  lemma ClientsSeeSubmissionOrder(steps: seq<Step>, kind: T.Kind, c: F.ClientId)
    requires D.NoRace(Run(steps).throttle, kind) && c in Fan(Run(steps)).offered
    ensures var j := Run(steps);
            && ChannelInOrder(Fan(j).offered[c], j.carried, kind)
            && c in Fan(j).read && c in Fan(j).buffer && Fan(j).offered[c] == Fan(j).read[c] + Fan(j).buffer[c]
  {
    OrderHolds(steps, kind);
    F.NoSendToClosed(Run(steps).fan);
  }

  lemma IndexBound(th: T.Hub, fn: F.Hub, carried: map<F.BroadcastId, T.Flush>, kind: T.Kind, b: F.BroadcastId)
    requires T.Inv(th) && CarriedInv(th, fn, carried)
    ensures Carries(carried, b, kind) ==> carried[b].index < |T.SubmittedOf(th, kind)|
  {
    if Carries(carried, b, kind) {
      D.SentWasFlushed(th, carried[b]);
      var a :| 0 <= a < |th.flushed| && th.flushed[a] == carried[b];
      assert T.FlushesInv(th);
    }
  }

  /** The last broadcast of the kind is not followed by another one of it in any channel. */
  lemma LatestIsLast(th: T.Hub, fn: F.Hub, carried: map<F.BroadcastId, T.Flush>, kind: T.Kind, b: F.BroadcastId, c: F.ClientId, p: nat, i: nat)
    requires T.Inv(th) && CarriedInv(th, fn, carried) && c in fn.offered && ChannelInOrder(fn.offered[c], carried, kind)
    requires Carries(carried, b, kind) && carried[b].index == |T.SubmittedOf(th, kind)| - 1
    requires p < i < |fn.offered[c]| && fn.offered[c][p] == b
    ensures !Carries(carried, fn.offered[c][i], kind)
  {
    IndexBound(th, fn, carried, kind, fn.offered[c][i]);
  }

  /**
   * And latest wins for each client: with nothing of the kind pending or waiting, some
   * broadcast carried the last submission, and every client that was registered when it began
   * either has it as the last of the kind in its channel or missed it with all slots taken.
   */
  lemma ClientsHaveLatest(steps: seq<Step>, kind: T.Kind) returns (b: F.BroadcastId)
    requires var j := Run(steps);
             && D.NoRace(j.throttle, kind) && kind !in Throttle(j).pending && !D.Waits(Throttle(j), kind)
             && T.SubmittedOf(Throttle(j), kind) != []
    ensures var j, fn := Run(steps), Fan(Run(steps));
            && Carries(j.carried, b, kind) && j.carried[b].payload == Last(T.SubmittedOf(Throttle(j), kind))
            && b in fn.begun
            && forall c :: c in fn.begun[b] ==>
                 || ((b, c) in fn.missed && fn.missed[(b, c)] == 32)
                 || HasLast(fn, j.carried, kind, b, c)
  {
    var j := Run(steps);
    var th, fn := Throttle(j), Fan(j);
    OrderHolds(steps, kind);
    RunCarries(steps);
    T.RunKeeps(j.throttle);
    D.NoRaceKeepsOrderly(j.throttle, kind);
    hide Run, T.Run, F.Run;
    var f := LastSubmissionSent(th, kind);
    assert SentBy(fn, j.carried, f);
    b :| b in j.carried && j.carried[b] == f && b !in fn.readers;
    forall c | c in fn.begun[b]
      ensures ((b, c) in fn.missed && fn.missed[(b, c)] == 32) || HasLast(fn, j.carried, kind, b, c)
    {
      F.MissedOnlyWhenFull(j.fan, b, c);
      if (b, c) !in fn.missed {
        var p :| 0 <= p < |fn.offered[c]| && fn.offered[c][p] == b;
        forall i: nat | p < i < |fn.offered[c]| ensures !Carries(j.carried, fn.offered[c][i], kind) {
          LatestIsLast(th, fn, j.carried, kind, b, c, p, i);
        }
        assert HasLastAt(fn.offered[c], j.carried, kind, b, p);
      }
    }
  }

  /** `b` is in the channel, and nothing of the kind came after it. */
  ghost predicate HasLast(fn: F.Hub, carried: map<F.BroadcastId, T.Flush>, kind: T.Kind, b: F.BroadcastId, c: F.ClientId) {
    c in fn.offered && exists p :: HasLastAt(fn.offered[c], carried, kind, b, p)
  }

  ghost predicate HasLastAt(bs: seq<F.BroadcastId>, carried: map<F.BroadcastId, T.Flush>, kind: T.Kind, b: F.BroadcastId, p: int) {
    0 <= p < |bs| && bs[p] == b && forall i :: p < i < |bs| ==> !Carries(carried, bs[i], kind)
  }

  lemma LastSubmissionSent(th: T.Hub, kind: T.Kind) returns (f: T.Flush)
    requires T.Inv(th) && kind !in th.pending && !D.Waits(th, kind) && T.SubmittedOf(th, kind) != []
    ensures f in th.sent && f.kind == kind && f.index == |T.SubmittedOf(th, kind)| - 1
    ensures f.payload == Last(T.SubmittedOf(th, kind))
  {
    assert T.LatestInv(th, kind);
    f := T.LastFlush(th.flushed, kind).value;
    assert f in multiset(th.flushed) && f !in multiset(th.outbox);
    var a := T.LastAt(th.flushed, kind);
    assert th.flushed[a] == f;
  }
}
