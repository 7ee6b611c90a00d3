/**
 * The realtime hub's fan-out. A broadcast holds the read lock while it offers its payload
 * to each registered client without blocking; registering and unregistering take the write
 * lock; a channel is closed after its client is unregistered. Steps that are not enabled
 * change nothing, so every interleaving is a run.
 */
module HubFanout {
  import opened Prelude

  const CAPACITY := 32

  type ClientId = nat
  type BroadcastId = nat

  /**
   * `readers` maps each broadcast in progress to the clients it has yet to offer to.
   * `begun`, `offered`, `read` and `missed` are history: who was registered when a broadcast
   * began, what went into each channel and came out of it, and how full a channel was when
   * it missed one. `panicked` records a send on a closed channel.
   */
  datatype Hub = Hub(clients: set<ClientId>, closed: set<ClientId>, buffer: map<ClientId, seq<BroadcastId>>,
                     readers: map<BroadcastId, set<ClientId>>, begun: map<BroadcastId, set<ClientId>>,
                     offered: map<ClientId, seq<BroadcastId>>, read: map<ClientId, seq<BroadcastId>>,
                     missed: map<(BroadcastId, ClientId), nat>, panicked: bool)

  datatype Step =
    | Connect(client: ClientId)
    | Leave(client: ClientId)
    | Close(client: ClientId)
    | Begin(broadcast: BroadcastId)
    | Offer(broadcast: BroadcastId, client: ClientId)
    | End(broadcast: BroadcastId)
    | Deliver(client: ClientId)

  const START := Hub({}, {}, map[], map[], map[], map[], map[], map[], false)

  predicate Enabled(h: Hub, step: Step) {
    match step
    case Connect(c) => h.readers == map[] && c !in h.buffer && c !in h.offered && c !in h.read
    case Leave(c) => h.readers == map[] && c in h.clients
    case Close(c) => c in h.buffer && c !in h.clients && c !in h.closed
    case Begin(b) => b !in h.begun
    case Offer(b, c) => b in h.readers && c in h.readers[b] && c in h.buffer && c in h.offered
    case End(b) => b in h.readers && h.readers[b] == {}
    case Deliver(c) => c in h.buffer && c in h.read && h.buffer[c] != []
  }

  function OfferTo(h: Hub, b: BroadcastId, c: ClientId): Hub
    requires Enabled(h, Offer(b, c))
  {
    var g := h.(readers := h.readers[b := h.readers[b] - {c}]);
    if c in h.closed then g.(panicked := true)
    else if |h.buffer[c]| < CAPACITY then
      g.(buffer := h.buffer[c := h.buffer[c] + [b]], offered := h.offered[c := h.offered[c] + [b]])
    else g.(missed := h.missed[(b, c) := |h.buffer[c]|])
  }

  function Do(h: Hub, step: Step): Hub {
    if !Enabled(h, step) then h
    else
      match step
      case Connect(c) => h.(clients := h.clients + {c}, buffer := h.buffer[c := []], offered := h.offered[c := []],
                            read := h.read[c := []])
      case Leave(c) => h.(clients := h.clients - {c})
      case Close(c) => h.(closed := h.closed + {c})
      case Begin(b) => h.(readers := h.readers[b := h.clients], begun := h.begun[b := h.clients])
      case Offer(b, c) => OfferTo(h, b, c)
      case End(b) => h.(readers := h.readers - {b})
      case Deliver(c) => h.(buffer := h.buffer[c := h.buffer[c][1..]], read := h.read[c := h.read[c] + [h.buffer[c][0]]])
  }

  function Run(steps: seq<Step>): Hub {
    if steps == [] then START else Do(Run(Init(steps)), Last(steps))
  }

  // ---------------------------------------------------------------- invariant

  /** Channels: what was offered is what was read and what is buffered, in order and at most once each. */
  predicate ChannelsInv(h: Hub) {
    && h.buffer.Keys == h.offered.Keys == h.read.Keys
    && h.clients <= h.buffer.Keys && h.closed <= h.buffer.Keys && h.clients !! h.closed
    && (forall c :: c in h.buffer ==> h.offered[c] == h.read[c] + h.buffer[c] && |h.buffer[c]| <= CAPACITY)
  }

  /** The client still has this broadcast coming. */
  predicate Waiting(h: Hub, b: BroadcastId, c: ClientId) { b in h.readers && c in h.readers[b] }

  predicate Got(h: Hub, b: BroadcastId, c: ClientId) { c in h.offered && b in h.offered[c] }

  /** Broadcasts: each client registered at the start is waiting, has got it once, or missed it full. */
  ghost predicate BroadcastsInv(h: Hub) {
    && ReadersInv(h)
    && OfferedInv(h)
    && (forall b, c :: b in h.begun && c in h.begun[b] ==> ExactlyOne(h, b, c))
  }

  /** A broadcast under way has yet to reach registered clients only. */
  predicate ReadersInv(h: Hub) {
    forall b :: b in h.readers ==> b in h.begun && h.readers[b] <= h.begun[b] && h.readers[b] <= h.clients
  }

  /** What a client got or missed had begun when it was registered. */
  ghost predicate OfferedInv(h: Hub) {
    && (forall c :: c in h.offered ==> Distinct(h.offered[c]))
    && (forall c, i :: c in h.offered && 0 <= i < |h.offered[c]|
                       ==> h.offered[c][i] in h.begun && c in h.begun[h.offered[c][i]])
    && (forall k :: k in h.missed ==> k.0 in h.begun && k.1 in h.begun[k.0] && h.missed[k] == CAPACITY)
  }

  predicate ExactlyOne(h: Hub, b: BroadcastId, c: ClientId) {
    || (Waiting(h, b, c) && !Got(h, b, c) && (b, c) !in h.missed)
    || (!Waiting(h, b, c) && Got(h, b, c) && (b, c) !in h.missed)
    || (!Waiting(h, b, c) && !Got(h, b, c) && (b, c) in h.missed)
  }

  ghost predicate Inv(h: Hub) { ChannelsInv(h) && BroadcastsInv(h) && !h.panicked }

  lemma OfferKeepsChannels(h: Hub, b: BroadcastId, c: ClientId)
    requires Inv(h) && Enabled(h, Offer(b, c))
    ensures ChannelsInv(OfferTo(h, b, c)) && !OfferTo(h, b, c).panicked
  {
    assert c in h.clients;
  }

  lemma OfferKeepsBroadcasts(h: Hub, b: BroadcastId, c: ClientId)
    requires Inv(h) && Enabled(h, Offer(b, c))
    ensures BroadcastsInv(OfferTo(h, b, c))
  {
    var g := OfferTo(h, b, c);
    assert c in h.begun[b] && ExactlyOne(h, b, c) && Waiting(h, b, c);
    forall d, e | d in g.begun && e in g.begun[d] ensures ExactlyOne(g, d, e) {
      assert ExactlyOne(h, d, e);
      OfferOutcome(h, b, c, d, e);
    }
  }

  /** An offer decides its own pair and touches no other. */
  lemma OfferOutcome(h: Hub, b: BroadcastId, c: ClientId, d: BroadcastId, e: ClientId)
    requires Inv(h) && Enabled(h, Offer(b, c)) && d in h.begun && e in h.begun[d] && ExactlyOne(h, d, e)
    ensures ExactlyOne(OfferTo(h, b, c), d, e)
  {
    var g := OfferTo(h, b, c);
    assert c in h.clients && c !in h.closed;
    assert Waiting(g, d, e) <==> Waiting(h, d, e) && !(d == b && e == c);
    if |h.buffer[c]| < CAPACITY {
      assert Got(g, d, e) <==> Got(h, d, e) || (d == b && e == c);
    }
  }

  lemma LifecycleKeepsChannels(h: Hub, step: Step)
    requires Inv(h) && Enabled(h, step) && !step.Offer?
    ensures ChannelsInv(Do(h, step)) && !Do(h, step).panicked
  {
    hide BroadcastsInv;
    if step.Deliver? {
      var c := step.client;
      assert h.buffer[c] == [h.buffer[c][0]] + h.buffer[c][1..];
    }
  }

  /** No other step changes who has a broadcast coming, got it or missed it. */
  lemma LifecycleOutcome(h: Hub, step: Step, d: BroadcastId, e: ClientId)
    requires Inv(h) && Enabled(h, step) && !step.Offer?
    requires d in Do(h, step).begun && e in Do(h, step).begun[d]
    ensures ExactlyOne(Do(h, step), d, e)
  {
    if d in h.begun { assert ExactlyOne(h, d, e); }
  }

  lemma LifecycleKeepsReaders(h: Hub, step: Step)
    requires ReadersInv(h) && Enabled(h, step) && !step.Offer?
    ensures ReadersInv(Do(h, step))
  {
  }

  lemma LifecycleKeepsOffered(h: Hub, step: Step)
    requires OfferedInv(h) && Enabled(h, step) && !step.Offer?
    ensures OfferedInv(Do(h, step))
  {
  }

  lemma LifecycleKeeps(h: Hub, step: Step)
    requires Inv(h) && Enabled(h, step) && !step.Offer?
    ensures Inv(Do(h, step))
  {
    var g := Do(h, step);
    LifecycleKeepsChannels(h, step);
    LifecycleKeepsReaders(h, step);
    LifecycleKeepsOffered(h, step);
    forall d, e | d in g.begun && e in g.begun[d] ensures ExactlyOne(g, d, e) { LifecycleOutcome(h, step, d, e); }
    hide ChannelsInv, ReadersInv, OfferedInv, ExactlyOne, Do, Enabled;
  }

  lemma {:induction false} RunKeeps(steps: seq<Step>)
    ensures Inv(Run(steps))
  {
    if steps != [] {
      var h, step := Run(Init(steps)), Last(steps);
      RunKeeps(Init(steps));
      hide Inv;
      if Enabled(h, step) {
        if step.Offer? {
          OfferKeeps(h, step.broadcast, step.client);
        } else {
          LifecycleKeeps(h, step);
        }
      }
    }
  }

  lemma OfferKeeps(h: Hub, b: BroadcastId, c: ClientId)
    requires Inv(h) && Enabled(h, Offer(b, c))
    ensures Inv(OfferTo(h, b, c))
  {
    OfferKeepsChannels(h, b, c);
    OfferKeepsBroadcasts(h, b, c);
  }

  // ---------------------------------------------------------------- main results

  /**
   * In every interleaving of connects, disconnects and broadcasts: nothing is sent to a
   * closed channel; a channel is read in the order it was filled, holds at most 32 payloads
   * and gets each broadcast at most once.
   */
  lemma NoSendToClosed(steps: seq<Step>)
    ensures var h := Run(steps);
            && !h.panicked
            && (forall b :: b in h.readers ==> h.readers[b] !! h.closed)
            && h.buffer.Keys == h.offered.Keys == h.read.Keys
            && (forall c :: c in h.buffer ==> h.offered[c] == h.read[c] + h.buffer[c] && |h.buffer[c]| <= 32
                                              && Distinct(h.offered[c]))
  {
    RunKeeps(steps);
  }

  /**
   * Once a broadcast has ended, every client that was registered when it began got it, or
   * missed it because its 32 slots were taken; nobody else got it.
   */
  lemma MissedOnlyWhenFull(steps: seq<Step>, b: BroadcastId, c: ClientId)
    requires b in Run(steps).begun && b !in Run(steps).readers
    ensures var h := Run(steps);
            && (c in h.begun[b] ==> (Got(h, b, c) <==> (b, c) !in h.missed))
            && ((b, c) in h.missed ==> h.missed[(b, c)] == 32)
            && (Got(h, b, c) ==> c in h.begun[b])
  {
    RunKeeps(steps);
    var h := Run(steps);
    if c in h.begun[b] { assert ExactlyOne(h, b, c); }
    if Got(h, b, c) { var i :| 0 <= i < |h.offered[c]| && h.offered[c][i] == b; }
  }

  // ---------------------------------------------------------------- the hub, in place

  lemma RunSnoc(steps: seq<Step>, x: Step)
    ensures Run(steps + [x]) == Do(Run(steps), x)
  {
    hide Do;
    assert Init(steps + [x]) == steps;
  }

  /** The steps of one broadcast that reaches the clients in this order. */
  function Offers(b: BroadcastId, order: seq<ClientId>): seq<Step> {
    if order == [] then [] else Offers(b, Init(order)) + [Offer(b, Last(order))]
  }

  lemma OffersSnoc(b: BroadcastId, order: seq<ClientId>, c: ClientId)
    ensures Offers(b, order + [c]) == Offers(b, order) + [Offer(b, c)]
  {
    assert Init(order + [c]) == order;
  }

  /**
   * The `clients` map with the contents of its channels. `trace` is the run the object is in:
   * each method adds the steps it performs, so every theorem about `Run` is about the object.
   */
  class Clients {
    var buffers: map<ClientId, seq<BroadcastId>>
    ghost var trace: seq<Step>

    ghost predicate Valid()
      reads this
    {
      Shows(buffers, Run(trace))
    }

    constructor ()
      ensures Valid() && trace == []
    {
      buffers := map[];
      trace := [];
    }

    /** A browser connects: its channel is new, and nothing is being broadcast. */
    method Register(c: ClientId)
      requires Valid() && c !in Run(trace).buffer && Run(trace).readers == map[]
      modifies this
      ensures Valid() && trace == old(trace) + [Connect(c)]
    {
      RunKeeps(trace);
      RunSnoc(trace, Connect(c));
      trace := trace + [Connect(c)];
      buffers := buffers[c := []];
    }

    /** It disconnects: first out of the map, under the lock, and then its channel is closed. */
    method Unregister(c: ClientId)
      requires Valid() && c in buffers && Run(trace).readers == map[]
      modifies this
      ensures Valid() && trace == old(trace) + [Leave(c), Close(c)]
    {
      RunKeeps(trace);
      RunSnoc(trace, Leave(c));
      RunSnoc(trace + [Leave(c)], Close(c));
      assert trace + [Leave(c)] + [Close(c)] == trace + [Leave(c), Close(c)];
      trace := trace + [Leave(c), Close(c)];
      buffers := buffers - {c};
    }

    /** One payload goes out to the browser. */
    method Receive(c: ClientId) returns (payload: BroadcastId)
      requires Valid() && c in buffers && buffers[c] != []
      modifies this
      ensures Valid() && trace == old(trace) + [Deliver(c)]
      ensures payload == old(buffers)[c][0] && buffers == old(buffers)[c := old(buffers)[c][1..]]
    {
      RunKeeps(trace);
      RunSnoc(trace, Deliver(c));
      trace := trace + [Deliver(c)];
      payload := buffers[c][0];
      buffers := buffers[c := buffers[c][1..]];
    }

    /** One turn of the loop: a full channel is passed over, every other one gets the payload. */
    method OfferOne(payload: BroadcastId, c: ClientId)
      requires Valid() && Waiting(Run(trace), payload, c)
      modifies this
      ensures Valid() && trace == old(trace) + [Offer(payload, c)] && buffers.Keys == old(buffers).Keys
      ensures var before := Run(old(trace)).readers;
              payload in before && Run(trace).readers == before[payload := before[payload] - {c}]
    {
      RunKeeps(trace);
      RunSnoc(trace, Offer(payload, c));
      OfferShows(buffers, Run(trace), payload, c);
      hide Run, Do, Inv;
      if |buffers[c]| < CAPACITY { buffers := buffers[c := buffers[c] + [payload]]; }
      trace := trace + [Offer(payload, c)];
    }

    /**
     * `broadcastPayload`: the steps of one broadcast, with one offer to each registered client
     * in the order the map happened to give, whatever other broadcasts are under way.
     */
    method BroadcastPayload(payload: BroadcastId) returns (ghost order: seq<ClientId>)
      requires Valid() && payload !in Run(trace).begun
      modifies this
      ensures Valid() && trace == old(trace) + [Begin(payload)] + Offers(payload, order) + [End(payload)]
      ensures Distinct(order) && forall c :: c in order <==> c in old(buffers)
    {
      RunSnoc(trace, Begin(payload));
      trace := trace + [Begin(payload)];
      order := [];
      var rest := buffers.Keys;
      hide Run, Do, Offers, Distinct, Shows;
      assert Offers(payload, []) == [] by { NoOffers(payload); }
      assert Distinct<ClientId>([]) by { NothingTwice(); }
      while rest != {}
        invariant Valid() && buffers.Keys == old(buffers).Keys && rest <= buffers.Keys
        invariant trace == old(trace) + [Begin(payload)] + Offers(payload, order)
        invariant payload in Run(trace).readers && Run(trace).readers[payload] == rest
        invariant Distinct(order) && forall c :: c in order <==> c in buffers.Keys - rest
        decreases rest
      {
        var c :| c in rest;
        OfferOne(payload, c);
        OffersSnoc(payload, order, c);
        DistinctSnoc(order, c);
        order := order + [c];
        rest := rest - {c};
      }
      EndShows(buffers, trace, payload);
      trace := trace + [End(payload)];
    }
  }

  lemma NoOffers(b: BroadcastId)
    ensures Offers(b, []) == []
  {
  }

  lemma NothingTwice()
    ensures Distinct<ClientId>([])
  {
  }

  lemma DistinctSnoc(order: seq<ClientId>, c: ClientId)
    requires Distinct(order) && c !in order
    ensures Distinct(order + [c])
  {
  }

  lemma EndShows(buffers: map<ClientId, seq<BroadcastId>>, steps: seq<Step>, b: BroadcastId)
    requires Shows(buffers, Run(steps))
    ensures Shows(buffers, Run(steps + [End(b)]))
  {
    RunSnoc(steps, End(b));
  }

  /** The channels of the registered clients, as the hub's run has them. */
  predicate Shows(buffers: map<ClientId, seq<BroadcastId>>, h: Hub) {
    buffers.Keys == h.clients && forall c :: c in buffers ==> c in h.buffer && buffers[c] == h.buffer[c]
  }

  lemma OfferShows(buffers: map<ClientId, seq<BroadcastId>>, h: Hub, b: BroadcastId, c: ClientId)
    requires Inv(h) && Shows(buffers, h) && b in h.readers && c in h.readers[b]
    ensures c in buffers && Enabled(h, Offer(b, c))
    ensures Shows(if |buffers[c]| < CAPACITY then buffers[c := buffers[c] + [b]] else buffers, Do(h, Offer(b, c)))
    ensures Do(h, Offer(b, c)).readers == h.readers[b := h.readers[b] - {c}]
  {
  }
}
