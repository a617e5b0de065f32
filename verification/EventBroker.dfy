/** The pub/sub hub (`internal/events/broker.go`): publishers, and handlers that
    subscribe, receive, unsubscribe and close, over one RWMutex and one buffered
    channel per handler. */
module EventBroker {
  import opened Wrappers

  const CAPACITY: nat := 64

  // ---------------------------------------------------------------- the data

  /** The num-th event of a publisher. */
  datatype Event = Event(pub: nat, num: nat, payload: string)

  /** History of one non-blocking send: taken, or skipped with this backlog. */
  datatype Offer = Offer(ev: Event, taken: bool, backlog: nat)

  /** A channel; `received` and `offers` are history. */
  datatype Chan = Chan(buf: seq<Event>, closed: bool, received: seq<Event>, offers: seq<Offer>)

  /** `Publish`: waiting, or inside the read lock with subscribers still to do. */
  datatype Publisher =
    | Idle(next: nat)
    | Sending(ev: Event, todo: set<nat>, all: set<nat>)

  /** One SSE handler, from `subscribe` to `close`; its channel has its id. */
  datatype Handler =
    | Made | Adding | Added | Serving | Leaving | Removing | Removed | Detached | Gone

  /** `published` and `said`, what each publisher was given to publish, are
      history. */
  datatype State = State(
    readers: set<nat>,
    writer: Option<nat>,
    subscribers: set<nat>,
    chans: map<nat, Chan>,
    pubs: map<nat, Publisher>,
    handlers: map<nat, Handler>,
    published: set<(Event, set<nat>)>,
    said: map<nat, seq<string>>,
    panicked: bool)

  // --------------------------------------------------------------- the steps

  datatype PubStep =
    | RLock(payload: string)
    | Send(h: nat)
    | RUnlock

  datatype HandlerStep =
    | Lock
    | ChangeMap
    | Unlock
    | Receive
    | Leave
    | Close

  datatype Step =
    | NewPublisher(p: nat)
    | NewHandler(h: nat)
    | Publish(p: nat, act: PubStep)
    | Handle(h: nat, op: HandlerStep)

  /** `select { case ch <- e: default: }`; a send on a closed channel panics. */
  function Offered(c: Chan, ev: Event): Chan {
    if |c.buf| < CAPACITY
    then c.(buf := c.buf + [ev], offers := c.offers + [Offer(ev, true, |c.buf|)])
    else c.(offers := c.offers + [Offer(ev, false, |c.buf|)])
  }

  function Said(s: State, p: nat): seq<string> {
    if p in s.said then s.said[p] else []
  }

  predicate PubNext(s: State, s': State, p: nat, pub: Publisher, act: PubStep) {
    match act
    case RLock(payload) =>
      && pub.Idle? && s.writer == None
      && s' == s.(readers := s.readers + {p},
                  pubs := s.pubs[p := Sending(Event(p, pub.next, payload), s.subscribers, s.subscribers)],
                  said := s.said[p := Said(s, p) + [payload]])
    case Send(h) =>
      && pub.Sending? && h in pub.todo && h in s.chans
      && var pubs := s.pubs[p := pub.(todo := pub.todo - {h})];
         s' == if s.chans[h].closed then s.(pubs := pubs, panicked := true)
               else s.(pubs := pubs, chans := s.chans[h := Offered(s.chans[h], pub.ev)])
    case RUnlock =>
      && pub.Sending? && pub.todo == {}
      && s' == s.(readers := s.readers - {p}, pubs := s.pubs[p := Idle(pub.ev.num + 1)],
                  published := s.published + {(pub.ev, pub.all)})
  }

  predicate HandlerNext(s: State, s': State, h: nat, at: Handler, c: Chan, op: HandlerStep) {
    match op
    case Lock =>
      && (at.Made? || at.Leaving?) && s.writer == None && s.readers == {}
      && s' == s.(writer := Some(h), handlers := s.handlers[h := if at.Made? then Adding else Removing])
    case ChangeMap =>
      && (at.Adding? || at.Removing?)
      && s' == s.(subscribers := if at.Adding? then s.subscribers + {h} else s.subscribers - {h},
                  handlers := s.handlers[h := if at.Adding? then Added else Removed])
    case Unlock =>
      && (at.Added? || at.Removed?)
      && s' == s.(writer := None, handlers := s.handlers[h := if at.Added? then Serving else Detached])
    case Receive =>
      && at.Serving? && c.buf != []
      && s' == s.(chans := s.chans[h := c.(buf := c.buf[1..], received := c.received + [c.buf[0]])])
    case Leave =>
      at.Serving? && s' == s.(handlers := s.handlers[h := Leaving])
    case Close =>
      && at.Detached?
      && s' == if c.closed then s.(handlers := s.handlers[h := Gone], panicked := true)
               else s.(handlers := s.handlers[h := Gone], chans := s.chans[h := c.(closed := true)])
  }

  const EMPTY: Chan := Chan([], false, [], [])

  predicate Next(s: State, s': State, step: Step) {
    match step
    case NewPublisher(p) => p !in s.pubs && s' == s.(pubs := s.pubs[p := Idle(0)])
    case NewHandler(h) =>
      && h !in s.handlers && h !in s.chans
      && s' == s.(handlers := s.handlers[h := Made], chans := s.chans[h := EMPTY])
    case Publish(p, act) => p in s.pubs && PubNext(s, s', p, s.pubs[p], act)
    case Handle(h, op) => h in s.handlers && h in s.chans && HandlerNext(s, s', h, s.handlers[h], s.chans[h], op)
  }

  ghost predicate Moves(s: State, s': State) {
    exists step :: Next(s, s', step)
  }

  const START: State := State({}, None, {}, map[], map[], map[], {}, map[], false)

  ghost predicate IsRun(run: seq<State>) {
    && run != []
    && if |run| == 1 then run[0] == START
       else IsRun(run[..|run| - 1]) && Moves(run[|run| - 2], run[|run| - 1])
  }

  // --------------------------------------------------------------- invariant

  predicate HoldsLock(h: Handler) {
    h.Adding? || h.Added? || h.Removing? || h.Removed?
  }

  predicate InMap(h: Handler) {
    h.Added? || h.Serving? || h.Leaving? || h.Removing?
  }

  ghost predicate LockInv(s: State) {
    && (s.writer.Some? ==> s.readers == {})
    && (forall p | p in s.pubs && s.pubs[p].Sending? :: p in s.readers)
    && (forall h | h in s.handlers && HoldsLock(s.handlers[h]) :: s.writer == Some(h))
  }

  /** Registered means not closed: the map is left before the channel closes. */
  ghost predicate MapInv(s: State) {
    && !s.panicked
    && (forall h :: h in s.chans <==> h in s.handlers)
    && (forall h :: h in s.subscribers <==> h in s.handlers && InMap(s.handlers[h]))
    && (forall h | h in s.handlers :: s.chans[h].closed <==> s.handlers[h].Gone?)
    && (forall p | p in s.pubs && s.pubs[p].Sending? ::
          s.pubs[p].all == s.subscribers && s.pubs[p].todo <= s.subscribers && s.pubs[p].ev.pub == p)
  }

  function Taken(offers: seq<Offer>): seq<Event> {
    if offers == [] then []
    else Taken(offers[..|offers| - 1]) +
         var o := offers[|offers| - 1]; if o.taken then [o.ev] else []
  }

  predicate Ordered(events: seq<Event>) {
    forall i, j | 0 <= i < j < |events| && events[i].pub == events[j].pub :: events[i].num < events[j].num
  }

  predicate OfferedInOrder(offers: seq<Offer>) {
    forall i, j | 0 <= i < j < |offers| && offers[i].ev.pub == offers[j].ev.pub :: offers[i].ev.num < offers[j].ev.num
  }

  ghost predicate ChanInv(c: Chan) {
    && |c.buf| <= CAPACITY
    && c.received + c.buf == Taken(c.offers)
    && OfferedInOrder(c.offers)
    && (forall o | o in c.offers :: o.taken || o.backlog == CAPACITY)
  }

  ghost predicate Has(c: Chan, ev: Event) {
    exists o :: o in c.offers && o.ev == ev
  }

  /** Offers of publisher p on channel h are all from before its next send. */
  ghost predicate Behind(pub: Publisher, p: nat, c: Chan, h: nat) {
    match pub
    case Idle(next) => forall o | o in c.offers && o.ev.pub == p :: o.ev.num < next
    case Sending(ev, todo, all) =>
      && (forall o | o in c.offers && o.ev.pub == p :: o.ev.num < ev.num || (h !in todo && o.ev.num == ev.num))
      && (h in all && h !in todo ==> Has(c, ev))
  }

  ghost predicate BehindInv(s: State) {
    && (forall h, o | h in s.chans && o in s.chans[h].offers :: o.ev.pub in s.pubs)
    && (forall p, h | p in s.pubs && h in s.chans :: Behind(s.pubs[p], p, s.chans[h], h))
  }

  ghost predicate PublishedInv(s: State) {
    forall x, h | x in s.published && h in x.1 :: h in s.chans && Has(s.chans[h], x.0)
  }

  ghost predicate OfferInv(s: State) {
    (forall h | h in s.chans :: ChanInv(s.chans[h])) && BehindInv(s) && PublishedInv(s)
  }

  /** The event is the num-th thing its publisher was given to publish. */
  predicate AsSaid(s: State, ev: Event) {
    ev.num < |Said(s, ev.pub)| && Said(s, ev.pub)[ev.num] == ev.payload
  }

  ghost predicate PubSaid(s: State, p: nat)
    requires p in s.pubs
  {
    match s.pubs[p]
    case Idle(next) => |Said(s, p)| == next
    case Sending(ev, _, _) => ev.pub == p && |Said(s, p)| == ev.num + 1 && AsSaid(s, ev)
  }

  ghost predicate SaidInv(s: State) {
    && (forall p | p in s.pubs :: PubSaid(s, p))
    && (forall p | p in s.said :: p in s.pubs)
    && (forall h, o | h in s.chans && o in s.chans[h].offers :: AsSaid(s, o.ev))
  }

  ghost predicate Inv(s: State) {
    LockInv(s) && MapInv(s) && OfferInv(s) && SaidInv(s)
  }

  // locks and the subscriber map

  lemma {:induction false} PubLocks(s: State, s': State, p: nat, act: PubStep)
    requires LockInv(s) && p in s.pubs && PubNext(s, s', p, s.pubs[p], act)
    ensures LockInv(s')
  {
  }

  lemma {:induction false} HandlerLocks(s: State, s': State, h: nat, c: Chan, op: HandlerStep)
    requires LockInv(s) && h in s.handlers && HandlerNext(s, s', h, s.handlers[h], c, op)
    ensures LockInv(s')
  {
    if op.ChangeMap? || op.Unlock? {
      assert s.writer == Some(h);
    }
  }

  lemma {:induction false} PubMap(s: State, s': State, p: nat, act: PubStep)
    requires MapInv(s) && p in s.pubs && PubNext(s, s', p, s.pubs[p], act)
    ensures MapInv(s')
  {
    if act.Send? {
      assert act.h in s.subscribers && !s.handlers[act.h].Gone?;
    }
  }

  /** The map changes while nobody publishes. */
  lemma {:induction false} ChangedMap(s: State, s': State, h: nat)
    requires LockInv(s) && MapInv(s) && h in s.handlers && HandlerNext(s, s', h, s.handlers[h], s.chans[h], ChangeMap)
    ensures MapInv(s')
  {
    assert s.writer == Some(h);
    assert forall p | p in s.pubs :: !s.pubs[p].Sending?;
  }

  lemma {:induction false} LockedMap(s: State, s': State, h: nat, op: HandlerStep)
    requires MapInv(s) && h in s.handlers && HandlerNext(s, s', h, s.handlers[h], s.chans[h], op)
    requires op.Lock? || op.Unlock?
    ensures MapInv(s')
  {
  }

  lemma {:induction false} ServedMap(s: State, s': State, h: nat, op: HandlerStep)
    requires MapInv(s) && h in s.handlers && HandlerNext(s, s', h, s.handlers[h], s.chans[h], op)
    requires op.Receive? || op.Leave? || op.Close?
    ensures MapInv(s')
  {
  }

  // one channel

  lemma {:induction false} OrderedSnoc(events: seq<Event>, ev: Event)
    requires Ordered(events) && forall e | e in events && e.pub == ev.pub :: e.num < ev.num
    ensures Ordered(events + [ev])
  {
    var all := events + [ev];
    assert forall i | 0 <= i < |events| :: all[i] in events;
  }

  lemma {:induction false} OfferedSnoc(offers: seq<Offer>, o: Offer)
    requires OfferedInOrder(offers) && forall x | x in offers && x.ev.pub == o.ev.pub :: x.ev.num < o.ev.num
    ensures OfferedInOrder(offers + [o])
  {
    var all := offers + [o];
    assert forall i | 0 <= i < |offers| :: all[i] in offers;
  }

  lemma {:induction false} TakenSnoc(offers: seq<Offer>, o: Offer)
    ensures Taken(offers + [o]) == Taken(offers) + if o.taken then [o.ev] else []
  {
    assert (offers + [o])[..|offers|] == offers;
  }

  /** One more offer keeps a channel in order. */
  lemma {:induction false} OfferKeeps(c: Chan, ev: Event)
    requires ChanInv(c) && forall o | o in c.offers && o.ev.pub == ev.pub :: o.ev.num < ev.num
    ensures ChanInv(Offered(c, ev))
  {
    var taken := |c.buf| < CAPACITY;
    var o := Offer(ev, taken, |c.buf|);
    OfferedSnoc(c.offers, o);
    TakenSnoc(c.offers, o);
    if taken {
      assert c.received + (c.buf + [ev]) == c.received + c.buf + [ev];
    }
  }

  lemma {:induction false} OfferAdds(c: Chan, ev: Event)
    ensures Has(Offered(c, ev), ev)
    ensures forall o | o in Offered(c, ev).offers :: o in c.offers || o.ev == ev
    ensures forall o | o in c.offers :: o in Offered(c, ev).offers
  {
    var c' := Offered(c, ev);
    assert c'.offers[|c.offers|] in c'.offers;
  }

  lemma {:induction false} HasLasts(c: Chan, c': Chan, ev: Event)
    requires Has(c, ev) && forall o | o in c.offers :: o in c'.offers
    ensures Has(c', ev)
  {
    var o :| o in c.offers && o.ev == ev;
    assert o in c'.offers;
  }

  lemma {:induction false} OfferByOther(pub: Publisher, p: nat, c: Chan, h: nat, ev: Event)
    requires Behind(pub, p, c, h) && ev.pub != p
    ensures Behind(pub, p, Offered(c, ev), h)
  {
    OfferAdds(c, ev);
    if pub.Sending? && Has(c, pub.ev) {
      HasLasts(c, Offered(c, ev), pub.ev);
    }
  }

  lemma {:induction false} OfferBySelf(pub: Publisher, p: nat, c: Chan, h: nat)
    requires pub.Sending? && h in pub.todo && pub.ev.pub == p && Behind(pub, p, c, h)
    ensures Behind(pub.(todo := pub.todo - {h}), p, Offered(c, pub.ev), h)
  {
    OfferAdds(c, pub.ev);
  }

  /** The same offers, as many bytes taken. */
  predicate SameOffers(c: Chan, c': Chan) {
    c'.offers == c.offers && c'.received + c'.buf == c.received + c.buf && |c'.buf| <= |c.buf|
  }

  // a send

  lemma {:induction false} SendShape(s: State, s': State, p: nat, h: nat)
    requires MapInv(s) && p in s.pubs && PubNext(s, s', p, s.pubs[p], Send(h))
    ensures Sent(s, s', p, h) && s'.said == s.said
  {
    assert h in s.subscribers && !s.chans[h].closed;
  }

  /** A send changes one channel, by one offer. */
  ghost predicate Sent(s: State, s': State, p: nat, h: nat) {
    && p in s.pubs && h in s.chans && s.pubs[p].Sending? && h in s.pubs[p].todo && s.pubs[p].ev.pub == p
    && s'.chans == s.chans[h := Offered(s.chans[h], s.pubs[p].ev)]
    && s'.pubs == s.pubs[p := s.pubs[p].(todo := s.pubs[p].todo - {h})]
    && s'.published == s.published
  }

  lemma {:induction false} SendChans(s: State, s': State, p: nat, h: nat)
    requires OfferInv(s) && Sent(s, s', p, h)
    ensures forall g | g in s'.chans :: ChanInv(s'.chans[g])
    ensures forall g, o | g in s'.chans && o in s'.chans[g].offers :: o.ev.pub in s'.pubs
  {
    assert Behind(s.pubs[p], p, s.chans[h], h);
    OfferKeeps(s.chans[h], s.pubs[p].ev);
    OfferAdds(s.chans[h], s.pubs[p].ev);
  }

  lemma {:induction false} SendBehind(s: State, s': State, p: nat, h: nat, q: nat, g: nat)
    requires BehindInv(s) && Sent(s, s', p, h) && q in s.pubs && g in s.chans
    ensures Behind(s'.pubs[q], q, s'.chans[g], g)
  {
    assert Behind(s.pubs[q], q, s.chans[g], g);
    if g == h {
      if q == p {
        OfferBySelf(s.pubs[p], p, s.chans[h], h);
      } else {
        OfferByOther(s.pubs[q], q, s.chans[h], h, s.pubs[p].ev);
      }
    }
  }

  lemma {:induction false} SendPublished(s: State, s': State, p: nat, h: nat)
    requires PublishedInv(s) && Sent(s, s', p, h)
    ensures PublishedInv(s')
  {
    OfferAdds(s.chans[h], s.pubs[p].ev);
    forall x, g | x in s'.published && g in x.1 ensures g in s'.chans && Has(s'.chans[g], x.0) {
      HasLasts(s.chans[g], s'.chans[g], x.0);
    }
  }

  lemma {:induction false} SendKeeps(s: State, s': State, p: nat, h: nat)
    requires OfferInv(s) && Sent(s, s', p, h)
    ensures OfferInv(s')
  {
    SendChans(s, s', p, h);
    SendPublished(s, s', p, h);
    forall q, g | q in s'.pubs && g in s'.chans ensures Behind(s'.pubs[q], q, s'.chans[g], g) {
      SendBehind(s, s', p, h, q, g);
    }
  }

  // the other steps of publishers

  /** Only publisher p moves. */
  ghost predicate OnlyPub(s: State, s': State, p: nat) {
    s'.chans == s.chans && p in s'.pubs && s'.pubs == s.pubs[p := s'.pubs[p]]
  }

  lemma {:induction false} PubBehind(s: State, s': State, p: nat)
    requires BehindInv(s) && OnlyPub(s, s', p)
    requires forall h | h in s.chans :: Behind(s'.pubs[p], p, s.chans[h], h)
    ensures BehindInv(s')
  {
    forall q, h | q in s'.pubs && h in s'.chans ensures Behind(s'.pubs[q], q, s'.chans[h], h) {
      if q != p {
        assert Behind(s.pubs[q], q, s.chans[h], h);
      }
    }
  }

  lemma {:induction false} PubLockKeeps(s: State, s': State, p: nat, payload: string)
    requires OfferInv(s) && p in s.pubs && PubNext(s, s', p, s.pubs[p], RLock(payload))
    ensures OfferInv(s')
  {
    forall h | h in s.chans ensures Behind(s'.pubs[p], p, s.chans[h], h) {
      assert Behind(s.pubs[p], p, s.chans[h], h);
    }
    PubBehind(s, s', p);
  }

  lemma {:induction false} PubUnlockKeeps(s: State, s': State, p: nat)
    requires MapInv(s) && OfferInv(s) && p in s.pubs && PubNext(s, s', p, s.pubs[p], RUnlock)
    ensures OfferInv(s')
  {
    forall h | h in s.chans ensures Behind(s'.pubs[p], p, s.chans[h], h) {
      assert Behind(s.pubs[p], p, s.chans[h], h);
    }
    PubBehind(s, s', p);
    NowPublished(s, p);
  }

  /** With nothing left to do, every subscriber has been offered the event. */
  lemma {:induction false} NowPublished(s: State, p: nat)
    requires MapInv(s) && BehindInv(s) && p in s.pubs && s.pubs[p].Sending? && s.pubs[p].todo == {}
    ensures forall h | h in s.pubs[p].all :: h in s.chans && Has(s.chans[h], s.pubs[p].ev)
  {
    forall h | h in s.pubs[p].all ensures h in s.chans && Has(s.chans[h], s.pubs[p].ev) {
      assert h in s.subscribers && h in s.chans;
      assert Behind(s.pubs[p], p, s.chans[h], h);
    }
  }

  lemma {:induction false} NewPublisherKeeps(s: State, s': State, p: nat)
    requires OfferInv(s) && p !in s.pubs && s' == s.(pubs := s.pubs[p := Idle(0)])
    ensures OfferInv(s')
  {
    PubBehind(s, s', p);
  }

  lemma {:induction false} NewPublisherMap(s: State, s': State, p: nat)
    requires LockInv(s) && MapInv(s) && p !in s.pubs && s' == s.(pubs := s.pubs[p := Idle(0)])
    ensures LockInv(s') && MapInv(s')
  {
  }

  // the steps of handlers

  /** Channels keep their offers; new ones have none. */
  ghost predicate QuietChans(s: State, s': State) {
    && s'.pubs == s.pubs && s'.published == s.published
    && (forall h | h in s.chans :: h in s'.chans && SameOffers(s.chans[h], s'.chans[h]))
    && (forall h | h in s'.chans && h !in s.chans :: s'.chans[h] == EMPTY)
  }

  lemma {:induction false} HandlerQuiet(s: State, s': State, h: nat, op: HandlerStep)
    requires h in s.handlers && h in s.chans && HandlerNext(s, s', h, s.handlers[h], s.chans[h], op)
    ensures QuietChans(s, s') && s'.said == s.said
  {
    if op.Receive? {
      var c := s.chans[h];
      assert c.received + [c.buf[0]] + c.buf[1..] == c.received + c.buf;
    }
  }

  lemma {:induction false} NewHandlerMap(s: State, s': State, h: nat)
    requires LockInv(s) && MapInv(s) && Next(s, s', NewHandler(h))
    ensures LockInv(s') && MapInv(s') && QuietChans(s, s') && s'.said == s.said
  {
  }

  lemma {:induction false} QuietChan(c: Chan, c': Chan)
    requires ChanInv(c) && SameOffers(c, c')
    ensures ChanInv(c')
  {
  }

  lemma {:induction false} QuietBehind(s: State, s': State, p: nat, h: nat)
    requires MapInv(s) && BehindInv(s) && QuietChans(s, s') && p in s.pubs && h in s'.chans
    ensures Behind(s'.pubs[p], p, s'.chans[h], h)
  {
    if h in s.chans {
      assert Behind(s.pubs[p], p, s.chans[h], h);
      if s.pubs[p].Sending? && Has(s.chans[h], s.pubs[p].ev) {
        HasLasts(s.chans[h], s'.chans[h], s.pubs[p].ev);
      }
    } else if s.pubs[p].Sending? {
      assert h !in s.subscribers;
    }
  }

  lemma {:induction false} QuietKeeps(s: State, s': State)
    requires MapInv(s) && OfferInv(s) && QuietChans(s, s')
    ensures OfferInv(s')
  {
    forall h | h in s'.chans ensures ChanInv(s'.chans[h]) {
      if h in s.chans {
        QuietChan(s.chans[h], s'.chans[h]);
      }
    }
    forall p, h | p in s'.pubs && h in s'.chans ensures Behind(s'.pubs[p], p, s'.chans[h], h) {
      QuietBehind(s, s', p, h);
    }
    forall x, h | x in s'.published && h in x.1 ensures h in s'.chans && Has(s'.chans[h], x.0) {
      HasLasts(s.chans[h], s'.chans[h], x.0);
    }
  }

  // what is said

  lemma {:induction false} SaidLasts(s: State, s': State, ev: Event)
    requires AsSaid(s, ev) && Said(s, ev.pub) <= Said(s', ev.pub)
    ensures AsSaid(s', ev)
  {
  }

  /** Nothing new said, nothing offered that was not on its way. */
  lemma {:induction false} QuietSaid(s: State, s': State)
    requires SaidInv(s) && s'.said == s.said
    requires forall p | p in s.pubs :: p in s'.pubs
    requires forall p | p in s'.pubs :: PubSaid(s', p)
    requires forall h, o | h in s'.chans && o in s'.chans[h].offers :: AsSaid(s, o.ev)
    ensures SaidInv(s')
  {
    forall h, o | h in s'.chans && o in s'.chans[h].offers ensures AsSaid(s', o.ev) {
      SaidLasts(s, s', o.ev);
    }
  }

  lemma {:induction false} PublishSaid(s: State, s': State, p: nat, act: PubStep)
    requires Inv(s) && p in s.pubs && PubNext(s, s', p, s.pubs[p], act)
    ensures SaidInv(s')
  {
    assert PubSaid(s, p);
    match act
    case RLock(payload) => LockSaid(s, s', p, payload);
    case Send(h) =>
      SendShape(s, s', p, h);
      SentSaid(s, s', p, h);
    case RUnlock => QuietSaid(s, s');
  }

  lemma {:induction false} LockSaid(s: State, s': State, p: nat, payload: string)
    requires SaidInv(s) && p in s.pubs && PubNext(s, s', p, s.pubs[p], RLock(payload))
    ensures SaidInv(s')
  {
    forall q | q in s'.pubs ensures PubSaid(s', q) {
      assert PubSaid(s, q);
    }
    forall h, o | h in s'.chans && o in s'.chans[h].offers ensures AsSaid(s', o.ev) {
      assert AsSaid(s, o.ev);
      SaidLasts(s, s', o.ev);
    }
  }

  lemma {:induction false} SentSaid(s: State, s': State, p: nat, h: nat)
    requires SaidInv(s) && Sent(s, s', p, h) && s'.said == s.said
    ensures SaidInv(s')
  {
    assert PubSaid(s, p);
    OfferAdds(s.chans[h], s.pubs[p].ev);
    forall q | q in s'.pubs ensures PubSaid(s', q) {
      assert PubSaid(s, q);
    }
    QuietSaid(s, s');
  }

  lemma {:induction false} HandlerSaid(s: State, s': State)
    requires SaidInv(s) && QuietChans(s, s') && s'.said == s.said
    ensures SaidInv(s')
  {
    forall q | q in s'.pubs ensures PubSaid(s', q) {
      assert PubSaid(s, q);
    }
    QuietSaid(s, s');
  }

  lemma {:induction false} NewPublisherSaid(s: State, s': State, p: nat)
    requires SaidInv(s) && p !in s.pubs && s' == s.(pubs := s.pubs[p := Idle(0)])
    ensures SaidInv(s')
  {
    assert p !in s.said;
    forall q | q in s'.pubs ensures PubSaid(s', q) {
      assert q in s.pubs ==> PubSaid(s, q);
    }
    QuietSaid(s, s');
  }

  // every step

  lemma {:induction false} PublishKeeps(s: State, s': State, p: nat, act: PubStep)
    requires Inv(s) && p in s.pubs && PubNext(s, s', p, s.pubs[p], act)
    ensures Inv(s')
  {
    PubLocks(s, s', p, act);
    PubMap(s, s', p, act);
    PublishSaid(s, s', p, act);
    match act
    case RLock(payload) => PubLockKeeps(s, s', p, payload);
    case Send(h) =>
      SendShape(s, s', p, h);
      SendKeeps(s, s', p, h);
    case RUnlock => PubUnlockKeeps(s, s', p);
  }

  lemma {:induction false} HandleKeeps(s: State, s': State, h: nat, op: HandlerStep)
    requires Inv(s) && h in s.handlers && h in s.chans && HandlerNext(s, s', h, s.handlers[h], s.chans[h], op)
    ensures Inv(s')
  {
    HandlerLocks(s, s', h, s.chans[h], op);
    HandlerQuiet(s, s', h, op);
    QuietKeeps(s, s');
    HandlerSaid(s, s');
    match op
    case ChangeMap => ChangedMap(s, s', h);
    case Lock => LockedMap(s, s', h, op);
    case Unlock => LockedMap(s, s', h, op);
    case _ => ServedMap(s, s', h, op);
  }

  lemma {:induction false} StepKeeps(s: State, s': State, step: Step)
    requires Inv(s) && Next(s, s', step)
    ensures Inv(s')
  {
    match step
    case NewPublisher(p) =>
      NewPublisherKeeps(s, s', p);
      NewPublisherMap(s, s', p);
      NewPublisherSaid(s, s', p);
    case NewHandler(h) =>
      NewHandlerMap(s, s', h);
      QuietKeeps(s, s');
      HandlerSaid(s, s');
    case Publish(p, act) => PublishKeeps(s, s', p, act);
    case Handle(h, op) => HandleKeeps(s, s', h, op);
  }

  lemma {:induction false} RunKeeps(run: seq<State>)
    requires IsRun(run)
    ensures Inv(run[|run| - 1])
  {
    if |run| > 1 {
      var front := run[..|run| - 1];
      RunKeeps(front);
      var step :| Next(front[|front| - 1], run[|run| - 1], step);
      StepKeeps(front[|front| - 1], run[|run| - 1], step);
    }
  }

  // ---------------------------------------------------------------- theorems

  /** No interleaving ever sends on, or closes, a closed channel. */
  lemma {:induction false} NeverSendsOnClosed(run: seq<State>)
    requires IsRun(run)
    ensures !run[|run| - 1].panicked
  {
    RunKeeps(run);
  }

  lemma {:induction false} TakenFrom(offers: seq<Offer>)
    ensures forall e | e in Taken(offers) :: exists o :: o in offers && o.ev == e
    ensures forall o | o in offers && o.taken :: o.ev in Taken(offers)
  {
    if offers != [] {
      var front, o := offers[..|offers| - 1], offers[|offers| - 1];
      assert offers == front + [o];
      TakenFrom(front);
    }
  }

  /** Skipping offers keeps the order. */
  lemma {:induction false} TakenOrdered(offers: seq<Offer>)
    requires OfferedInOrder(offers)
    ensures Ordered(Taken(offers))
  {
    if offers != [] {
      var front, o := offers[..|offers| - 1], offers[|offers| - 1];
      TakenOrdered(front);
      TakenFrom(front);
      forall e | e in Taken(front) && e.pub == o.ev.pub ensures e.num < o.ev.num {
        var i :| 0 <= i < |front| && front[i].ev == e;
        assert offers[i].ev == e;
      }
      OrderedSnoc(Taken(front), o.ev);
    }
  }

  /** Whatever a subscriber has received and still has buffered holds each
      publisher's events in order, without duplicates. */
  lemma {:induction false} InOrderWithoutDuplicates(run: seq<State>, s: State, h: nat)
    requires IsRun(run) && s == run[|run| - 1] && h in s.chans
    ensures Ordered(s.chans[h].received + s.chans[h].buf)
  {
    RunKeeps(run);
    assert ChanInv(s.chans[h]);
    TakenOrdered(s.chans[h].offers);
  }

  /** What a subscriber receives is what was published: the n-th event of a
      publisher carries the n-th payload it was given. */
  lemma {:induction false} PayloadsKept(run: seq<State>, s: State, h: nat, ev: Event)
    requires IsRun(run) && s == run[|run| - 1] && h in s.chans && ev in s.chans[h].received + s.chans[h].buf
    ensures ev.num < |Said(s, ev.pub)| && Said(s, ev.pub)[ev.num] == ev.payload
  {
    RunKeeps(run);
    assert ChanInv(s.chans[h]);
    TakenFrom(s.chans[h].offers);
    var o :| o in s.chans[h].offers && o.ev == ev;
    assert AsSaid(s, o.ev);
  }

  /** Once a publish is over, each subscriber registered during it has the event
      received or buffered, unless its 64 slots were full when it was offered. */
  lemma {:induction false} MissedOnlyIfFull(run: seq<State>, s: State, ev: Event, all: set<nat>, h: nat)
    requires IsRun(run) && s == run[|run| - 1] && (ev, all) in s.published && h in all
    ensures h in s.chans && (ev in s.chans[h].received + s.chans[h].buf || SkippedWhenFull(s.chans[h], ev))
  {
    RunKeeps(run);
    var x := (ev, all);
    assert x in s.published;
    assert ChanInv(s.chans[h]);
    OfferedOrFull(s.chans[h], ev);
  }

  ghost predicate SkippedWhenFull(c: Chan, ev: Event) {
    exists o :: o in c.offers && o.ev == ev && !o.taken && o.backlog == 64
  }

  lemma {:induction false} OfferedOrFull(c: Chan, ev: Event)
    requires ChanInv(c) && Has(c, ev)
    ensures ev in c.received + c.buf || SkippedWhenFull(c, ev)
  {
    var o :| o in c.offers && o.ev == ev;
    TakenFrom(c.offers);
  }

  /** Who was registered: exactly the subscribers at every moment of the publish. */
  lemma {:induction false} RegisteredThroughout(run: seq<State>, p: nat)
    requires IsRun(run) && p in run[|run| - 1].pubs && run[|run| - 1].pubs[p].Sending?
    ensures run[|run| - 1].pubs[p].all == run[|run| - 1].subscribers
  {
    RunKeeps(run);
  }
}
