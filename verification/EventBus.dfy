/** The in-process event bus: per-channel sequence numbers, bounded subscriber queues, and the
    overflow policy. */
module EventBus {
  import opened TrackIds

  type Channel = string

  const WILDCARD: Channel := "*"

  const CRITICAL_EVENT_TYPES: set<string> := {
    "alert.created", "alert.updated", "threat.updated", "track.created", "track.dropped", "geofence.breach",
    "simulation.state", "simulation.reset", "incident.created", "incident.acknowledged", "incident.assigned",
    "incident.reassigned", "incident.triaged", "incident.escalated", "incident.de_escalated",
    "incident.resolved", "incident.closed", "incident.note_added", "incident.action_logged"
  }

  datatype Envelope = Envelope(eventType: string, channel: Channel, sequence: int, payload: string)

  predicate IsCritical(e: Envelope) { e.eventType in CRITICAL_EVENT_TYPES }

  /** A subscriber's queue and counters. */
  datatype SubState = SubState(maxsize: nat, queue: seq<Envelope>, delivered: nat, dropped: nat)

  /** One matching event offered to a subscriber. */
  function Offer(s: SubState, e: Envelope): SubState {
    if |s.queue| < s.maxsize then
      s.(queue := s.queue + [e], delivered := s.delivered + 1)
    else if IsCritical(e) then
      var rest := if s.queue == [] then [] else s.queue[1..];
      if |rest| < s.maxsize then
        s.(queue := rest + [e], delivered := s.delivered + 1, dropped := s.dropped + 1)
      else
        s.(queue := rest, dropped := s.dropped + 1)
    else
      s.(dropped := s.dropped + 1)
  }

  function OfferTimes(s: SubState, e: Envelope, n: nat): SubState {
    if n == 0 then s else Offer(OfferTimes(s, e, n - 1), e)
  }

  /** A subscriber handle. A filter answer of None stands for a filter that raised. */
  class Subscription {
    const id: string
    const channel: Channel
    const filter: Option<Envelope -> Option<bool>>
    const maxsize: nat
    var queue: seq<Envelope>
    var deliveredCount: nat
    var droppedCount: nat

    constructor (id: string, channel: Channel, maxsize: nat, filter: Option<Envelope -> Option<bool>>)
      ensures this.id == id && this.channel == channel && this.filter == filter && this.maxsize == maxsize
      ensures State() == SubState(maxsize, [], 0, 0)
    {
      this.id, this.channel, this.filter, this.maxsize := id, channel, filter, maxsize;
      queue, deliveredCount, droppedCount := [], 0, 0;
    }

    function State(): SubState
      reads this
    {
      SubState(maxsize, queue, deliveredCount, droppedCount)
    }

    predicate IsMatching(e: Envelope) {
      && (channel == WILDCARD || channel == e.channel)
      && (filter.None? || filter.value(e) == Some(true))
    }

    /** Put one matching event, with the overflow policy when the queue is full. */
    method Receive(e: Envelope)
      modifies this
      ensures State() == Offer(old(State()), e)
    {
      if |queue| < maxsize {
        queue := queue + [e];
        deliveredCount := deliveredCount + 1;
      } else {
        HandleOverflow(e, IsCritical(e));
      }
    }

    method HandleOverflow(e: Envelope, isCritical: bool)
      requires |queue| >= maxsize && isCritical == IsCritical(e)
      modifies this
      ensures State() == Offer(old(State()), e)
    {
      droppedCount := droppedCount + 1;
      if isCritical {
        if queue != [] {
          queue := queue[1..];
        }
        if |queue| < maxsize {
          queue := queue + [e];
          deliveredCount := deliveredCount + 1;
        }
      }
    }

    /** The consumer takes the oldest queued event, if there is one. */
    method Take() returns (e: Option<Envelope>)
      modifies this
      ensures old(queue) == [] ==> e == None && State() == old(State())
      ensures old(queue) != [] ==> e == Some(old(queue)[0]) && State() == old(State()).(queue := old(queue)[1..])
    {
      if queue == [] {
        return None;
      }
      e := Some(queue[0]);
      queue := queue[1..];
    }
  }

  class EventBus {
    var sequences: map<Channel, int>
    var subscribers: map<Channel, seq<Subscription>>
    var totalPublished: int

    /** Every subscriber is listed once, under its own channel, and has room for an event. */
    ghost predicate Valid()
      reads this
    {
      forall c | c in subscribers :: ListedAt(c, subscribers[c])
    }

    static ghost predicate ListedAt(c: Channel, subs: seq<Subscription>) {
      && (forall i | 0 <= i < |subs| :: subs[i].channel == c && subs[i].maxsize >= 1)
      && (forall i, j | 0 <= i < j < |subs| :: subs[i] != subs[j])
    }

    ghost function Members(c: Channel): set<Subscription>
      reads this
    {
      if c in subscribers then set s | s in subscribers[c] else {}
    }

    /** The subscribers an envelope on channel `c` is put to, and how often. The wildcard list is
        walked after the channel's own, so a wildcard subscriber meets a wildcard envelope twice. */
    ghost function Multiplicity(s: Subscription, c: Channel): nat
      reads this
    {
      (if s in Members(c) then 1 else 0) + (if s in Members(WILDCARD) then 1 else 0)
    }

    constructor ()
      ensures Valid() && sequences == map[] && subscribers == map[] && totalPublished == 0
    {
      sequences, subscribers, totalPublished := map[], map[], 0;
    }

    function CurrentSequence(c: Channel): int
      reads this
    {
      if c in sequences then sequences[c] else 0
    }

    method GetNextSequence(c: Channel) returns (next: int)
      modifies this`sequences
      ensures next == old(CurrentSequence(c)) + 1
      ensures sequences == old(sequences)[c := next]
    {
      next := (if c in sequences then sequences[c] else 0) + 1;
      sequences := sequences[c := next];
    }

    method Subscribe(id: string, c: Channel, maxsize: int, filter: Option<Envelope -> Option<bool>>)
      returns (sub: Subscription)
      requires Valid()
      requires forall d, i | d in subscribers && 0 <= i < |subscribers[d]| :: allocated(subscribers[d][i])
      modifies this`subscribers
      ensures Valid() && fresh(sub)
      ensures sub.channel == c && sub.filter == filter && sub.id == id && 10 <= sub.maxsize <= 1000
      ensures sub.State() == SubState(sub.maxsize, [], 0, 0)
      ensures Members(c) == old(Members(c)) + {sub}
      ensures forall d | d != c :: Members(d) == old(Members(d))
    {
      var bounded := if maxsize > 1000 then 1000 else maxsize;
      bounded := if bounded < 10 then 10 else bounded;
      sub := new Subscription(id, c, bounded, filter);
      if c !in subscribers {
        subscribers := subscribers[c := []];
      }
      assert sub !in subscribers[c];
      subscribers := subscribers[c := subscribers[c] + [sub]];
    }

    method Unsubscribe(sub: Subscription)
      requires Valid()
      modifies this`subscribers
      ensures Valid()
      ensures Members(sub.channel) == set s | s in old(Members(sub.channel)) && s.id != sub.id
      ensures forall d | d != sub.channel :: Members(d) == old(Members(d))
    {
      var c := sub.channel;
      if c in subscribers {
        var kept := WithoutId(subscribers[c], sub.id);
        forall i | 0 <= i < |kept| ensures kept[i].channel == c && kept[i].maxsize >= 1 {
          assert kept[i] in subscribers[c];
        }
        subscribers := subscribers[c := kept];
        if kept == [] {
          subscribers := subscribers - {c};
        }
      }
    }

    static function WithoutId(subs: seq<Subscription>, id: string): (r: seq<Subscription>)
      ensures forall s | s in subs && s.id != id :: s in r
      ensures forall s | s in r :: s in subs && s.id != id
      ensures (forall i, j | 0 <= i < j < |subs| :: subs[i] != subs[j]) ==>
                (forall i, j | 0 <= i < j < |r| :: r[i] != r[j])
    {
      if subs == [] then []
      else
        var last := subs[|subs| - 1];
        WithoutId(subs[..|subs| - 1], id) + (if last.id != id then [last] else [])
    }

    /** Publish: the channel's next number goes on the envelope, every matching subscriber is offered it
        as often as the lists mention it, and nobody else is touched. An envelope that fails its schema
        (`valid` is false) has used up the number, but is offered to nobody. */
    method Publish(eventType: string, c: Channel, payload: string, valid: bool) returns (e: Option<Envelope>)
      requires Valid()
      modifies this`sequences, this`totalPublished, Members(c), Members(WILDCARD)
      ensures Valid() && subscribers == old(subscribers)
      ensures e == if valid then Some(Envelope(eventType, c, old(CurrentSequence(c)) + 1, payload)) else None
      ensures sequences == old(sequences)[c := old(CurrentSequence(c)) + 1]
      ensures totalPublished == old(totalPublished) + 1
      ensures forall s | s in Members(c) + Members(WILDCARD) ::
                s.State() == OfferTimes(old(s.State()), Envelope(eventType, c, old(CurrentSequence(c)) + 1, payload),
                                        if valid && s.IsMatching(Envelope(eventType, c, old(CurrentSequence(c)) + 1,
                                                                          payload))
                                        then Multiplicity(s, c) else 0)
    {
      var sequence := GetNextSequence(c);
      totalPublished := totalPublished + 1;
      if !valid {
        return None;
      }
      var envelope := Envelope(eventType, c, sequence, payload);
      Dispatch(envelope);
      e := Some(envelope);
    }

    method Dispatch(e: Envelope)
      requires Valid()
      modifies Members(e.channel), Members(WILDCARD)
      ensures forall s | s in Members(e.channel) + Members(WILDCARD) ::
                s.State() == OfferTimes(old(s.State()), e, if s.IsMatching(e) then Multiplicity(s, e.channel) else 0)
    {
      var own := if e.channel in subscribers then subscribers[e.channel] else [];
      var wild := if WILDCARD in subscribers then subscribers[WILDCARD] else [];
      if e.channel != WILDCARD {
        forall s | s in own ensures s !in wild {
          assert s.channel == e.channel;
        }
      }
      OfferAll(own, e);
      label passed:
      OfferAll(wild, e);
      forall s | s in Members(e.channel) + Members(WILDCARD)
        ensures s.State() == OfferTimes(old(s.State()), e, if s.IsMatching(e) then Multiplicity(s, e.channel) else 0)
      {
        assert OfferTimes(old(s.State()), e, 0) == old(s.State());
        assert OfferTimes(old(s.State()), e, 1) == Offer(old(s.State()), e);
        assert OfferTimes(old(s.State()), e, 2) == Offer(Offer(old(s.State()), e), e);
        if s in own {
          assert old@passed(s.State()) == if s.IsMatching(e) then Offer(old(s.State()), e) else old(s.State());
        } else {
          assert old@passed(s.State()) == old(s.State());
        }
      }
    }

    /** One pass over a list of distinct subscribers. */
    static method OfferAll(targets: seq<Subscription>, e: Envelope)
      requires forall i, j | 0 <= i < j < |targets| :: targets[i] != targets[j]
      modifies set s | s in targets
      ensures forall s | s in targets ::
              s.State() == if s.IsMatching(e) then Offer(old(s.State()), e) else old(s.State())
    {
      for i := 0 to |targets|
        invariant forall j | 0 <= j < i :: targets[j].State() ==
                    if targets[j].IsMatching(e) then Offer(old(targets[j].State()), e) else old(targets[j].State())
        invariant forall j | i <= j < |targets| :: targets[j].State() == old(targets[j].State())
      {
        var sub := targets[i];
        if sub.IsMatching(e) {
          sub.Receive(e);
        }
      }
    }

    method Reset()
      modifies this
      ensures Valid() && sequences == map[] && subscribers == map[] && totalPublished == 0
    {
      sequences, subscribers, totalPublished := map[], map[], 0;
    }
  }

  // ----- Every run, as one subscriber sees it -----

  /** What anyone does to the bus that this subscriber can notice: a publication on any channel, or
      the subscriber's own consumer taking an event. */
  datatype Action = Publication(eventType: string, channel: Channel, payload: string, valid: bool) | Taking

  datatype Listener = Listener(channel: Channel, accepts: Envelope -> bool, maxsize: nat)

  /** The bus counters and the subscriber's state, with the history: every envelope offered so far, and
      the positions (in that history) of those consumed and of those waiting in the queue. */
  datatype World = World(sequences: map<Channel, int>, sub: SubState,
                         offered: seq<Envelope>, consumed: seq<nat>, waiting: seq<nat>)

  /** A fresh subscriber on a bus whose channels have been counting for any length of time. */
  function Initial(l: Listener, counters: map<Channel, int>): World {
    World(counters, SubState(l.maxsize, [], 0, 0), [], [], [])
  }

  /** How often the dispatch loop offers an envelope to the listener. */
  function Times(l: Listener, e: Envelope): nat {
    if (l.channel != WILDCARD && l.channel != e.channel) || !l.accepts(e) then 0
    else if e.channel == WILDCARD then 2 else 1
  }

  function OfferOnce(w: World, e: Envelope): World {
    var n := |w.offered|;
    w.(sub := Offer(w.sub, e), offered := w.offered + [e],
       waiting := if |w.sub.queue| < w.sub.maxsize then w.waiting + [n]
                  else if IsCritical(e) && w.waiting != [] then w.waiting[1..] + [n]
                  else w.waiting)
  }

  function Step(l: Listener, w: World, a: Action): World {
    match a
    case Publication(t, c, p, valid) =>
      var next := (if c in w.sequences then w.sequences[c] else 0) + 1;
      var e := Envelope(t, c, next, p);
      var v := w.(sequences := w.sequences[c := next]);
      var k := if valid then Times(l, e) else 0;
      if k == 0 then v else if k == 1 then OfferOnce(v, e) else OfferOnce(OfferOnce(v, e), e)
    case Taking =>
      if w.sub.queue == [] || w.waiting == [] then w
      else w.(sub := w.sub.(queue := w.sub.queue[1..]), consumed := w.consumed + [w.waiting[0]],
              waiting := w.waiting[1..])
  }

  function Run(l: Listener, counters: map<Channel, int>, actions: seq<Action>): World {
    if actions == [] then Initial(l, counters)
    else Step(l, Run(l, counters, actions[..|actions| - 1]), actions[|actions| - 1])
  }

  /** The listener's view is the bus's: a registered subscription is offered an envelope as often as the
      dispatch loop meets it, and its state moves as in `Run`. */
  lemma ViewIsDispatch(bus: EventBus, s: Subscription, e: Envelope, w: World)
    requires bus.Valid() && s in bus.Members(s.channel)
    requires w.sub == s.State()
    ensures var l := Listener(s.channel, (x: Envelope) => s.filter.None? || s.filter.value(x) == Some(true), s.maxsize);
            var n := if e.channel in w.sequences then w.sequences[e.channel] else 0;
            && Times(l, e) == (if s.IsMatching(e) then bus.Multiplicity(s, e.channel) else 0)
            && (e.sequence == n + 1 ==>
                  Step(l, w, Publication(e.eventType, e.channel, e.payload, true)).sub
                      == OfferTimes(s.State(), e, Times(l, e)))
  {
    assert s in bus.Members(e.channel) ==> s.channel == e.channel;
    assert s in bus.Members(WILDCARD) ==> s.channel == WILDCARD;
    assert OfferTimes(s.State(), e, 1) == Offer(s.State(), e);
    assert OfferTimes(s.State(), e, 2) == Offer(Offer(s.State(), e), e);
  }

  ghost predicate Increasing(q: seq<nat>) { forall i, j | 0 <= i < j < |q| :: q[i] < q[j] }

  /** The queue holds the waiting envelopes, the kept positions are in order, every offered envelope is
      consumed, queued or counted as dropped, and no critical envelope among the latest `maxsize`
      offered is missing. */
  ghost predicate QueueOk(w: World) {
    && |w.waiting| == |w.sub.queue| <= w.sub.maxsize
    && Increasing(w.consumed + w.waiting)
    && (forall k | k in w.consumed + w.waiting :: k < |w.offered|)
    && (forall i | 0 <= i < |w.waiting| :: w.waiting[i] < |w.offered| && w.sub.queue[i] == w.offered[w.waiting[i]])
    && |w.offered| == |w.consumed| + |w.sub.queue| + w.sub.dropped
    && CriticalKept(w)
  }

  ghost predicate CriticalKept(w: World) {
    forall j | |w.offered| - w.sub.maxsize <= j < |w.offered| && 0 <= j && IsCritical(w.offered[j]) ::
      j in w.consumed + w.waiting
  }

  /** Envelopes of one channel are offered in the order of their numbers; only the wildcard channel can
      repeat one. */
  ghost predicate NumbersOk(w: World) {
    && (forall i | 0 <= i < |w.offered| ::
          w.offered[i].channel in w.sequences && w.offered[i].sequence <= w.sequences[w.offered[i].channel])
    && (forall i, j | 0 <= i < j < |w.offered| && w.offered[i].channel == w.offered[j].channel ::
          && w.offered[i].sequence <= w.offered[j].sequence
          && (w.offered[i].channel != WILDCARD ==> w.offered[i].sequence < w.offered[j].sequence))
  }

  lemma OfferOnceQueueOk(w: World, e: Envelope)
    requires QueueOk(w) && w.sub.maxsize >= 1
    ensures QueueOk(OfferOnce(w, e))
  {
    OfferOnceCriticalKept(w, e);
    if |w.sub.queue| < w.sub.maxsize {
      QueuedOk(w, e);
    } else if IsCritical(e) {
      EvictedOk(w, e);
    } else {
      hide IsCritical, CriticalKept;
    }
  }

  lemma OfferOnceCriticalKept(w: World, e: Envelope)
    requires QueueOk(w) && w.sub.maxsize >= 1
    ensures CriticalKept(OfferOnce(w, e))
  {
    hide IsCritical, Offer, Increasing;
    var v, n := OfferOnce(w, e), |w.offered|;
    assert v.sub.maxsize == w.sub.maxsize by { OfferKeepsMaxsize(w.sub, e); }
    forall j | n + 1 - w.sub.maxsize <= j < n && 0 <= j && IsCritical(v.offered[j])
      ensures j in v.consumed + v.waiting
    {
      assert w.offered[j] == v.offered[j];
      RecentStays(w, e, j);
    }
    assert IsCritical(e) ==> n in v.consumed + v.waiting by { hide QueueOk; }
  }

  lemma RecentStays(w: World, e: Envelope, j: int)
    requires QueueOk(w) && w.sub.maxsize >= 1 && j in w.consumed + w.waiting
    requires |w.offered| + 1 - w.sub.maxsize <= j
    ensures j in OfferOnce(w, e).consumed + OfferOnce(w, e).waiting
  {
    hide IsCritical, Offer, Increasing;
    if |w.sub.queue| == w.sub.maxsize && IsCritical(e) { EvictHead(w); }
  }

  lemma OfferKeepsMaxsize(s: SubState, e: Envelope)
    ensures Offer(s, e).maxsize == s.maxsize
  {
  }

  /** Room in the queue: the envelope joins it. */
  lemma QueuedOk(w: World, e: Envelope)
    requires QueueOk(w) && |w.sub.queue| < w.sub.maxsize && CriticalKept(OfferOnce(w, e))
    ensures QueueOk(OfferOnce(w, e))
  {
    hide IsCritical, CriticalKept;
    var v, n := OfferOnce(w, e), |w.offered|;
    AppendIncreasing(w.consumed + w.waiting, n);
    assert v.consumed + v.waiting == (w.consumed + w.waiting) + [n];
  }

  /** A critical envelope at a full queue: the oldest one makes room. */
  lemma EvictedOk(w: World, e: Envelope)
    requires QueueOk(w) && |w.sub.queue| == w.sub.maxsize >= 1 && IsCritical(e) && CriticalKept(OfferOnce(w, e))
    ensures QueueOk(OfferOnce(w, e))
  {
    hide IsCritical, CriticalKept;
    var v, n := OfferOnce(w, e), |w.offered|;
    EvictHead(w);
    var kept := w.consumed + w.waiting[1..];
    assert v.consumed + v.waiting == kept + [n];
    AppendIncreasing(kept, n);
    forall i | 0 <= i < |v.waiting| ensures v.waiting[i] < |v.offered| && v.sub.queue[i] == v.offered[v.waiting[i]] {
      if i < |v.waiting| - 1 {
        assert v.waiting[i] == w.waiting[i + 1] && v.sub.queue[i] == w.sub.queue[i + 1];
      }
    }
  }

  /** The head of a full queue has `maxsize - 1` later envelopes queued behind it. */
  lemma EvictHead(w: World)
    requires QueueOk(w) && w.sub.maxsize >= 1 && |w.sub.queue| == w.sub.maxsize
    ensures w.waiting[0] <= |w.offered| - w.sub.maxsize
    ensures Increasing(w.consumed + w.waiting[1..])
    ensures forall k :: k in w.consumed + w.waiting <==> k in w.consumed + w.waiting[1..] || k == w.waiting[0]
    ensures forall k | k in w.consumed + w.waiting[1..] :: k < |w.offered|
  {
    hide IsCritical;
    var all, m := w.consumed + w.waiting, |w.consumed|;
    assert Increasing(w.waiting) by {
      forall i, j | 0 <= i < j < |w.waiting| ensures w.waiting[i] < w.waiting[j] {
        assert all[m + i] < all[m + j];
      }
    }
    IncreasingRoom(w.waiting, |w.offered|);
    assert all == w.consumed + [w.waiting[0]] + w.waiting[1..];
    RemoveOne(w.consumed, w.waiting[0], w.waiting[1..]);
  }

  lemma AppendIncreasing(q: seq<nat>, n: nat)
    requires Increasing(q) && forall k | k in q :: k < n
    ensures Increasing(q + [n])
    ensures forall k | k in q + [n] :: k < n + 1
  {
    forall i | 0 <= i < |q| ensures q[i] < n { assert q[i] in q; }
  }

  lemma RemoveOne(a: seq<nat>, x: nat, b: seq<nat>)
    requires Increasing(a + [x] + b)
    ensures Increasing(a + b)
    ensures forall k :: k in a + [x] + b <==> k in a + b || k == x
  {
    var all, rest, m := a + [x] + b, a + b, |a|;
    forall i, j | 0 <= i < j < |rest| ensures rest[i] < rest[j] {
      assert rest[i] == all[if i < m then i else i + 1] && rest[j] == all[if j < m then j else j + 1];
    }
  }

  lemma {:induction false} IncreasingRoom(q: seq<nat>, n: nat)
    requires Increasing(q) && forall i | 0 <= i < |q| :: q[i] < n
    ensures q != [] ==> q[0] + |q| <= n
    decreases |q|
  {
    if |q| > 1 {
      IncreasingRoom(q[1..], n);
    }
  }

  lemma TakeQueueOk(l: Listener, w: World)
    requires QueueOk(w)
    ensures QueueOk(Step(l, w, Taking))
  {
    hide IsCritical;
    if w.sub.queue != [] {
      var v := Step(l, w, Taking);
      assert v.consumed + v.waiting == w.consumed + w.waiting;
    }
  }

  lemma OfferOnceNumbersOk(w: World, e: Envelope)
    requires NumbersOk(w) && e.channel in w.sequences && e.sequence == w.sequences[e.channel]
    requires forall i | 0 <= i < |w.offered| && w.offered[i].channel == e.channel && e.channel != WILDCARD ::
               w.offered[i].sequence < e.sequence
    ensures NumbersOk(OfferOnce(w, e))
  {
  }

  /** In every run, for every subscriber: published matching events since it
      joined = consumed + queued + dropped, the
      queue never exceeds its size, events are consumed in the order offered with strictly increasing
      numbers per channel, and a critical event is lost only after `maxsize` later matching ones. */
  lemma {:induction false} RunOk(l: Listener, counters: map<Channel, int>, actions: seq<Action>)
    requires l.maxsize >= 1
    ensures QueueOk(Run(l, counters, actions)) && NumbersOk(Run(l, counters, actions))
            && Run(l, counters, actions).sub.maxsize == l.maxsize
    decreases |actions|
  {
    if actions != [] {
      var w, a := Run(l, counters, actions[..|actions| - 1]), actions[|actions| - 1];
      RunOk(l, counters, actions[..|actions| - 1]);
      match a
      case Taking =>
        TakeQueueOk(l, w);
      case Publication(t, c, p, valid) =>
        PublicationOk(l, w, t, c, p, valid);
    }
  }

  lemma PublicationOk(l: Listener, w: World, t: string, c: Channel, p: string, valid: bool)
    requires QueueOk(w) && NumbersOk(w) && w.sub.maxsize >= 1
    ensures var v := Step(l, w, Publication(t, c, p, valid));
            QueueOk(v) && NumbersOk(v) && v.sub.maxsize == w.sub.maxsize
  {
    hide QueueOk, IsCritical;
    var next := (if c in w.sequences then w.sequences[c] else 0) + 1;
    var e := Envelope(t, c, next, p);
    var v := w.(sequences := w.sequences[c := next]);
    assert QueueOk(v) by { QueueOkSame(w, v); }
    assert NumbersOk(v);
    OfferOnceQueueOk(v, e);
    OfferOnceNumbersOk(v, e);
    if c == WILDCARD {
      OfferOnceQueueOk(OfferOnce(v, e), e);
      OfferOnceNumbersOk(OfferOnce(v, e), e);
    }
  }

  lemma QueueOkSame(w: World, v: World)
    requires QueueOk(w) && v == w.(sequences := v.sequences)
    ensures QueueOk(v)
  {
    hide IsCritical;
  }

  /** Consumption order, spelled out: a later consumed envelope was offered later, and on a channel other
      than the wildcard it carries a larger number. */
  lemma ConsumedInOrder(l: Listener, counters: map<Channel, int>, actions: seq<Action>, i: nat, j: nat)
    requires l.maxsize >= 1 && i < j < |Run(l, counters, actions).consumed|
    ensures var w := Run(l, counters, actions);
            && w.consumed[i] < w.consumed[j] < |w.offered|
            && (w.offered[w.consumed[i]].channel == w.offered[w.consumed[j]].channel != WILDCARD ==>
                  w.offered[w.consumed[i]].sequence < w.offered[w.consumed[j]].sequence)
  {
    RunOk(l, counters, actions);
    var w := Run(l, counters, actions);
    hide Run, IsCritical;
    var all := w.consumed + w.waiting;
    assert all[i] == w.consumed[i] && all[j] == w.consumed[j];
    assert all[j] in all;
  }

  lemma {:induction false} IncreasingFull(q: seq<nat>, n: nat)
    requires Increasing(q) && |q| == n && forall k | k in q :: k < n
    ensures forall i | 0 <= i < n :: q[i] == i
    decreases n
  {
    if n > 0 {
      var r := q[..n - 1];
      assert q[n - 1] in q;
      forall k | k in r ensures k < n - 1 {
        var i :| 0 <= i < |r| && r[i] == k;
        assert q[i] < q[n - 1];
      }
      IncreasingFull(r, n - 1);
      if n > 1 { assert q[n - 2] < q[n - 1]; }
    }
  }

  /** A subscriber that never overflowed has missed nothing: what it consumed, followed by what is
      queued, is the whole history in order. */
  lemma NothingLostWithoutOverflow(l: Listener, counters: map<Channel, int>, actions: seq<Action>)
    requires l.maxsize >= 1 && Run(l, counters, actions).sub.dropped == 0
    ensures var w := Run(l, counters, actions);
            && |w.consumed| + |w.waiting| == |w.offered|
            && forall i | 0 <= i < |w.offered| :: (w.consumed + w.waiting)[i] == i
  {
    RunOk(l, counters, actions);
    var w := Run(l, counters, actions);
    hide Run, IsCritical;
    IncreasingFull(w.consumed + w.waiting, |w.offered|);
  }

  /** The envelope finds the queue full and is not critical. */
  predicate Rejects(s: SubState, e: Envelope) { |s.queue| >= s.maxsize && e.eventType !in CRITICAL_EVENT_TYPES }

  /** How often an action is turned away on arrival. */
  function RejectedNow(l: Listener, w: World, a: Action): nat {
    match a
    case Taking => 0
    case Publication(t, c, p, valid) =>
      var e := Envelope(t, c, (if c in w.sequences then w.sequences[c] else 0) + 1, p);
      var k := if valid then Times(l, e) else 0;
      (if k >= 1 && Rejects(w.sub, e) then 1 else 0) + (if k == 2 && Rejects(Offer(w.sub, e), e) then 1 else 0)
  }

  /** How many envelopes of a run were turned away on arrival. */
  function Rejected(l: Listener, counters: map<Channel, int>, actions: seq<Action>): nat {
    if actions == [] then 0
    else
      var prefix := actions[..|actions| - 1];
      Rejected(l, counters, prefix) + RejectedNow(l, Run(l, counters, prefix), actions[|actions| - 1])
  }

  lemma OfferCounts(s: SubState, e: Envelope)
    requires s.maxsize >= 1 && |s.queue| <= s.maxsize
    ensures var r, n := Offer(s, e), if Rejects(s, e) then 1 else 0;
            && r.delivered == s.delivered + 1 - n && r.dropped >= s.dropped + n && r.maxsize == s.maxsize
            && |r.queue| <= r.maxsize
            && (if n == 1 then r.queue == s.queue else r.queue != [] && r.queue[|r.queue| - 1] == e)
  {
      }

  lemma StepCounts(l: Listener, w: World, a: Action)
    requires w.sub.maxsize >= 1 && |w.sub.queue| <= w.sub.maxsize
    ensures var v, n := Step(l, w, a), RejectedNow(l, w, a);
            && v.sub.delivered - |v.offered| == w.sub.delivered - |w.offered| - n
            && v.sub.dropped >= w.sub.dropped + n
  {
    hide Offer, Rejects;
    if a.Publication? {
      var next := (if a.channel in w.sequences then w.sequences[a.channel] else 0) + 1;
      var e := Envelope(a.eventType, a.channel, next, a.payload);
      OfferCounts(w.sub, e);
      OfferCounts(Offer(w.sub, e), e);
    }
  }

  /** The delivered counter is the number of envelopes that were queued: all but those turned away on
      arrival, which are never critical and are all among the dropped ones. */
  lemma {:induction false} DeliveredIs(l: Listener, counters: map<Channel, int>, actions: seq<Action>)
    requires l.maxsize >= 1
    ensures var w := Run(l, counters, actions);
            && w.sub.delivered == |w.offered| - Rejected(l, counters, actions)
            && Rejected(l, counters, actions) <= w.sub.dropped
    decreases |actions|
  {
    hide Step, RejectedNow, CriticalKept, NumbersOk;
    if actions != [] {
      var prefix := actions[..|actions| - 1];
      DeliveredIs(l, counters, prefix);
      RunOk(l, counters, prefix);
      StepCounts(l, Run(l, counters, prefix), actions[|actions| - 1]);
    }
  }

  // ----- What the overflow policy evicts -----

  /** The oldest event of a queue that is not critical. */
  ghost predicate OldestNonCritical(queue: seq<Envelope>, k: int) {
    && 0 <= k < |queue| && !IsCritical(queue[k])
    && forall j | 0 <= j < k :: IsCritical(queue[j])
  }

  /** A critical event at a full queue makes room as the policy announces, by evicting the oldest
      non-critical event, if and only if the head of the queue is not critical. */
  lemma EvictsOldestNonCriticalIff(s: SubState, e: Envelope, k: int)
    requires |s.queue| == s.maxsize && IsCritical(e) && OldestNonCritical(s.queue, k)
    ensures Offer(s, e).queue == s.queue[..k] + s.queue[k + 1..] + [e] <==> !IsCritical(s.queue[0])
  {
    hide IsCritical;
    var announced := s.queue[..k] + s.queue[k + 1..] + [e];
    if IsCritical(s.queue[0]) {
      assert Offer(s, e).queue[k - 1] == s.queue[k];
      assert announced[k - 1] == s.queue[k - 1];
    } else {
      assert k == 0;
    }
  }

  /** One critical event, then `k` others. */
  function CriticalFirst(c: Channel, k: nat): seq<Action> {
    (if k == 0 then [] else CriticalFirst(c, k - 1)) + [Publication(TypeAt(k), c, "", true)]
  }

  function TypeAt(k: nat): string { if k == 0 then "alert.created" else "track.updated" }

  ghost predicate CriticalAtHead(w: World, n: nat) {
    && |w.sub.queue| == n && w.consumed == [] && |w.waiting| == n && |w.offered| == n
    && (forall i | 0 <= i < n :: w.waiting[i] == i && (IsCritical(w.offered[i]) <==> i == 0))
  }

  lemma Kinds(e: Envelope)
    ensures forall k: nat | e.eventType == TypeAt(k) :: IsCritical(e) <==> k == 0
    ensures e.eventType == "alert.updated" ==> IsCritical(e)
  {
    assert TypeAt(0) in CRITICAL_EVENT_TYPES;
    assert forall k: nat | k > 0 :: TypeAt(k) !in CRITICAL_EVENT_TYPES;
  }

  lemma PublishedOnce(l: Listener, w: World, t: string, c: Channel)
    requires c != WILDCARD && (l.channel == WILDCARD || l.channel == c) && forall e :: l.accepts(e)
    ensures var next := (if c in w.sequences then w.sequences[c] else 0) + 1;
            Step(l, w, Publication(t, c, "", true))
                == OfferOnce(w.(sequences := w.sequences[c := next]), Envelope(t, c, next, ""))
  {
    hide OfferOnce;
  }

  lemma JoinsQueue(w: World, n: nat, e: Envelope)
    requires CriticalAtHead(w, n) && n < w.sub.maxsize && (IsCritical(e) <==> n == 0)
    ensures CriticalAtHead(OfferOnce(w, e), n + 1) && OfferOnce(w, e).sub.maxsize == w.sub.maxsize
  {
    hide IsCritical;
  }

  lemma HeadEvicted(w: World, n: nat, e: Envelope)
    requires CriticalAtHead(w, n) && n == w.sub.maxsize >= 2 && IsCritical(e)
    ensures var v := OfferOnce(w, e);
            && |v.offered| == n + 1 && IsCritical(v.offered[0]) && 0 !in v.consumed + v.waiting
            && forall i | 1 <= i < n :: !IsCritical(v.offered[i]) && i in v.waiting
  {
    hide IsCritical;
    var v := OfferOnce(w, e);
    forall i | 1 <= i < n ensures i in v.waiting {
      assert v.waiting[i - 1] == i;
    }
  }

  lemma NobodyYet(l: Listener, counters: map<Channel, int>)
    ensures CriticalAtHead(Run(l, counters, []), 0) && Run(l, counters, []).sub.maxsize == l.maxsize
  {
  }

  lemma SameHead(w: World, v: World, n: nat)
    requires CriticalAtHead(w, n) && v == w.(sequences := v.sequences)
    ensures CriticalAtHead(v, n)
  {
    hide IsCritical;
  }

  lemma OneMore(l: Listener, w: World, c: Channel, k: nat)
    requires k < l.maxsize == w.sub.maxsize && c != WILDCARD && (l.channel == WILDCARD || l.channel == c)
    requires CriticalAtHead(w, k) && forall e :: l.accepts(e)
    ensures var v := Step(l, w, Publication(TypeAt(k), c, "", true));
            v.sub.maxsize == l.maxsize && CriticalAtHead(v, k + 1)
  {
    hide IsCritical, OfferOnce, Step, TypeAt, CriticalAtHead;
    var next := (if c in w.sequences then w.sequences[c] else 0) + 1;
    var e := Envelope(TypeAt(k), c, next, "");
    PublishedOnce(l, w, TypeAt(k), c);
    Kinds(e);
    SameHead(w, w.(sequences := w.sequences[c := next]), k);
    JoinsQueue(w.(sequences := w.sequences[c := next]), k, e);
  }

  lemma {:induction false} CriticalFirstFills(l: Listener, counters: map<Channel, int>, c: Channel, k: nat)
    requires k < l.maxsize && c != WILDCARD && (l.channel == WILDCARD || l.channel == c)
    requires forall e :: l.accepts(e)
    ensures var w := Run(l, counters, CriticalFirst(c, k)); w.sub.maxsize == l.maxsize && CriticalAtHead(w, k + 1)
  {
    hide CriticalFirst, Run, Step, TypeAt, CriticalAtHead;
    var before := if k == 0 then [] else CriticalFirst(c, k - 1);
    if k == 0 {
      NobodyYet(l, counters);
    } else {
      CriticalFirstFills(l, counters, c, k - 1);
    }
    OneMore(l, Run(l, counters, before), c, k);
    RunMore(l, counters, before, Publication(TypeAt(k), c, "", true));
    assert CriticalFirst(c, k) == before + [Publication(TypeAt(k), c, "", true)] by { CriticalFirstIs(c, k); }
  }

  lemma CriticalFirstIs(c: Channel, k: nat)
    ensures CriticalFirst(c, k) == (if k == 0 then [] else CriticalFirst(c, k - 1))
            + [Publication(TypeAt(k), c, "", true)]
  {
  }

  lemma RunMore(l: Listener, counters: map<Channel, int>, before: seq<Action>, a: Action)
    ensures Run(l, counters, before + [a]) == Step(l, Run(l, counters, before), a)
  {
    hide Step;
    assert (before + [a])[..|before + [a]| - 1] == before;
  }

  /** So a critical event really is lost to a later one although everything queued behind it is not
      critical: on every subscription of at least two places, and `Subscribe` makes none below ten. */
  lemma CriticalEvictedFirst(l: Listener, counters: map<Channel, int>, c: Channel)
    requires l.maxsize >= 2 && c != WILDCARD && (l.channel == WILDCARD || l.channel == c)
    requires forall e :: l.accepts(e)
    ensures var w := Run(l, counters, CriticalFirst(c, l.maxsize - 1) + [Publication("alert.updated", c, "", true)]);
            && |w.offered| == l.maxsize + 1
            && IsCritical(w.offered[0]) && 0 !in w.consumed + w.waiting
            && forall i | 1 <= i < l.maxsize :: !IsCritical(w.offered[i]) && i in w.waiting
  {
    hide IsCritical, OfferOnce, Step, Run, CriticalFirst, CriticalAtHead;
    var before := CriticalFirst(c, l.maxsize - 1);
    RunMore(l, counters, before, Publication("alert.updated", c, "", true));
    CriticalFirstFills(l, counters, c, l.maxsize - 1);
    var w := Run(l, counters, before);
    var next := (if c in w.sequences then w.sequences[c] else 0) + 1;
    PublishedOnce(l, w, "alert.updated", c);
    Kinds(Envelope("alert.updated", c, next, ""));
    SameHead(w, w.(sequences := w.sequences[c := next]), l.maxsize);
    HeadEvicted(w.(sequences := w.sequences[c := next]), l.maxsize, Envelope("alert.updated", c, next, ""));
  }

  /** A publication on the wildcard channel itself reaches a wildcard subscriber twice, under one
      number: there the strict order of numbers fails. */
  lemma WildcardOfferedTwice(l: Listener, counters: map<Channel, int>, t: string, p: string)
    requires l.channel == WILDCARD && l.maxsize >= 2
    requires l.accepts(Envelope(t, WILDCARD, (if WILDCARD in counters then counters[WILDCARD] else 0) + 1, p))
    ensures var e := Envelope(t, WILDCARD, (if WILDCARD in counters then counters[WILDCARD] else 0) + 1, p);
            Step(l, Initial(l, counters), Publication(t, WILDCARD, p, true)).sub.queue == [e, e]
  {
  }
}
