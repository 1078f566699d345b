/** The event publisher of the WebSocket server: subscribers with lossy channels of their own. */
module EventPublisher {
  import opened Wrappers

  datatype EventType =
    | DownloadStart | DownloadPause | DownloadStop | DownloadComplete | DownloadError | BtDownloadComplete

  datatype Item = Item(kind: EventType, payload: string)

  datatype RecvResult = Received(item: Item) | Lagged(missed: nat) | Empty | Closed

  function RoundUpTo(n: nat, p: nat): (r: nat)
    requires 0 < p
    ensures n <= r && p <= r
    decreases n - p
  {
    if n <= p then p else RoundUpTo(n, 2 * p)
  }

  /** What the results received so far stand for: one event each, or as many as were missed. */
  function Covered(results: seq<RecvResult>): nat {
    if results == [] then 0
    else Covered(results[..|results| - 1]) +
         match results[|results| - 1]
         case Received(_) => 1
         case Lagged(missed) => missed
         case _ => 0
  }

  /** Every received event is the one at the position the results before it lead to. */
  ghost predicate Account(results: seq<RecvResult>, sent: seq<Item>) {
    forall k | 0 <= k < |results| && results[k].Received? ::
      Covered(results[..k]) < |sent| && results[k].item == sent[Covered(results[..k])]
  }

  lemma AccountGrows(results: seq<RecvResult>, sent: seq<Item>, r: RecvResult)
    requires Account(results, sent)
    requires r.Received? ==> Covered(results) < |sent| && r.item == sent[Covered(results)]
    ensures Account(results + [r], sent)
    ensures Covered(results + [r]) == Covered(results) + Covered([r])
  {
    assert (results + [r])[..|results|] == results;
    assert [r][..0] == [];
    forall k | 0 <= k < |results| ensures (results + [r])[..k] == results[..k] {}
  }

  predicate Accepts(filter: Option<seq<EventType>>, kind: EventType) {
    filter.None? || kind in filter.value
  }

  function Accepted(filter: Option<seq<EventType>>, history: seq<Item>): seq<Item> {
    if history == [] then []
    else Accepted(filter, history[..|history| - 1]) +
         if Accepts(filter, history[|history| - 1].kind) then [history[|history| - 1]] else []
  }

  /**
    One broadcast channel with its only receiver. `sent` is everything ever sent; of it the
    channel can still hand out the last `capacity` events.
   */
  class Channel {
    const id: string
    const capacity: nat
    var sent: seq<Item>
    var next: nat
    var senderAlive: bool
    var receiverAlive: bool
    /** Every event published while this channel was registered, accepted or not. */
    ghost var offered: seq<Item>
    ghost var results: seq<RecvResult>

    ghost predicate Valid()
      reads this
    {
      0 < capacity && next == Covered(results) <= |sent| && Account(results, sent)
    }

    constructor (id: string, capacity: nat)
      requires 0 < capacity
      ensures Valid() && this.id == id && this.capacity == RoundUpTo(capacity, 1)
      ensures sent == [] && offered == [] && results == [] && senderAlive && receiverAlive
    {
      this.id, this.capacity := id, RoundUpTo(capacity, 1);
      sent, next, offered, results, senderAlive, receiverAlive := [], 0, [], [], true, true;
    }

    method Send(item: Item) returns (ok: bool)
      requires Valid()
      modifies this`sent
      ensures Valid() && ok == receiverAlive
      ensures sent == old(sent) + if ok then [item] else []
    {
      if receiverAlive { sent := sent + [item]; }
      return receiverAlive;
    }

    /**
      The next event, or how many were lost because more than `capacity` accepted events were
      waiting. With `results` this accounts for every accepted event, in order.
     */
    method Recv() returns (r: RecvResult)
      requires Valid()
      modifies this`next, this`results
      ensures Valid() && results == old(results) + [r]
      ensures r.Lagged? <==> old(next) + capacity < |sent|
      ensures r.Lagged? ==> next == old(next) + r.missed == |sent| - capacity
      ensures r.Received? <==> old(next) < |sent| <= old(next) + capacity
      ensures r.Received? ==> r.item == sent[old(next)] && next == old(next) + 1
      ensures r.Empty? || r.Closed? ==> Covered(results) == |sent|
      ensures r.Closed? ==> !senderAlive
    {
      if next + capacity < |sent| {
        r := Lagged(|sent| - capacity - next);
        AccountGrows(results, sent, r);
        next := |sent| - capacity;
      } else if next < |sent| {
        r := Received(sent[next]);
        AccountGrows(results, sent, r);
        next := next + 1;
      } else {
        r := if senderAlive then Empty else Closed;
        AccountGrows(results, sent, r);
      }
      assert Covered([r]) == match r { case Received(_) => 1 case Lagged(missed) => missed case _ => 0 };
      results := results + [r];
    }
  }

  datatype Subscriber = Subscriber(filter: Option<seq<EventType>>, channel: Channel)

  /** A registered channel has a receiver and was sent exactly what its filter accepted. */
  ghost predicate Serves(id: string, s: Subscriber)
    reads s.channel
  {
    && s.channel.Valid() && s.channel.id == id && s.channel.senderAlive && s.channel.receiverAlive
    && s.channel.sent == Accepted(s.filter, s.channel.offered)
  }

  lemma InAppended(order: seq<string>, id: string)
    ensures forall other :: other in order + [id] <==> other in order || other == id
  {
  }

  /** The ids in some order, as the iterator of a hash map yields them. */
  method Enumerate(ids: set<string>) returns (order: seq<string>)
    ensures forall id :: id in order <==> id in ids
    ensures forall i, j | 0 <= i < j < |order| :: order[i] != order[j]
  {
    order := [];
    var rest := ids;
    while rest != {}
      invariant forall id :: id in order <==> id in ids && id !in rest
      invariant forall i, j | 0 <= i < j < |order| :: order[i] != order[j]
      invariant rest <= ids
      decreases rest
    {
      var id :| id in rest;
      InAppended(order, id);
      order, rest := order + [id], rest - {id};
    }
  }

  /** How many of the first n subscribers accept the event. */
  function CountAccepting(subs: map<string, Subscriber>, ids: seq<string>, n: nat, item: Item): nat
    requires n <= |ids| && forall i | 0 <= i < |ids| :: ids[i] in subs
  {
    if n == 0 then 0
    else CountAccepting(subs, ids, n - 1, item) + if Accepts(subs[ids[n - 1]].filter, item.kind) then 1 else 0
  }

  /** One event for one subscriber. */
  method SendTo(id: string, s: Subscriber, item: Item) returns (ok: bool)
    requires Serves(id, s)
    modifies s.channel`sent, s.channel`offered
    ensures Serves(id, s) && s.channel.offered == old(s.channel.offered) + [item]
    ensures ok == Accepts(s.filter, item.kind)
  {
    ok := false;
    assert (s.channel.offered + [item])[..|s.channel.offered|] == s.channel.offered;
    if Accepts(s.filter, item.kind) { ok := s.channel.Send(item); }
    s.channel.offered := s.channel.offered + [item];
  }

  /** The ids name distinct subscribers. */
  ghost predicate Listed(subs: map<string, Subscriber>, ids: seq<string>) {
    (forall i | 0 <= i < |ids| :: ids[i] in subs) && forall i, j | 0 <= i < j < |ids| :: ids[i] != ids[j]
  }

  ghost function ChannelsOf(subs: map<string, Subscriber>, ids: seq<string>): set<Channel>
    requires Listed(subs, ids)
  {
    set i | 0 <= i < |ids| :: subs[ids[i]].channel
  }

  ghost predicate AllServe(subs: map<string, Subscriber>, ids: seq<string>)
    requires Listed(subs, ids)
    reads ChannelsOf(subs, ids)
  {
    forall i | 0 <= i < |ids| :: Serves(ids[i], subs[ids[i]])
  }

  /** The first n subscribers have been offered the event on top of what they had before. */
  ghost predicate Offered(subs: map<string, Subscriber>, ids: seq<string>, n: nat, before: seq<seq<Item>>, item: Item)
    requires Listed(subs, ids)
    reads ChannelsOf(subs, ids)
  {
    n <= |ids| == |before| &&
    forall i | 0 <= i < |ids| :: subs[ids[i]].channel.offered == before[i] + if i < n then [item] else []
  }

  ghost function OffersTo(subs: map<string, Subscriber>, ids: seq<string>): (r: seq<seq<Item>>)
    requires Listed(subs, ids)
    reads ChannelsOf(subs, ids)
    ensures |r| == |ids| && forall i | 0 <= i < |ids| :: r[i] == subs[ids[i]].channel.offered
  {
    seq(|ids|, i requires 0 <= i < |ids| reads ChannelsOf(subs, ids) => subs[ids[i]].channel.offered)
  }

  /** The first n subscribers have been served, `count` of which accepted the event. */
  ghost predicate ServedUpTo(subs: map<string, Subscriber>, ids: seq<string>, n: nat, before: seq<seq<Item>>,
                             item: Item, count: nat)
    requires Listed(subs, ids)
    reads ChannelsOf(subs, ids)
  {
    AllServe(subs, ids) && Offered(subs, ids, n, before, item) && count == CountAccepting(subs, ids, n, item)
  }

  method SendToNth(subs: map<string, Subscriber>, ids: seq<string>, n: nat, item: Item, ghost before: seq<seq<Item>>)
    returns (ok: bool)
    requires Listed(subs, ids) && n < |ids| && AllServe(subs, ids) && Offered(subs, ids, n, before, item)
    modifies subs[ids[n]].channel`sent, subs[ids[n]].channel`offered
    ensures AllServe(subs, ids) && Offered(subs, ids, n + 1, before, item)
    ensures ok == Accepts(subs[ids[n]].filter, item.kind)
  {
    assert forall i | 0 <= i < |ids| && i != n :: subs[ids[i]].channel.id != subs[ids[n]].channel.id;
    ok := SendTo(ids[n], subs[ids[n]], item);
  }

  /** One turn of the loop of `publish`. */
  method SendToNext(subs: map<string, Subscriber>, ids: seq<string>, n: nat, item: Item, ghost before: seq<seq<Item>>,
                    delivered: nat)
    returns (delivered': nat)
    requires Listed(subs, ids) && n < |ids| && ServedUpTo(subs, ids, n, before, item, delivered)
    modifies ChannelsOf(subs, ids)`sent, ChannelsOf(subs, ids)`offered
    ensures ServedUpTo(subs, ids, n + 1, before, item, delivered')
  {
    assert subs[ids[n]].channel in ChannelsOf(subs, ids);
    var ok := SendToNth(subs, ids, n, item, before);
    return if ok then delivered + 1 else delivered;
  }

  /** The loop of `publish` over the subscribers. */
  method SendToAll(subs: map<string, Subscriber>, ids: seq<string>, item: Item, ghost before: seq<seq<Item>>)
    returns (delivered: nat)
    requires Listed(subs, ids) && AllServe(subs, ids) && Offered(subs, ids, 0, before, item)
    modifies ChannelsOf(subs, ids)`sent, ChannelsOf(subs, ids)`offered
    ensures ServedUpTo(subs, ids, |ids|, before, item, delivered)
  {
    delivered := 0;
    for i := 0 to |ids|
      invariant ServedUpTo(subs, ids, i, before, item, delivered)
    {
      delivered := SendToNext(subs, ids, i, item, before, delivered);
    }
  }

  lemma {:induction false} AcceptingSubscribers(subs: map<string, Subscriber>, ids: seq<string>, n: nat, item: Item)
    returns (accepting: set<string>)
    requires n <= |ids| && forall i | 0 <= i < |ids| :: ids[i] in subs
    requires forall i, j | 0 <= i < j < |ids| :: ids[i] != ids[j]
    ensures CountAccepting(subs, ids, n, item) == |accepting|
    ensures forall id | id in accepting :: id in subs && Accepts(subs[id].filter, item.kind)
    ensures forall i | 0 <= i < |ids| && Accepts(subs[ids[i]].filter, item.kind) :: ids[i] in accepting <==> i < n
  {
    accepting := {};
    if n == 0 {
    } else {
      accepting := AcceptingSubscribers(subs, ids, n - 1, item);
      if Accepts(subs[ids[n - 1]].filter, item.kind) { accepting := accepting + {ids[n - 1]}; }
    }
  }

  /** Counting along any enumeration of the subscribers counts the accepting ones. */
  lemma CountIsCardinality(subs: map<string, Subscriber>, ids: seq<string>, item: Item)
    requires forall id :: id in ids <==> id in subs
    requires forall i, j | 0 <= i < j < |ids| :: ids[i] != ids[j]
    ensures CountAccepting(subs, ids, |ids|, item) == |set id | id in subs && Accepts(subs[id].filter, item.kind)|
  {
    var accepting := AcceptingSubscribers(subs, ids, |ids|, item);
    assert accepting == set id | id in subs && Accepts(subs[id].filter, item.kind);
  }

  class EventPublisher {
    const capacity: nat
    var subscribers: map<string, Subscriber>

    ghost function Channels(): set<Channel>
      reads this
    {
      set id | id in subscribers :: subscribers[id].channel
    }

    ghost predicate Valid()
      reads this, Channels()
    {
      0 < capacity && forall id | id in subscribers :: Serves(id, subscribers[id])
    }

    constructor (capacity: nat)
      requires 0 < capacity
      ensures Valid() && this.capacity == capacity && subscribers == map[]
    {
      this.capacity, subscribers := capacity, map[];
    }

    /** A registration under an id in use replaces the old one, whose sender is dropped. */
    method Subscribe(id: string, filter: Option<seq<EventType>>) returns (channel: Channel)
      requires Valid()
      modifies this`subscribers, (if id in subscribers then {subscribers[id].channel} else {})`senderAlive
      ensures Valid() && fresh(channel) && channel.capacity == RoundUpTo(capacity, 1)
      ensures subscribers == old(subscribers)[id := Subscriber(filter, channel)]
      ensures channel.sent == [] && channel.offered == [] && channel.results == []
      ensures id in old(subscribers) ==> !old(subscribers[id].channel).senderAlive
    {
      channel := new Channel(id, capacity);
      if id in subscribers { subscribers[id].channel.senderAlive := false; }
      subscribers := subscribers[id := Subscriber(filter, channel)];
    }

    method Unsubscribe(id: string)
      requires Valid()
      modifies this`subscribers, (if id in subscribers then {subscribers[id].channel} else {})`senderAlive
      ensures Valid() && subscribers == old(subscribers) - {id}
      ensures id in old(subscribers) ==> !old(subscribers[id].channel).senderAlive
    {
      if id in subscribers { subscribers[id].channel.senderAlive := false; }
      subscribers := subscribers - {id};
    }

    /** Dropping a subscription removes whatever is registered under its id, then its receiver. */
    method Drop(channel: Channel)
      requires Valid()
      modifies this`subscribers, channel`receiverAlive,
               (if channel.id in subscribers then {subscribers[channel.id].channel} else {})`senderAlive
      ensures Valid() && subscribers == old(subscribers) - {channel.id} && !channel.receiverAlive
    {
      Unsubscribe(channel.id);
      channel.receiverAlive := false;
    }

    /**
      Offers the event to every registered channel, which takes it exactly when its filter
      accepts it, and returns how many did.
     */
    method Publish(item: Item) returns (r: Result<nat, string>)
      requires Valid()
      modifies Channels()`sent, Channels()`offered
      ensures Valid()
      ensures forall id | id in subscribers ::
                subscribers[id].channel.offered == old(subscribers[id].channel.offered) + [item]
      ensures r == if subscribers == map[] then Err("No subscribers")
                   else Ok(|set id | id in subscribers && Accepts(subscribers[id].filter, item.kind)|)
    {
      if subscribers == map[] {
        return Err("No subscribers");
      }
      var ids := Enumerate(subscribers.Keys);
      ghost var before := OffersTo(subscribers, ids);
      var delivered := SendToAll(subscribers, ids, item, before);
      CountIsCardinality(subscribers, ids, item);
      return Ok(delivered);
    }
  }

  lemma {:induction false} OnlyAcceptedAreKept(filter: Option<seq<EventType>>, history: seq<Item>, item: Item)
    ensures item in Accepted(filter, history) <==> item in history && Accepts(filter, item.kind)
  {
    if history == [] {
    } else {
      OnlyAcceptedAreKept(filter, history[..|history| - 1], item);
      assert history == history[..|history| - 1] + [history[|history| - 1]];
    }
  }

  lemma {:induction false} CoveredGrows(results: seq<RecvResult>, i: nat, j: nat)
    requires i <= j <= |results|
    ensures Covered(results[..i]) <= Covered(results[..j])
    ensures i < j && results[i].Received? ==> Covered(results[..i]) < Covered(results[..j])
    decreases j - i
  {
    if i < j {
      CoveredGrows(results, i, j - 1);
      assert results[..j][..j - 1] == results[..j - 1];
    }
  }

  /** Lagged or not, no event is received twice and none before an earlier one. */
  lemma ReceivedInOrder(results: seq<RecvResult>, sent: seq<Item>, i: nat, j: nat)
    requires Account(results, sent) && i < j < |results| && results[i].Received? && results[j].Received?
    ensures var p, q := Covered(results[..i]), Covered(results[..j]);
            p < q < |sent| && results[i].item == sent[p] && results[j].item == sent[q]
  {
    CoveredGrows(results, i, j);
  }

  /**
    A subscriber that has drained its channel without ever lagging has received exactly the
    accepted events, in order; every lag count stands for that many events in between.
   */
  lemma {:induction false} DrainedWithoutLagReceivedAll(results: seq<RecvResult>, sent: seq<Item>, k: nat)
    requires Account(results, sent) && Covered(results) <= |sent|
    requires forall i | 0 <= i < |results| :: !results[i].Lagged?
    requires k <= |results|
    ensures Covered(results[..k]) <= |sent|
    ensures Payloads(results[..k]) == sent[..Covered(results[..k])]
  {
    if k == 0 {
    } else {
      DrainedWithoutLagReceivedAll(results, sent, k - 1);
      assert results[..k][..k - 1] == results[..k - 1];
    }
  }

  function Payloads(results: seq<RecvResult>): seq<Item> {
    if results == [] then []
    else Payloads(results[..|results| - 1]) +
         match results[|results| - 1] case Received(item) => [item] case _ => []
  }

  /** Without a filter everything is accepted, with one the events of its kinds, in their order. */
  lemma AcceptedByKind(filter: Option<seq<EventType>>, history: seq<Item>, item: Item)
    ensures Accepted(filter, history + [item])
            == Accepted(filter, history)
               + (match filter case None => [item] case Some(kinds) => if item.kind in kinds then [item] else [])
    ensures Accepted(filter, []) == []
  {
    assert (history + [item])[..|history|] == history;
  }

  function PowerOfTwo(k: nat): (p: nat)
    ensures 0 < p
  {
    if k == 0 then 1 else 2 * PowerOfTwo(k - 1)
  }

  /** A channel's capacity is the least power of two that is not below what was asked for. */
  lemma {:induction false} CapacityIsPowerOfTwo(n: nat, k: nat) returns (j: nat)
    requires 0 < n && (k > 0 ==> PowerOfTwo(k - 1) < n)
    ensures RoundUpTo(n, PowerOfTwo(k)) == PowerOfTwo(j) && (j > 0 ==> PowerOfTwo(j - 1) < n)
    decreases n - PowerOfTwo(k)
  {
    j := k;
    if PowerOfTwo(k) < n { j := CapacityIsPowerOfTwo(n, k + 1); }
  }
}
