/** The notification batcher of the WebSocket server: a queue of keys and a map from keys. */
module NotificationBatcher {
  import opened Collections
  import opened Wrappers
  import opened JsonValue

  datatype DownloadEvent = DownloadEvent(name: string, params: seq<Json>)

  /** The gid in the first parameter, or the empty string. */
  function Gid(e: DownloadEvent): string {
    if 0 < |e.params| && e.params[0].Obj? && "gid" in e.params[0].fields && e.params[0].fields["gid"].Str?
    then e.params[0].fields["gid"].s else ""
  }

  function KeyFor(gid: string, name: string): string { gid + ":" + name }

  function Key(e: DownloadEvent): string { KeyFor(Gid(e), e.name) }

  // ---------- when a key identifies gid and method ----------

  const METHOD_NAMES: set<string> := {
    "aria2.onDownloadStart", "aria2.onDownloadPause", "aria2.onDownloadStop",
    "aria2.onDownloadComplete", "aria2.onDownloadError", "aria2.onBtDownloadComplete" }

  /** `m` is some text, a colon, and then `n`. */
  predicate EndsIn(m: string, n: string) { |n| < |m| && m[|m| - |n| - 1] == ':' && m[|m| - |n|..] == n }

  /** The part of the longer method that a key can also count to the gid. */
  function Excess(m: string, n: string): string
    requires EndsIn(m, n)
  {
    m[..|m| - |n| - 1]
  }

  /** The two pairs share a key because the first gid stops earlier than the second. */
  predicate Overlap(g: string, m: string, h: string, n: string) { EndsIn(m, n) && h == KeyFor(g, Excess(m, n)) }

  lemma LongerMethodOverlaps(g: string, m: string, h: string, n: string)
    requires KeyFor(g, m) == KeyFor(h, n) && |n| < |m|
    ensures Overlap(g, m, h, n)
  {
    var key, k := KeyFor(g, m), |m| - |n| - 1;
    assert key == KeyFor(h, n);
    assert key[|h|] == ':' && |h| == |g| + 1 + k;
    assert m == key[|g| + 1..] && m[k] == key[|h|];
    assert m[k + 1..] == key[|h| + 1..] == n;
    assert h == key[..|h|] == KeyFor(g, m[..k]);
  }

  lemma OverlapSharesKey(g: string, m: string, h: string, n: string)
    requires Overlap(g, m, h, n)
    ensures KeyFor(g, m) == KeyFor(h, n) && g != h
  {
    assert m == Excess(m, n) + (":" + n);
    Associative(g + ":", Excess(m, n), ":" + n);
    Associative(h, ":", n);
    assert |h| == |g| + 1 + |Excess(m, n)|;
  }

  /** When any two pairs of gid and method share a key. */
  lemma SharedKeys(g: string, m: string, h: string, n: string)
    ensures KeyFor(g, m) == KeyFor(h, n) <==> (g == h && m == n) || Overlap(g, m, h, n) || Overlap(h, n, g, m)
  {
    if KeyFor(g, m) == KeyFor(h, n) {
      if |n| < |m| {
        LongerMethodOverlaps(g, m, h, n);
      } else if |m| < |n| {
        LongerMethodOverlaps(h, n, g, m);
      } else {
        assert g == KeyFor(g, m)[..|g|] && h == KeyFor(h, n)[..|h|];
        assert m == KeyFor(g, m)[|g| + 1..] && n == KeyFor(h, n)[|h| + 1..];
      }
    } else {
      if Overlap(g, m, h, n) { OverlapSharesKey(g, m, h, n); }
      if Overlap(h, n, g, m) { OverlapSharesKey(h, n, g, m); }
    }
  }

  predicate Collide(g: string, m: string, h: string, n: string) {
    (g != h || m != n) && KeyFor(g, m) == KeyFor(h, n)
  }

  /**
    Two methods can be confused, for some gids, exactly when one of them ends in a colon and
    the other. A method with a colon is therefore harmless on its own.
   */
  lemma MethodsCollideExactly(m: string, n: string)
    ensures (exists g, h :: Collide(g, m, h, n)) <==> EndsIn(m, n) || EndsIn(n, m)
  {
    if EndsIn(m, n) {
      var h := KeyFor("", Excess(m, n));
      OverlapSharesKey("", m, h, n);
      assert Collide("", m, h, n);
    }
    if EndsIn(n, m) {
      var g := KeyFor("", Excess(n, m));
      OverlapSharesKey("", n, g, m);
      assert Collide(g, m, "", n);
    }
    if g, h :| Collide(g, m, h, n) { SharedKeys(g, m, h, n); }
  }

  predicate HasNoColon(s: string) { forall i | 0 <= i < |s| :: s[i] != ':' }

  /** Method names free of colons are never confused, even if gids contain colons themselves. */
  lemma KeyNamesGidAndMethod(a: DownloadEvent, b: DownloadEvent)
    requires HasNoColon(a.name) && HasNoColon(b.name)
    ensures Key(a) == Key(b) <==> Gid(a) == Gid(b) && a.name == b.name
  {
    SharedKeys(Gid(a), a.name, Gid(b), b.name);
  }

  lemma KnownMethodsHaveNoColon(name: string)
    requires name in METHOD_NAMES
    ensures HasNoColon(name)
  {
  }

  function EventFor(gid: string, name: string): (e: DownloadEvent)
    ensures Gid(e) == gid && e.name == name
  {
    DownloadEvent(name, [Obj(map["gid" := Str(gid)])])
  }

  /** A deserialised event may carry a colon in its method, and then keys of different pairs collide. */
  lemma ColonsCollide()
    ensures Key(EventFor("a", "b:c")) == Key(EventFor("a:b", "c"))
  {
    assert Excess("b:c", "c") == "b" && KeyFor("a", "b") == "a:b";
    OverlapSharesKey("a", "b:c", "a:b", "c");
  }

  // ---------- the specification: a batch is a function of the pushes ----------

  /** The distinct keys of the events, in the order of their first push. */
  function FirstKeys(events: seq<DownloadEvent>): seq<string> {
    if events == [] then []
    else
      var front := FirstKeys(events[..|events| - 1]);
      var key := Key(events[|events| - 1]);
      if key in front then front else front + [key]
  }

  /** The last event pushed under a key. */
  function Latest(events: seq<DownloadEvent>, key: string): Option<DownloadEvent> {
    if events == [] then None
    else if Key(events[|events| - 1]) == key then Some(events[|events| - 1])
    else Latest(events[..|events| - 1], key)
  }

  lemma {:induction false} KeysAreExactlyPushed(events: seq<DownloadEvent>)
    ensures forall key :: key in FirstKeys(events) <==> Latest(events, key).Some?
    ensures forall key :: Latest(events, key).Some? ==> Key(Latest(events, key).value) == key
    ensures forall i, j | 0 <= i < j < |FirstKeys(events)| :: FirstKeys(events)[i] != FirstKeys(events)[j]
  {
    if events == [] {
    } else {
      KeysAreExactlyPushed(events[..|events| - 1]);
    }
  }

  /** The position of the first push under a key. */
  function FirstPush(events: seq<DownloadEvent>, key: string): (i: nat)
    ensures i <= |events|
    ensures i < |events| ==> Key(events[i]) == key
    ensures forall k | 0 <= k < i :: Key(events[k]) != key
  {
    if events == [] then 0
    else
      var last := |events| - 1;
      var i := FirstPush(events[..last], key);
      if i < last || Key(events[last]) == key then i else |events|
  }

  /** Keys queue in the order of their first push, wherever their last push falls. */
  lemma {:induction false} KeysQueueByFirstPush(events: seq<DownloadEvent>, i: nat, j: nat)
    requires i < j < |FirstKeys(events)|
    ensures FirstPush(events, FirstKeys(events)[i]) < FirstPush(events, FirstKeys(events)[j]) < |events|
  {
    var front := events[..|events| - 1];
    var keys := FirstKeys(events);
    KeysAreExactlyPushed(front);
    KeysAreExactlyPushed(events);
    if j < |FirstKeys(front)| {
      KeysQueueByFirstPush(front, i, j);
    } else {
      PushedHasFirstPush(front, keys[i]);
      PushedHasFirstPush(events, keys[j]);
      if FirstPush(events, keys[j]) < |front| {
        FirstPushIsPushed(front, FirstPush(events, keys[j]));
      }
    }
  }

  lemma {:induction false} PushedHasFirstPush(events: seq<DownloadEvent>, key: string)
    requires Latest(events, key).Some?
    ensures FirstPush(events, key) < |events|
  {
    var last := |events| - 1;
    if Key(events[last]) != key { PushedHasFirstPush(events[..last], key); }
  }

  lemma {:induction false} FirstPushIsPushed(events: seq<DownloadEvent>, i: nat)
    requires i < |events|
    ensures Latest(events, Key(events[i])).Some?
  {
    if i < |events| - 1 { FirstPushIsPushed(events[..|events| - 1], i); }
  }

  function LatestOf(events: seq<DownloadEvent>, keys: seq<string>): (batch: seq<DownloadEvent>)
    requires forall i | 0 <= i < |keys| :: Latest(events, keys[i]).Some?
    ensures |batch| == |keys|
    ensures forall i | 0 <= i < |keys| :: Latest(events, keys[i]) == Some(batch[i])
  {
    seq(|keys|, i requires 0 <= i < |keys| => Latest(events, keys[i]).value)
  }

  /** For each distinct key, in first-push order, the last event pushed. */
  function BatchOf(events: seq<DownloadEvent>): (batch: seq<DownloadEvent>)
    ensures |batch| == |FirstKeys(events)|
  {
    KeysAreExactlyPushed(events);
    LatestOf(events, FirstKeys(events))
  }

  type Table = map<string, (DownloadEvent, nat)>

  /** The map holds exactly the pushed keys, each with the last event pushed under it. */
  ghost predicate Tracks(latest: Table, events: seq<DownloadEvent>) {
    && (forall key :: key in latest <==> Latest(events, key).Some?)
    && (forall key | key in latest :: Latest(events, key) == Some(latest[key].0))
  }

  lemma PushTracks(latest: Table, events: seq<DownloadEvent>, e: DownloadEvent, now: nat)
    requires Tracks(latest, events)
    ensures Tracks(latest[Key(e) := (e, now)], events + [e])
    ensures FirstKeys(events + [e]) == if Key(e) in latest then FirstKeys(events) else FirstKeys(events) + [Key(e)]
  {
    KeysAreExactlyPushed(events);
    assert (events + [e])[..|events|] == events;
  }

  /** The `drain` and `filter_map` of a flush: every queued key is taken out of the map. */
  method TakeAll(pending: seq<string>, latest: Table) returns (batch: seq<DownloadEvent>, rest: Table)
    requires forall i, j | 0 <= i < j < |pending| :: pending[i] != pending[j]
    requires forall i | 0 <= i < |pending| :: pending[i] in latest
    ensures |batch| == |pending| && forall i | 0 <= i < |pending| :: batch[i] == latest[pending[i]].0
    ensures rest.Keys == latest.Keys - set i | 0 <= i < |pending| :: pending[i]
  {
    batch, rest := [], latest;
    for i := 0 to |pending|
      invariant |batch| == i && forall k | 0 <= k < i :: batch[k] == latest[pending[k]].0
      invariant rest.Keys == latest.Keys - set k | 0 <= k < i :: pending[k]
      invariant forall key | key in rest :: rest[key] == latest[key]
    {
      var key := pending[i];
      if key in rest {
        batch := batch + [rest[key].0];
        rest := rest - {key};
      }
    }
  }

  lemma TakenIsBatch(pending: seq<string>, latest: Table, events: seq<DownloadEvent>, batch: seq<DownloadEvent>)
    requires pending == FirstKeys(events) && Tracks(latest, events)
    requires |batch| == |pending|
    requires forall i | 0 <= i < |pending| :: pending[i] in latest && batch[i] == latest[pending[i]].0
    ensures batch == BatchOf(events)
    ensures latest.Keys == set i | 0 <= i < |pending| :: pending[i]
  {
    KeysAreExactlyPushed(events);
    forall i | 0 <= i < |batch| ensures batch[i] == BatchOf(events)[i] {
      assert Latest(events, pending[i]) == Some(batch[i]);
    }
  }

  // ---------- the batcher ----------

  class NotificationBatcher {
    var maxBatchSize: nat
    var flushIntervalMs: nat
    var pending: seq<string>
    var latest: Table
    var lastFlush: nat
    var totalSent: nat
    var totalDeduped: nat

    /** History: pushes since the last flush, all pushes, batches returned, batches thrown away. */
    ghost var waiting: seq<DownloadEvent>
    ghost var pushes: nat
    ghost var returned: seq<DownloadEvent>
    ghost var discarded: seq<DownloadEvent>

    ghost predicate Valid()
      reads this
    {
      && pending == FirstKeys(waiting)
      && Tracks(latest, waiting)
      && pushes == totalSent + totalDeduped + |pending|
      && totalSent == |returned| + |discarded|
    }

    constructor (now: nat)
      ensures Valid() && waiting == [] && pushes == 0 && returned == [] && discarded == []
      ensures maxBatchSize == 20 && flushIntervalMs == 500 && lastFlush == now
    {
      maxBatchSize, flushIntervalMs, lastFlush := 20, 500, now;
      pending, latest, totalSent, totalDeduped := [], map[], 0, 0;
      waiting, pushes, returned, discarded := [], 0, [], [];
    }

    method FlushInternal(now: nat) returns (batch: Option<seq<DownloadEvent>>)
      requires pending == FirstKeys(waiting) && Tracks(latest, waiting)
      modifies this`pending, this`latest, this`totalSent, this`lastFlush
      ensures pending == [] && latest == map[] && totalSent == old(totalSent) + |BatchOf(waiting)|
      ensures old(pending) == [] ==> batch == None && lastFlush == old(lastFlush)
      ensures old(pending) != [] ==> batch == Some(BatchOf(waiting)) && lastFlush == now
    {
      KeysAreExactlyPushed(waiting);
      if pending == [] { return None; }
      var events, rest := TakeAll(pending, latest);
      TakenIsBatch(pending, latest, waiting, events);
      pending, latest := [], rest;
      totalSent, lastFlush := totalSent + |events|, now;
      return Some(events);
    }

    /** Replaces the event of a key that is already queued, queues it otherwise. */
    method Enqueue(e: DownloadEvent, now: nat)
      requires Valid()
      modifies this`pending, this`latest, this`totalDeduped, this`waiting, this`pushes
      ensures Valid() && pushes == old(pushes) + 1 && waiting == old(waiting) + [e]
    {
      PushTracks(latest, waiting, e, now);
      var key := Key(e);
      if key in latest {
        totalDeduped := totalDeduped + 1;
      } else {
        pending := pending + [key];
      }
      latest := latest[key := (e, now)];
      waiting, pushes := waiting + [e], pushes + 1;
    }

    /** When the queue is full the batch is flushed at once, counted as sent and thrown away. */
    method Push(e: DownloadEvent, now: nat) returns (flushed: bool)
      requires Valid()
      modifies this`pending, this`latest, this`totalSent, this`totalDeduped, this`lastFlush,
               this`waiting, this`pushes, this`discarded
      ensures Valid() && pushes == old(pushes) + 1
      ensures flushed <==> maxBatchSize <= |FirstKeys(old(waiting) + [e])|
      ensures !flushed ==> waiting == old(waiting) + [e] && discarded == old(discarded) && lastFlush == old(lastFlush)
      ensures flushed ==> waiting == [] && discarded == old(discarded) + BatchOf(old(waiting) + [e]) && lastFlush == now
    {
      Enqueue(e, now);
      if |pending| >= maxBatchSize {
        ghost var all := waiting;
        var batch := FlushInternal(now);
        discarded, waiting := discarded + BatchOf(all), [];
        return true;
      }
      return false;
    }

    method MaybeFlush(now: nat) returns (batch: Option<seq<DownloadEvent>>)
      requires Valid() && lastFlush <= now
      modifies this`pending, this`latest, this`totalSent, this`lastFlush, this`waiting, this`returned
      ensures Valid()
      ensures batch.Some? <==> old(flushIntervalMs <= now - lastFlush && waiting != [])
      ensures batch.Some? ==> batch == Some(BatchOf(old(waiting))) && waiting == [] && lastFlush == now
      ensures batch.Some? ==> returned == old(returned) + batch.value
      ensures batch.None? ==> waiting == old(waiting) && returned == old(returned) && lastFlush == old(lastFlush)
    {
      assert waiting != [] ==> FirstKeys(waiting) != [];
      var elapsed := now - lastFlush;
      if elapsed >= flushIntervalMs && pending != [] {
        batch := FlushInternal(now);
        returned := returned + BatchOf(waiting);
        waiting := [];
      } else {
        batch := None;
      }
    }
  }

  /** The gid is the text called `gid` in the first parameter; without one it is empty. */
  lemma GidIsRead(name: string, fields: map<string, Json>, gid: string, more: seq<Json>)
    ensures Key(DownloadEvent(name, [Obj(fields["gid" := Str(gid)])] + more)) == gid + ":" + name
    ensures "gid" !in fields ==> Key(DownloadEvent(name, [Obj(fields)] + more)) == ":" + name
    ensures Key(DownloadEvent(name, [])) == ":" + name
  {
    assert "" + ":" + name == ":" + name;
  }

  /** No later event has the key. */
  ghost predicate IsLastUnder(events: seq<DownloadEvent>, key: string, i: nat) {
    i < |events| && Key(events[i]) == key && forall j | i < j < |events| :: Key(events[j]) != key
  }

  /** What a key's place in the batch holds is the last event pushed under it. */
  lemma {:induction false} LatestIsLast(events: seq<DownloadEvent>, key: string)
    ensures Latest(events, key).Some? ==>
              exists i: nat :: IsLastUnder(events, key, i) && events[i] == Latest(events, key).value
  {
    if events == [] {
    } else {
      var front := events[..|events| - 1];
      LatestIsLast(front, key);
      if Key(events[|events| - 1]) == key {
        assert IsLastUnder(events, key, |events| - 1);
      } else if Latest(front, key).Some? {
        var i: nat :| IsLastUnder(front, key, i) && front[i] == Latest(front, key).value;
        assert IsLastUnder(events, key, i);
      }
    }
  }
}
