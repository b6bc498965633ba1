/**
 * The message bus of internal/message/bus.go, run sequentially: the
 * subscriber table, the bounded envelope queue, the started/closed
 * lifecycle, and the dispatcher loop as a step that takes the head envelope.
 * Handlers are identities; what a handler returns is given by a map from
 * handler to the error it fails with.
 */
module MessageBus {
  import opened Wrappers

  /** Buffer size of the envelope channel. */
  const Capacity := 100

  /** A handler, compared by identity (the source compares `%p` renderings). */
  type HandlerId = nat

  /** What the bus reads from a message: its slug and its type. */
  datatype Message = Message(slug: string, msgType: string)

  /** A queued message and whether a publisher is waiting on its `done` channel. */
  datatype Envelope = Envelope(msg: Message, sync: bool)

  datatype BusError =
    | NotStarted               // "message bus not started"
    | AlreadyStarted           // "message bus already started"
    | Cancelled                // ctx.Err()
    | HandlerFailed(message: string)

  /** One pass of the dispatcher: the envelope, the handlers it ran in order, and what it sent on `done`. */
  datatype Delivery = Delivery(envelope: Envelope, handlers: seq<HandlerId>, reply: Option<string>)

  type Subscribers = map<string, seq<HandlerId>>

  /** The handlers under `pattern`; an absent pattern has none. */
  function Lookup(subs: Subscribers, pattern: string): seq<HandlerId>
  {
    if pattern in subs then subs[pattern] else []
  }

  /**
   * getHandlers: the slug's handlers, then the type's, then the wildcard's,
   * without removing duplicates.
   */
  function Handlers(subs: Subscribers, msg: Message): seq<HandlerId>
  {
    Lookup(subs, msg.slug) + Lookup(subs, msg.msgType) + Lookup(subs, "*")
  }

  /**
   * A handler is dispatched to exactly when it is subscribed under the slug,
   * the type or "*", and as many times as it is subscribed under them in all.
   */
  lemma HandlersSpec(subs: Subscribers, msg: Message)
    ensures forall h :: h in Handlers(subs, msg) <==> h in Lookup(subs, msg.slug) || h in Lookup(subs, msg.msgType) || h in Lookup(subs, "*")
    ensures multiset(Handlers(subs, msg)) == multiset(Lookup(subs, msg.slug)) + multiset(Lookup(subs, msg.msgType)) + multiset(Lookup(subs, "*"))
  {
  }

  /** `s` without its first occurrence of `h`. */
  function RemoveFirst(s: seq<HandlerId>, h: HandlerId): seq<HandlerId>
  {
    if s == [] then []
    else if s[0] == h then s[1..]
    else [s[0]] + RemoveFirst(s[1..], h)
  }

  /** The errors of the failing handlers among `hs`, in order. */
  function Errors(hs: seq<HandlerId>, failures: map<HandlerId, string>): seq<string>
  {
    if hs == [] then []
    else (if hs[0] in failures then [failures[hs[0]]] else []) + Errors(hs[1..], failures)
  }

  /** The error of the first failing handler in `hs`. */
  function FirstError(hs: seq<HandlerId>, failures: map<HandlerId, string>): Option<string>
  {
    if hs == [] then None
    else if hs[0] in failures then Some(failures[hs[0]])
    else FirstError(hs[1..], failures)
  }

  /** What the dispatcher does with `env`: run every matched handler; a sync envelope gets the first error, or nil. */
  function Deliver(subs: Subscribers, env: Envelope, failures: map<HandlerId, string>): Delivery
  {
    var hs := Handlers(subs, env.msg);
    Delivery(env, hs, if env.sync then FirstError(hs, failures) else None)
  }

  /** The deliveries of the envelopes `q`, in queue order. */
  function DeliverAll(subs: Subscribers, q: seq<Envelope>, failures: map<HandlerId, string>): (ds: seq<Delivery>)
    ensures |ds| == |q|
  {
    if q == [] then [] else DeliverAll(subs, q[..|q| - 1], failures) + [Deliver(subs, q[|q| - 1], failures)]
  }

  lemma DeliverAllStep(subs: Subscribers, q: seq<Envelope>, k: nat, failures: map<HandlerId, string>)
    requires k < |q|
    ensures DeliverAll(subs, q[..k + 1], failures) == DeliverAll(subs, q[..k], failures) + [Deliver(subs, q[k], failures)]
  {
    assert q[..k + 1][..k] == q[..k];
  }

  /** Whether a `select` between a send and `ctx.Done()` takes the send: the send must be ready, and when both are, the runtime's pick decides. */
  predicate Sends(room: bool, ctxDone: bool, cancelFirst: bool)
  {
    room && !(ctxDone && cancelFirst)
  }

  // ---------------------------------------------------------------- lemmas

  /** Removing the occurrence of `h` at `i`, the first one, is RemoveFirst. */
  lemma {:induction false} RemoveFirstAt(s: seq<HandlerId>, h: HandlerId, i: nat)
    requires i < |s| && s[i] == h && h !in s[..i]
    ensures RemoveFirst(s, h) == s[..i] + s[i + 1..]
    decreases i
  {
    if i > 0 {
      assert s[0] in s[..i];
      assert s[1..][..i - 1] == s[1..i];
      RemoveFirstAt(s[1..], h, i - 1);
      assert s[..i] == [s[0]] + s[1..i];
    }
  }

  /** The position of the first `h` in `s`. */
  function FirstIndex(s: seq<HandlerId>, h: HandlerId): (i: nat)
    requires h in s
    ensures i < |s| && s[i] == h && h !in s[..i]
  {
    if s[0] == h then 0
    else
      var j := FirstIndex(s[1..], h);
      assert s[..j + 1] == [s[0]] + s[1..][..j];
      j + 1
  }

  lemma {:induction false} RemoveFirstAbsent(s: seq<HandlerId>, h: HandlerId)
    requires h !in s
    ensures RemoveFirst(s, h) == s
  {
    if s != [] {
      RemoveFirstAbsent(s[1..], h);
      assert s == [s[0]] + s[1..];
    }
  }

  lemma MultisetSplit(a: seq<HandlerId>, h: HandlerId, b: seq<HandlerId>)
    ensures multiset(a + b) == multiset(a + [h] + b) - multiset{h}
  {
    assert multiset(a + [h] + b) == multiset(a) + multiset{h} + multiset(b);
    assert multiset(a + b) == multiset(a) + multiset(b);
  }

  /** RemoveFirst changes nothing when `h` is absent, and otherwise takes exactly its first `h` away, keeping the order of the rest. */
  lemma RemoveFirstSpec(s: seq<HandlerId>, h: HandlerId)
    ensures h !in s ==> RemoveFirst(s, h) == s
    ensures h in s ==> RemoveFirst(s, h) == s[..FirstIndex(s, h)] + s[FirstIndex(s, h) + 1..]
    ensures multiset(RemoveFirst(s, h)) == multiset(s) - multiset{h}
  {
    if h !in s {
      RemoveFirstAbsent(s, h);
      assert multiset(s)[h] == 0;
    } else {
      var i := FirstIndex(s, h);
      RemoveFirstAt(s, h, i);
      RemovedMultiset(s, h, i);
    }
  }

  lemma RemovedMultiset(s: seq<HandlerId>, h: HandlerId, i: nat)
    requires i < |s| && s[i] == h
    ensures multiset(s[..i] + s[i + 1..]) == multiset(s) - multiset{h}
  {
    var a, b := s[..i], s[i + 1..];
    assert s == a + [h] + b;
    MultisetSplit(a, h, b);
  }

  /** The errors collected by the sync loop start with the first handler's error, if any failed. */
  lemma {:induction false} ErrorsStartWithFirstError(hs: seq<HandlerId>, failures: map<HandlerId, string>)
    ensures FirstError(hs, failures) == (if Errors(hs, failures) == [] then None else Some(Errors(hs, failures)[0]))
  {
    if hs != [] {
      ErrorsStartWithFirstError(hs[1..], failures);
    }
  }

  lemma {:induction false} ErrorsAppend(hs: seq<HandlerId>, h: HandlerId, failures: map<HandlerId, string>)
    ensures Errors(hs + [h], failures) == Errors(hs, failures) + (if h in failures then [failures[h]] else [])
  {
    if hs != [] {
      assert (hs + [h])[1..] == hs[1..] + [h];
      ErrorsAppend(hs[1..], h, failures);
    }
  }

  /** A sync dispatch reports nil exactly when no handler fails, and otherwise the error of the first handler that fails. */
  lemma {:induction false} FirstErrorSpec(hs: seq<HandlerId>, failures: map<HandlerId, string>)
    ensures FirstError(hs, failures).None? <==> forall h :: h in hs ==> h !in failures
    ensures FirstError(hs, failures).Some? ==>
              exists i :: 0 <= i < |hs| && hs[i] in failures && FirstError(hs, failures).value == failures[hs[i]]
                          && forall j :: 0 <= j < i ==> hs[j] !in failures
  {
    if hs != [] {
      FirstErrorSpec(hs[1..], failures);
      assert hs == [hs[0]] + hs[1..];
      if hs[0] !in failures && FirstError(hs, failures).Some? {
        var i :| 0 <= i < |hs[1..]| && hs[1..][i] in failures && FirstError(hs[1..], failures).value == failures[hs[1..][i]]
                  && forall j :: 0 <= j < i ==> hs[1..][j] !in failures;
        assert hs[i + 1] == hs[1..][i];
        assert forall j :: 0 <= j < i + 1 ==> hs[j] !in failures by {
          forall j | 0 <= j < i + 1
            ensures hs[j] !in failures
          {
            if j > 0 {
              assert hs[j] == hs[1..][j - 1];
            }
          }
        }
      }
    }
  }

  /** A handler subscribed under the message's slug, its type or "*" is among the handlers the message is dispatched to. */
  lemma SubscribedHandlerMatched(subs: Subscribers, pattern: string, h: HandlerId, msg: Message)
    requires pattern == msg.slug || pattern == msg.msgType || pattern == "*"
    ensures h in Handlers(subs[pattern := Lookup(subs, pattern) + [h]], msg)
  {
    var subs' := subs[pattern := Lookup(subs, pattern) + [h]];
    assert h in Lookup(subs', pattern);
  }

  /**
   * A handler subscribed exactly once, under `pattern`, is no longer
   * dispatched to after it is unsubscribed from `pattern`.
   */
  lemma UnsubscribedHandlerNotMatched(subs: Subscribers, pattern: string, h: HandlerId, msg: Message)
    requires multiset(Lookup(subs, pattern))[h] == 1
    requires forall q :: q in subs && q != pattern ==> h !in subs[q]
    ensures h !in Handlers(subs[pattern := RemoveFirst(Lookup(subs, pattern), h)], msg)
  {
    RemoveFirstSpec(Lookup(subs, pattern), h);
    var subs' := subs[pattern := RemoveFirst(Lookup(subs, pattern), h)];
    assert multiset(Lookup(subs', pattern))[h] == 0;
    forall q
      ensures h !in Lookup(subs', q)
    {
      if q != pattern && q in subs {
        assert Lookup(subs', q) == subs[q];
      }
    }
  }

  /** No deduplication: when the slug equals the type, each of that pattern's handlers is dispatched to twice. */
  lemma SlugEqualsTypeDispatchesTwice(subs: Subscribers, msg: Message, h: HandlerId)
    requires msg.slug == msg.msgType && h in Lookup(subs, msg.slug)
    ensures multiset(Handlers(subs, msg))[h] >= 2
  {
  }

  /**
   * The sync branch of the dispatcher: every handler runs, in order, even
   * after one has failed; the errors are collected and the first is reported.
   */
  method RunSync(hs: seq<HandlerId>, failures: map<HandlerId, string>) returns (reply: Option<string>)
    ensures reply == FirstError(hs, failures)
  {
    var errs: seq<string> := [];
    var k := 0;
    while k < |hs|
      invariant 0 <= k <= |hs|
      invariant errs == Errors(hs[..k], failures)
    {
      ErrorsAppend(hs[..k], hs[k], failures);
      assert hs[..k + 1] == hs[..k] + [hs[k]];
      if hs[k] in failures {
        errs := errs + [failures[hs[k]]];
      }
      k := k + 1;
    }
    assert hs[..k] == hs;
    ErrorsStartWithFirstError(hs, failures);
    reply := if |errs| > 0 then Some(errs[0]) else None;
  }

  // ---------------------------------------------------------------- message

  /** A Go map value: a reference to mutable entries. */
  class MetaMap {
    var entries: map<string, string>

    constructor ()
      ensures entries == map[]
    {
      entries := map[];
    }
  }

  class BaseMessage {
    var messageSlug: string
    var messageType: string
    var meta: MetaMap?

    constructor (slug: string, msgType: string)
      ensures messageSlug == slug && messageType == msgType && meta == null
    {
      messageSlug := slug;
      messageType := msgType;
      meta := null;
    }

    /** The slug and type the bus matches on. */
    function AsMessage(): (m: Message)
      reads this
      ensures m.slug == messageSlug && m.msgType == messageType
    {
      Message(messageSlug, messageType)
    }

    /** Metadata: never nil; a nil map is replaced by a new empty one on first use, and the same map is returned from then on. */
    method Metadata() returns (m: MetaMap)
      modifies this
      ensures old(meta) != null ==> m == old(meta)
      ensures old(meta) == null ==> fresh(m) && m.entries == map[]
      ensures meta == m
      ensures messageSlug == old(messageSlug) && messageType == old(messageType)
    {
      if meta == null {
        meta := new MetaMap();
      }
      m := meta;
    }
  }

  // ---------------------------------------------------------------- bus

  class Bus {
    var subscribers: Subscribers
    var queue: seq<Envelope>
    var started: bool
    /** Whether the envelope channel has been closed (by Stop). */
    var closed: bool

    /** The queue fits the channel buffer, only a started bus is closed, and only a started, open bus holds envelopes. */
    ghost predicate Valid()
      reads this
    {
      && |queue| <= Capacity
      && (closed ==> started && queue == [])
      && (!started ==> queue == [])
    }

    /** NewBus. */
    constructor ()
      ensures Valid()
      ensures subscribers == map[] && queue == [] && !started && !closed
    {
      subscribers := map[];
      queue := [];
      started := false;
      closed := false;
    }

    /** Subscribe: `handler` goes to the end of `pattern`'s list; nothing else changes. */
    method Subscribe(pattern: string, handler: HandlerId) returns (err: Option<BusError>)
      requires Valid()
      modifies this
      ensures Valid()
      ensures err == None
      ensures subscribers == old(subscribers)[pattern := Lookup(old(subscribers), pattern) + [handler]]
      ensures queue == old(queue) && started == old(started) && closed == old(closed)
    {
      var hs := if pattern in subscribers then subscribers[pattern] else [];
      subscribers := subscribers[pattern := hs + [handler]];
      err := None;
    }

    /**
     * Unsubscribe: the first entry equal to `handler` under `pattern` is
     * removed; when there is none, the table is left exactly as it was.
     */
    method Unsubscribe(pattern: string, handler: HandlerId) returns (err: Option<BusError>)
      requires Valid()
      modifies this
      ensures Valid()
      ensures err == None
      ensures subscribers == if handler in Lookup(old(subscribers), pattern)
                             then old(subscribers)[pattern := RemoveFirst(Lookup(old(subscribers), pattern), handler)]
                             else old(subscribers)
      ensures queue == old(queue) && started == old(started) && closed == old(closed)
    {
      err := None;
      var hs := Lookup(subscribers, pattern);
      var i := 0;
      while i < |hs|
        invariant 0 <= i <= |hs|
        invariant handler !in hs[..i]
        invariant subscribers == old(subscribers)
      {
        if hs[i] == handler {
          RemoveFirstAt(hs, handler, i);
          subscribers := subscribers[pattern := hs[..i] + hs[i + 1..]];
          return;
        }
        assert hs[..i + 1] == hs[..i] + [hs[i]];
        i := i + 1;
      }
      assert hs[..i] == hs;
    }

    /** Start: an error if already started (a stopped bus stays started); otherwise the bus starts. */
    method Start() returns (err: Option<BusError>)
      requires Valid()
      modifies this
      ensures Valid()
      ensures old(started) ==> err == Some(AlreadyStarted) && started
      ensures !old(started) ==> err == None && started
      ensures subscribers == old(subscribers) && queue == old(queue) && closed == old(closed)
    {
      if started {
        return Some(AlreadyStarted);
      }
      started := true;
      err := None;
    }

    /**
     * One iteration of the dispatcher loop: the head envelope leaves the
     * queue and is delivered to the handlers matching it now.
     */
    method Dispatch(failures: map<HandlerId, string>) returns (d: Delivery)
      requires Valid() && started && queue != []
      modifies this
      ensures Valid()
      ensures d == Deliver(old(subscribers), old(queue)[0], failures)
      ensures queue == old(queue)[1..]
      ensures subscribers == old(subscribers) && started == old(started) && closed == old(closed)
    {
      var env := queue[0];
      queue := queue[1..];
      var hs := Handlers(subscribers, env.msg);
      var reply: Option<string> := None;
      if env.sync {
        reply := RunSync(hs, failures);
      }
      d := Delivery(env, hs, reply);
    }

    /** The dispatcher working through the first `n` envelopes, in queue order. */
    method Drain(n: nat, failures: map<HandlerId, string>) returns (ds: seq<Delivery>)
      requires Valid() && started && n <= |queue|
      modifies this
      ensures Valid()
      ensures queue == old(queue)[n..]
      ensures ds == DeliverAll(old(subscribers), old(queue)[..n], failures)
      ensures subscribers == old(subscribers) && started == old(started) && closed == old(closed)
    {
      ds := [];
      ghost var q0, subs0 := queue, subscribers;
      var k := 0;
      while k < n
        invariant 0 <= k <= n
        invariant Valid() && started
        invariant queue == q0[k..]
        invariant ds == DeliverAll(subs0, q0[..k], failures)
        invariant subscribers == subs0 && closed == old(closed)
      {
        var d := Dispatch(failures);
        assert q0[k..][0] == q0[k] && q0[k..][1..] == q0[k + 1..];
        DeliverAllStep(subs0, q0, k, failures);
        ds := ds + [d];
        k := k + 1;
      }
    }

    /**
     * Publish: a bus that is not started refuses; otherwise the message is
     * queued as one async envelope, unless the context's case of the select
     * is taken.  A send can only wait for room, which a sequential model
     * cannot do, so a full queue requires a done context.
     */
    method Publish(msg: Message, ctxDone: bool, cancelFirst: bool) returns (err: Option<BusError>)
      requires Valid() && !closed
      requires |queue| < Capacity || ctxDone
      modifies this
      ensures Valid()
      ensures !old(started) ==> err == Some(NotStarted) && queue == old(queue)
      ensures old(started) && Sends(|old(queue)| < Capacity, ctxDone, cancelFirst) ==>
                err == None && queue == old(queue) + [Envelope(msg, false)]
      ensures old(started) && !Sends(|old(queue)| < Capacity, ctxDone, cancelFirst) ==>
                err == Some(Cancelled) && queue == old(queue)
      ensures subscribers == old(subscribers) && started == old(started) && closed == old(closed)
    {
      if !started {
        return Some(NotStarted);
      }
      if |queue| < Capacity && !(ctxDone && cancelFirst) {
        queue := queue + [Envelope(msg, false)];
        return None;
      }
      return Some(Cancelled);
    }

    /**
     * PublishSync: as Publish, with a sync envelope; then the dispatcher
     * works through the queue up to and including that envelope, and the
     * publisher receives what was sent on `done` (or the context's error when
     * the runtime picks that case of the second select).
     */
    method PublishSync(msg: Message, ctxDone: bool, cancelOnSend: bool, cancelOnWait: bool, failures: map<HandlerId, string>)
      returns (err: Option<BusError>, ds: seq<Delivery>)
      requires Valid() && !closed
      requires |queue| < Capacity || ctxDone
      modifies this
      ensures Valid()
      ensures !old(started) ==> err == Some(NotStarted) && queue == old(queue) && ds == []
      ensures old(started) && !Sends(|old(queue)| < Capacity, ctxDone, cancelOnSend) ==>
                err == Some(Cancelled) && queue == old(queue) && ds == []
      ensures old(started) && Sends(|old(queue)| < Capacity, ctxDone, cancelOnSend) ==>
                && queue == []
                && ds == DeliverAll(old(subscribers), old(queue) + [Envelope(msg, true)], failures)
                && err == (if ctxDone && cancelOnWait then Some(Cancelled)
                           else var e := FirstError(Handlers(old(subscribers), msg), failures);
                                if e.Some? then Some(HandlerFailed(e.value)) else None)
      ensures subscribers == old(subscribers) && started == old(started) && closed == old(closed)
    {
      ds := [];
      if !started {
        return Some(NotStarted), [];
      }
      if !(|queue| < Capacity && !(ctxDone && cancelOnSend)) {
        return Some(Cancelled), [];
      }
      queue := queue + [Envelope(msg, true)];
      ds := Drain(|queue|, failures);
      assert queue == [];
      ghost var q := old(queue) + [Envelope(msg, true)];
      assert q[..|q|][..|q| - 1] == old(queue);
      assert ds[|ds| - 1] == Deliver(old(subscribers), Envelope(msg, true), failures);
      var reply := ds[|ds| - 1].reply;
      if ctxDone && cancelOnWait {
        err := Some(Cancelled);
      } else if reply.Some? {
        err := Some(HandlerFailed(reply.value));
      } else {
        err := None;
      }
    }

    /**
     * Stop: nil and no change on a bus never started; otherwise the channel
     * is closed and the dispatcher works through what is left in it before
     * exiting.  Closing a closed channel panics, so a second Stop is excluded.
     */
    method Stop(failures: map<HandlerId, string>) returns (err: Option<BusError>, ds: seq<Delivery>)
      requires Valid() && !closed
      modifies this
      ensures Valid()
      ensures err == None
      ensures !old(started) ==> queue == old(queue) && ds == [] && !closed
      ensures old(started) ==>
                && closed && queue == []
                && ds == DeliverAll(old(subscribers), old(queue), failures)
      ensures subscribers == old(subscribers) && started == old(started)
    {
      ds := [];
      err := None;
      if !started {
        return;
      }
      ds := Drain(|queue|, failures);
      assert old(queue)[..|old(queue)|] == old(queue);
      closed := true;
    }
  }

  /** A started bus with one subscriber under a message's slug runs that handler once on PublishSync and reports its success. */
  method SyncDeliveryExample() returns (err: Option<BusError>, ds: seq<Delivery>)
    ensures err == None
    ensures ds == [Delivery(Envelope(Message("test.sync", "command"), true), [7], None)]
  {
    var bus := new Bus();
    var e := bus.Start();
    e := bus.Subscribe("test.sync", 7);
    assert Handlers(bus.subscribers, Message("test.sync", "command")) == [7];
    err, ds := bus.PublishSync(Message("test.sync", "command"), false, false, false, map[]);
  }
}
