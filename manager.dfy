/**
 * The connection supervisor `IntesisManager`: it wraps one vendor controller,
 * keeps a belief about whether the controller is connected, relays every
 * controller event to an ordered, duplicate-free list of subscribers, and
 * reconnects with exponential backoff when the controller drops.
 *
 * The scheduler of the host platform is modelled by a queue `pending` of
 * scheduled attempts, and everything the supervisor does to the outside world
 * (awaiting a subscriber, scheduling an attempt, calling the controller) is
 * appended, in order, to the log `effects`.
 */
module Manager {
  import opened Wrappers

  /** A subscriber callback, identified by its handle. */
  type Subscriber = nat

  type DeviceId = string

  /** The configured device type; the three named kinds are the cloud services. */
  datatype DeviceType = IntesisHome | AnyWair | AirconWithMe | Other(tag: string)

  const CloudDevices: seq<DeviceType> := [IntesisHome, AnyWair, AirconWithMe]

  predicate IsCloud(t: DeviceType) { t in CloudDevices }

  /** Cap on the backoff delay, in seconds (`MAX_WAIT_TIME`). */
  const MaxWaitTime: nat := 300
  /** First reconnection delay for a local device, in seconds. */
  const LocalReconnectSeconds: nat := 30
  /** A cloud device waits `randrange(CloudDelayLow, CloudDelayHigh)` seconds first. */
  const CloudDelayLow: nat := 10
  const CloudDelayHigh: nat := 30

  /** The two failure kinds of the controller's `connect()`. */
  datatype ConnectError = ConnectionError | AuthenticationError

  /** What one call of the controller's `connect()` does; supplied by the caller. */
  datatype ConnectOutcome = Connects | Raises(error: ConnectError)

  /** One call of `try_connect(retries)` handed to the scheduler with `delay` seconds. */
  datatype Attempt = Attempt(delay: nat, retries: nat)

  datatype Effect =
    | Notified(subscriber: Subscriber, deviceId: Option<DeviceId>)
    | Scheduled(attempt: Attempt)
    | ControllerConnect
    | ControllerAddListener
    | ControllerRemoveListener
    | ControllerStop

  // ---------------------------------------------------------------------------
  // The subscriber list

  predicate NoDuplicates(s: seq<Subscriber>)
  {
    forall i, j :: 0 <= i < j < |s| ==> s[i] != s[j]
  }

  /** `add_update_callback`: the list keeps its order and gains `cb` at the end if it was absent. */
  function AddSubscriber(s: seq<Subscriber>, cb: Subscriber): (r: seq<Subscriber>)
    ensures forall x :: x in r <==> x in s || x == cb
    ensures |r| == if cb in s then |s| else |s| + 1
    ensures r[..|s|] == s
    ensures NoDuplicates(s) ==> NoDuplicates(r)
  {
    if cb in s then s else s + [cb]
  }

  /** The position of the first occurrence of `cb` in `s`. */
  function IndexOf(s: seq<Subscriber>, cb: Subscriber): (i: nat)
    requires cb in s
    ensures i < |s| && s[i] == cb && cb !in s[..i]
  {
    if s[0] == cb then 0 else 1 + IndexOf(s[1..], cb)
  }

  /** `remove_update_callback`: Python's `list.remove` of a present element; absent is a no-op. */
  function RemoveSubscriber(s: seq<Subscriber>, cb: Subscriber): (r: seq<Subscriber>)
    ensures cb !in s ==> r == s
    ensures cb in s ==> r == s[..IndexOf(s, cb)] + s[IndexOf(s, cb) + 1..]
  {
    if s == [] then []
    else if s[0] == cb then s[1..]
    else
      RemoveAfterHead(s, cb);
      [s[0]] + RemoveSubscriber(s[1..], cb)
  }

  /** Past a head that is not `cb`, the first occurrence of `cb` is one further along. */
  lemma RemoveAfterHead(s: seq<Subscriber>, cb: Subscriber)
    requires s != [] && s[0] != cb
    ensures cb in s <==> cb in s[1..]
    ensures cb in s ==>
      s[..IndexOf(s, cb)] + s[IndexOf(s, cb) + 1..]
      == [s[0]] + (s[1..][..IndexOf(s[1..], cb)] + s[1..][IndexOf(s[1..], cb) + 1..])
    ensures cb !in s ==> s == [s[0]] + s[1..]
  {
    var t := s[1..];
    assert s == [s[0]] + t;
    if cb in s {
      assert cb in t;
      var i := IndexOf(t, cb);
      assert IndexOf(s, cb) == 1 + i;
      var a := s[..1 + i];
      var b := [s[0]] + t[..i];
      assert |a| == |b|;
      forall k | 0 <= k < |a| ensures a[k] == b[k] {
        if k > 0 { assert b[k] == t[k - 1] == s[k]; }
      }
      assert a == b;
      assert s[1 + i + 1..] == t[i + 1..];
    }
  }

  lemma NoDuplicatesTail(s: seq<Subscriber>)
    requires s != [] && NoDuplicates(s)
    ensures NoDuplicates(s[1..]) && s[0] !in s[1..]
  {
    forall i, j | 0 <= i < j < |s| - 1 ensures s[1..][i] != s[1..][j] {
      assert s[1..][i] == s[i + 1] && s[1..][j] == s[j + 1];
    }
  }

  lemma NoDuplicatesCons(x: Subscriber, t: seq<Subscriber>)
    requires NoDuplicates(t) && x !in t
    ensures NoDuplicates([x] + t)
  {
    var r := [x] + t;
    forall i, j | 0 <= i < j < |r| ensures r[i] != r[j] {
      if i == 0 { assert r[j] == t[j - 1]; } else { assert r[i] == t[i - 1] && r[j] == t[j - 1]; }
    }
  }

  /** On a duplicate-free list, removing `cb` drops exactly `cb` and keeps the rest, in order. */
  lemma {:induction false} RemoveSubscriberExact(s: seq<Subscriber>, cb: Subscriber)
    requires NoDuplicates(s)
    ensures var r := RemoveSubscriber(s, cb);
      && NoDuplicates(r)
      && cb !in r
      && (forall x :: x != cb ==> (x in r <==> x in s))
      && |r| == if cb in s then |s| - 1 else |s|
  {
    if s != [] {
      NoDuplicatesTail(s);
      var t := s[1..];
      if s[0] != cb {
        RemoveSubscriberExact(t, cb);
        var r' := RemoveSubscriber(t, cb);
        assert RemoveSubscriber(s, cb) == [s[0]] + r';
        assert s == [s[0]] + t;
        assert s[0] !in r';
        NoDuplicatesCons(s[0], r');
      }
    }
  }

  /** Adding a new subscriber and removing it again restores the list. */
  lemma {:induction false} AddThenRemove(s: seq<Subscriber>, cb: Subscriber)
    requires cb !in s
    ensures RemoveSubscriber(AddSubscriber(s, cb), cb) == s
  {
  }

  /** Adding the same subscriber twice is the same as adding it once. */
  lemma AddIdempotent(s: seq<Subscriber>, cb: Subscriber)
    ensures AddSubscriber(AddSubscriber(s, cb), cb) == AddSubscriber(s, cb)
  {
  }

  // ---------------------------------------------------------------------------
  // Fan-out

  /** The awaits of one fan-out: every subscriber, in list order, with the event's device id. */
  function Notifications(subs: seq<Subscriber>, d: Option<DeviceId>): (r: seq<Effect>)
    ensures |r| == |subs|
    ensures forall i :: 0 <= i < |subs| ==> r[i] == Notified(subs[i], d)
  {
    if subs == [] then [] else [Notified(subs[0], d)] + Notifications(subs[1..], d)
  }

  /** Each registered subscriber is awaited exactly once per fan-out; nobody else is. */
  lemma {:induction false} NotifiedExactlyOnce(subs: seq<Subscriber>, d: Option<DeviceId>, cb: Subscriber)
    requires NoDuplicates(subs)
    ensures multiset(Notifications(subs, d))[Notified(cb, d)] == if cb in subs then 1 else 0
  {
    if subs != [] {
      var rest := subs[1..];
      assert NoDuplicates(rest) by {
        forall i, j | 0 <= i < j < |rest| ensures rest[i] != rest[j] {
          assert rest[i] == subs[i + 1] && rest[j] == subs[j + 1];
        }
      }
      NotifiedExactlyOnce(rest, d, cb);
      assert Notifications(subs, d) == [Notified(subs[0], d)] + Notifications(rest, d);
      if subs[0] == cb {
        assert cb !in rest;
      } else {
        assert cb in subs <==> cb in rest by {
          if cb in subs {
            var k :| 0 <= k < |subs| && subs[k] == cb;
            assert rest[k - 1] == cb;
          }
        }
      }
    }
  }

  // ---------------------------------------------------------------------------
  // Reconnection delays

  function Pow2(n: nat): (p: nat)
    ensures p >= 1
  {
    if n == 0 then 1 else 2 * Pow2(n - 1)
  }

  /** `min(2**retries, MAX_WAIT_TIME)`: the wait after failed attempt number `retries`. */
  function Backoff(retries: nat): (w: nat)
    ensures 1 <= w <= MaxWaitTime
    ensures w == Pow2(retries) || w == MaxWaitTime
  {
    if Pow2(retries) < MaxWaitTime then Pow2(retries) else MaxWaitTime
  }

  lemma {:induction false} Pow2Monotone(i: nat, j: nat)
    requires i <= j
    ensures Pow2(i) <= Pow2(j)
  {
    if i < j {
      Pow2Monotone(i, j - 1);
    }
  }

  /** Up to attempt 8 the wait is exactly `2**retries` (1, 2, 4, ..., 256 seconds). */
  lemma BackoffUncapped(retries: nat)
    requires retries <= 8
    ensures Backoff(retries) == Pow2(retries)
  {
    Pow2Monotone(retries, 8);
    assert Pow2(8) == 256;
  }

  /** From attempt 9 on the wait is the cap. */
  lemma BackoffCapped(retries: nat)
    requires retries >= 9
    ensures Backoff(retries) == MaxWaitTime
  {
    Pow2Monotone(9, retries);
    assert Pow2(9) == 512;
  }

  /** Below the cap each failure doubles the wait. */
  lemma BackoffDoubles(retries: nat)
    requires retries < 8
    ensures Backoff(retries + 1) == 2 * Backoff(retries)
  {
    BackoffUncapped(retries);
    BackoffUncapped(retries + 1);
  }

  /** The wait never shrinks as the failures accumulate. */
  lemma BackoffMonotone(i: nat, j: nat)
    requires i <= j
    ensures Backoff(i) <= Backoff(j)
  {
    Pow2Monotone(i, j);
  }

  /** The first delay after a drop: 30 s for a local device, in [10, 30) for a cloud one. */
  predicate InitialDelayAllowed(t: DeviceType, delay: nat)
  {
    if IsCloud(t) then CloudDelayLow <= delay < CloudDelayHigh else delay == LocalReconnectSeconds
  }

  /** An attempt carries the delay the supervisor computes for its retry count. */
  predicate WellTimed(t: DeviceType, a: Attempt)
  {
    if a.retries == 0 then InitialDelayAllowed(t, a.delay) else a.delay == Backoff(a.retries - 1)
  }

  /** No scheduled attempt waits more than the cap, nor less than a second. */
  lemma WellTimedBounded(t: DeviceType, a: Attempt)
    requires WellTimed(t, a)
    ensures 1 <= a.delay <= MaxWaitTime
  {
  }

  // ---------------------------------------------------------------------------
  // One reconnection attempt, as values

  /** What `try_connect(retries)` hands the scheduler: the next attempt, after a connection error only. */
  function FollowUp(retries: nat, outcome: ConnectOutcome): (r: seq<Attempt>)
    ensures |r| == if outcome == Raises(ConnectionError) then 1 else 0
    ensures forall a :: a in r ==> a.retries == retries + 1 && 1 <= a.delay <= MaxWaitTime
  {
    if outcome == Raises(ConnectionError) then [Attempt(Backoff(retries), retries + 1)] else []
  }

  /** What `try_connect(retries)` does, in order: connect, then broadcast or reschedule. */
  function AttemptEffects(subs: seq<Subscriber>, retries: nat, outcome: ConnectOutcome): seq<Effect>
  {
    [ControllerConnect]
    + (if outcome.Connects? then Notifications(subs, None) else [])
    + (if outcome == Raises(ConnectionError) then [Scheduled(Attempt(Backoff(retries), retries + 1))] else [])
  }

  /** Every follow-up of a well-timed attempt is well timed: the whole episode keeps the delay policy. */
  lemma FollowUpWellTimed(t: DeviceType, retries: nat, outcome: ConnectOutcome)
    ensures forall a :: a in FollowUp(retries, outcome) ==> WellTimed(t, a)
  {
  }

  /** The error `try_connect` lets escape: only an error other than a connection error. */
  function EscapingError(outcome: ConnectOutcome): Option<ConnectError>
  {
    if outcome == Raises(AuthenticationError) then Some(AuthenticationError) else None
  }

  // ---------------------------------------------------------------------------
  // The objects

  /** The vendor controller as the supervisor sees it. */
  class Controller {
    var isConnected: bool
    var relayRegistered: bool

    constructor (live: bool)
      ensures isConnected == live && !relayRegistered
    {
      isConnected := live;
      relayRegistered := false;
    }

    /** `connect()`: on success the controller is live; a failure is raised to the caller. */
    method Connect(outcome: ConnectOutcome) returns (error: Option<ConnectError>)
      modifies this`isConnected
      ensures error == if outcome.Raises? then Some(outcome.error) else None
      ensures isConnected == (outcome.Connects? || old(isConnected))
    {
      if outcome.Connects? {
        isConnected := true;
        error := None;
      } else {
        error := Some(outcome.error);
      }
    }

    /** `add_update_callback(relay)` on the controller. */
    method RegisterRelay()
      modifies this`relayRegistered
      ensures relayRegistered
    {
      relayRegistered := true;
    }

    /** `remove_update_callback(relay)` on the controller. */
    method UnregisterRelay()
      modifies this`relayRegistered
      ensures !relayRegistered
    {
      relayRegistered := false;
    }
  }

  class IntesisManager {
    const controller: Controller
    const deviceType: DeviceType
    /** `_connected`: the supervisor's belief, not a live probe. */
    var connected: bool
    /** `_update_callbacks`. */
    var updateCallbacks: seq<Subscriber>
    /** Attempts handed to the scheduler and not yet run. */
    var pending: seq<Attempt>
    /** Everything the supervisor has done to the outside world, in order. */
    var effects: seq<Effect>

    ghost predicate Valid()
      reads this
    {
      && NoDuplicates(updateCallbacks)
      && forall i :: 0 <= i < |pending| ==> WellTimed(deviceType, pending[i])
    }

    constructor (controller: Controller, deviceType: DeviceType)
      ensures Valid()
      ensures this.controller == controller && this.deviceType == deviceType
      ensures !IsConnected() && updateCallbacks == [] && pending == [] && effects == []
    {
      this.controller := controller;
      this.deviceType := deviceType;
      connected := false;
      updateCallbacks := [];
      pending := [];
      effects := [];
    }

    /** `is_connected`: the belief flag, not a live probe of the controller. */
    function IsConnected(): (b: bool)
      reads this
      ensures b <==> connected
    {
      connected
    }

    /** `async_connect`: connect, then believe connected and register the relay once. */
    method AsyncConnect(outcome: ConnectOutcome) returns (error: Option<ConnectError>)
      requires Valid()
      modifies this`connected, this`effects, controller
      ensures Valid()
      ensures error == if outcome.Raises? then Some(outcome.error) else None
      ensures outcome.Connects? ==>
        && connected && controller.isConnected && controller.relayRegistered
        && effects == old(effects) + [ControllerConnect, ControllerAddListener]
      ensures outcome.Raises? ==>
        && connected == old(connected)
        && controller.isConnected == old(controller.isConnected)
        && controller.relayRegistered == old(controller.relayRegistered)
        && effects == old(effects) + [ControllerConnect]
    {
      effects := effects + [ControllerConnect];
      error := controller.Connect(outcome);
      if error.Some? {
        return;
      }
      connected := true;
      controller.RegisterRelay();
      effects := effects + [ControllerAddListener];
    }

    /** `stop`: unregister the relay, then stop the controller; pending attempts stay queued. */
    method Stop()
      modifies this`effects, controller`relayRegistered
      ensures !controller.relayRegistered
      ensures effects == old(effects) + [ControllerRemoveListener, ControllerStop]
      ensures connected == old(connected) && pending == old(pending) && updateCallbacks == old(updateCallbacks)
    {
      controller.UnregisterRelay();
      effects := effects + [ControllerRemoveListener];
      effects := effects + [ControllerStop];
    }

    method AddUpdateCallback(cb: Subscriber)
      requires Valid()
      modifies this`updateCallbacks
      ensures Valid()
      ensures updateCallbacks == AddSubscriber(old(updateCallbacks), cb)
    {
      if cb !in updateCallbacks {
        updateCallbacks := updateCallbacks + [cb];
      }
    }

    method RemoveUpdateCallback(cb: Subscriber)
      requires Valid()
      modifies this`updateCallbacks
      ensures Valid()
      ensures updateCallbacks == RemoveSubscriber(old(updateCallbacks), cb)
      ensures cb !in updateCallbacks
    {
      RemoveSubscriberExact(updateCallbacks, cb);
      if cb in updateCallbacks {
        updateCallbacks := RemoveSubscriber(updateCallbacks, cb);
      }
    }

    /** Await every subscriber in turn with `deviceId`. */
    method Notify(deviceId: Option<DeviceId>)
      modifies this`effects
      ensures effects == old(effects) + Notifications(updateCallbacks, deviceId)
    {
      for i := 0 to |updateCallbacks|
        invariant |effects| == |old(effects)| + i
        invariant effects[..|old(effects)|] == old(effects)
        invariant forall k :: 0 <= k < i ==> effects[|old(effects)| + k] == Notified(updateCallbacks[k], deviceId)
      {
        effects := effects + [Notified(updateCallbacks[i], deviceId)];
      }
      assert effects == old(effects) + Notifications(updateCallbacks, deviceId);
    }

    /** Hand one attempt to the scheduler. */
    method Schedule(a: Attempt)
      requires Valid() && WellTimed(deviceType, a)
      modifies this`pending, this`effects
      ensures Valid()
      ensures pending == old(pending) + [a]
      ensures effects == old(effects) + [Scheduled(a)]
    {
      pending := pending + [a];
      effects := effects + [Scheduled(a)];
    }

    /**
     * `async_update_callback`, the relay: fan out first, then compare the belief
     * with the controller. A drop schedules `try_connect(0)`; a recovery only
     * flips the belief. Afterwards the belief agrees with the controller.
     */
    method AsyncUpdateCallback(deviceId: Option<DeviceId>)
      requires Valid()
      modifies this`connected, this`pending, this`effects
      ensures Valid()
      ensures connected == controller.isConnected
      ensures old(connected) && !controller.isConnected ==>
        && |pending| == |old(pending)| + 1
        && pending[..|old(pending)|] == old(pending)
        && pending[|old(pending)|].retries == 0
        && InitialDelayAllowed(deviceType, pending[|old(pending)|].delay)
        && effects == old(effects) + Notifications(updateCallbacks, deviceId) + [Scheduled(pending[|old(pending)|])]
      ensures !(old(connected) && !controller.isConnected) ==>
        && pending == old(pending)
        && effects == old(effects) + Notifications(updateCallbacks, deviceId)
    {
      Notify(deviceId);
      if !controller.isConnected && connected {
        connected := false;
        var reconnectSeconds: nat := LocalReconnectSeconds;
        if IsCloud(deviceType) {
          assert CloudDelayLow <= CloudDelayLow < CloudDelayHigh;
          reconnectSeconds :| CloudDelayLow <= reconnectSeconds < CloudDelayHigh;
        }
        Schedule(Attempt(reconnectSeconds, 0));
      }
      if controller.isConnected && !connected {
        connected := true;
      }
    }

    /**
     * The nested `try_connect(retries)`: connect; on success believe connected
     * and broadcast with no device id; on a connection error schedule attempt
     * `retries + 1` after `Backoff(retries)` seconds; any other error escapes.
     */
    method TryConnect(retries: nat, outcome: ConnectOutcome) returns (error: Option<ConnectError>)
      requires Valid()
      modifies this`connected, this`pending, this`effects, controller`isConnected
      ensures Valid()
      ensures error == EscapingError(outcome)
      ensures connected == (outcome.Connects? || old(connected))
      ensures outcome.Connects? ==> controller.isConnected
      ensures outcome.Raises? ==> controller.isConnected == old(controller.isConnected)
      ensures pending == old(pending) + FollowUp(retries, outcome)
      ensures effects == old(effects) + AttemptEffects(updateCallbacks, retries, outcome)
    {
      effects := effects + [ControllerConnect];
      var raised := controller.Connect(outcome);
      if raised == None {
        connected := true;
        Notify(None);
        error := None;
      } else if raised == Some(ConnectionError) {
        var waitTime := Backoff(retries);
        Schedule(Attempt(waitTime, retries + 1));
        error := None;
      } else {
        assert raised == Some(outcome.error) && outcome.error != ConnectionError;
        error := raised;
      }
    }

    /** The scheduler runs the pending attempt at position `i`. */
    method FireScheduled(i: nat, outcome: ConnectOutcome) returns (error: Option<ConnectError>)
      requires Valid() && i < |pending|
      modifies this`connected, this`pending, this`effects, controller`isConnected
      ensures Valid()
      ensures error == EscapingError(outcome)
      ensures connected == (outcome.Connects? || old(connected))
      ensures outcome.Connects? ==> controller.isConnected
      ensures outcome.Raises? ==> controller.isConnected == old(controller.isConnected)
      ensures pending == old(pending[..i] + pending[i + 1..]) + FollowUp(old(pending[i].retries), outcome)
      ensures effects == old(effects) + AttemptEffects(updateCallbacks, old(pending[i].retries), outcome)
    {
      var a := pending[i];
      pending := pending[..i] + pending[i + 1..];
      assert Valid() by {
        forall k | 0 <= k < |pending| ensures WellTimed(deviceType, pending[k]) {
          assert pending[k] == old(pending)[if k < i then k else k + 1];
        }
      }
      error := TryConnect(a.retries, outcome);
    }
  }

  // ---------------------------------------------------------------------------
  // Client runs

  /** A connected supervisor for a cloud device, with subscribers 1 and 2. */
  method ConnectedCloudSupervisor() returns (m: IntesisManager)
    ensures fresh(m) && fresh(m.controller) && m.Valid()
    ensures m.deviceType == IntesisHome && m.updateCallbacks == [1, 2] && m.pending == []
    ensures m.connected && m.controller.isConnected
  {
    var c := new Controller(true);
    m := new IntesisManager(c, IntesisHome);
    m.AddUpdateCallback(1);
    m.AddUpdateCallback(2);
    assert m.updateCallbacks == [1, 2];
    var e := m.AsyncConnect(Connects);
  }

  /** The same supervisor after its controller dropped and the next event reached the relay. */
  method DroppedCloudSupervisor() returns (m: IntesisManager, firstDelay: nat)
    ensures fresh(m) && fresh(m.controller) && m.Valid()
    ensures m.deviceType == IntesisHome && m.updateCallbacks == [1, 2]
    ensures m.pending == [Attempt(firstDelay, 0)] && CloudDelayLow <= firstDelay < CloudDelayHigh
    ensures !m.connected && !m.controller.isConnected
  {
    m := ConnectedCloudSupervisor();
    m.controller.isConnected := false;
    m.AsyncUpdateCallback(None);
    firstDelay := m.pending[0].delay;
    assert m.pending == [Attempt(firstDelay, 0)];
  }

  /**
   * A cloud device with subscribers 1 and 2: connect, lose the link, fail the
   * first retry with a connection error, succeed on the second.
   */
  method ReconnectionScenario() returns (firstDelay: nat, secondDelay: nat, connectedAtEnd: bool, tail: seq<Effect>)
    ensures CloudDelayLow <= firstDelay < CloudDelayHigh
    ensures secondDelay == 1
    ensures connectedAtEnd
    ensures tail == [ControllerConnect, Notified(1, None), Notified(2, None)]
  {
    var m;
    m, firstDelay := DroppedCloudSupervisor();
    var e := m.FireScheduled(0, Raises(ConnectionError));
    assert m.pending == [Attempt(1, 1)];
    secondDelay := m.pending[0].delay;
    var before := m.effects;
    e := m.FireScheduled(0, Connects);
    connectedAtEnd := m.IsConnected();
    assert m.effects == before + AttemptEffects([1, 2], 1, Connects);
    tail := m.effects[|before|..];
  }

  /**
   * A recovery seen through an ordinary event flips the belief but leaves the
   * attempt scheduled by the drop in the queue; when it runs it reconnects and
   * broadcasts again.
   */
  method RecoveryByEventScenario() returns (pendingAfterRecovery: nat, believedAfterRecovery: bool, tail: seq<Effect>)
    ensures believedAfterRecovery
    ensures pendingAfterRecovery == 1
    ensures tail == [ControllerConnect, Notified(7, None)]
  {
    var c := new Controller(true);
    var m := new IntesisManager(c, Other("IntesisBox"));
    m.AddUpdateCallback(7);
    var e := m.AsyncConnect(Connects);
    c.isConnected := false;
    m.AsyncUpdateCallback(None);
    assert m.pending == [Attempt(30, 0)];
    c.isConnected := true;
    m.AsyncUpdateCallback(Some("1"));
    believedAfterRecovery := m.IsConnected();
    pendingAfterRecovery := |m.pending|;
    var before := |m.effects|;
    e := m.FireScheduled(0, Connects);
    tail := m.effects[before..];
  }
}
