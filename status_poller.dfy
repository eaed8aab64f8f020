/** The status polling registry (src/lib/status-poller.ts): per device key, a
    repeating timer and the callback it feeds. Starting a key always stops
    it first, so a key never owns more than one live timer and no timer is
    leaked. Timer handles are fresh numbers; the ghost set `live` holds the
    handles that are scheduled and not yet cleared. The timer and fetch
    effects are appended to `log` in the order they happen. */
module Polling {
  import opened Types
  import opened Text
  import opened ShellyClient
  import opened DeviceTypes
  import opened Timers

  /** The identity of a status callback passed in by a caller. */
  type CallbackId = nat

  const DefaultInterval: int := 5000

  /** getDeviceKey: `"<ip>-<componentId || 0>"`. */
  function DeviceKey(d: DeviceConfig): string {
    d.ip + "-" + IntToString(OrNumber(d.componentId, 0))
  }

  /** The key ignores the device type and the component type: two configs
      for the same ip and component share a polling entry. */
  lemma DeviceKeyIgnoresTypes(d: DeviceConfig, deviceType: Option<string>, componentType: Option<ComponentType>)
    ensures DeviceKey(d.(deviceType := deviceType, componentType := componentType)) == DeviceKey(d)
  {
  }

  /** For non-negative component ids the key identifies the device: two
      configs share a key exactly when they name the same ip and component. */
  lemma DeviceKeyInjective(a: DeviceConfig, b: DeviceConfig)
    requires OrNumber(a.componentId, 0) >= 0 && OrNumber(b.componentId, 0) >= 0
    ensures DeviceKey(a) == DeviceKey(b) <==> a.ip == b.ip && OrNumber(a.componentId, 0) == OrNumber(b.componentId, 0)
  {
    var da := IntToString(OrNumber(a.componentId, 0));
    var db := IntToString(OrNumber(b.componentId, 0));
    if DeviceKey(a) == DeviceKey(b) {
      var k := DeviceKey(a);
      // The last '-' of the key separates the ip from the digits.
      LastDashBeforeDigits(a.ip, da);
      LastDashBeforeDigits(b.ip, db);
      assert |a.ip| == |b.ip|;
      assert a.ip == k[..|a.ip|] == b.ip;
      assert da == k[|a.ip| + 1..] == db;
      IntToStringInjective(OrNumber(a.componentId, 0), OrNumber(b.componentId, 0));
    }
  }

  /** The interval a poll is scheduled at: `interval || 5000`. */
  function PollInterval(interval: Option<int>): int {
    OrNumber(interval, DefaultInterval)
  }

  /** The component a poll reads: the configured component type if any,
      otherwise a switch for the Plus 1 tag and a light for every other tag. */
  function PollComponent(d: DeviceConfig): (c: ComponentType)
    ensures d.componentType.Some? ==> c == d.componentType.value
    ensures d.componentType.None? ==> (c == Switch <==> d.deviceType == Some(ShellyPlus1Tag))
  {
    if d.componentType.Some? then d.componentType.value
    else if d.deviceType == Some(ShellyPlus1Tag) then Switch
    else Light
  }

  /** For a device of unknown type the poller reads a light while the
      actions drive it as a switch. */
  lemma PollerAndActionsDisagreeOnUnknownType(d: DeviceConfig)
    requires d.componentType.None?
    requires d.deviceType != Some(ShellyPlus1Tag) && d.deviceType != Some(ShellyPlusRgbwPmTag)
    ensures PollComponent(d) == Light && ComponentOf(d).kind == Switch
  {
  }

  /** The status read one poll makes. */
  function PollCall(d: DeviceConfig): ClientCall {
    GetStatusCall(d.ip, PollComponent(d), OrNumber(d.componentId, 0))
  }

  datatype PollerEvent =
    | ClearInterval(timer: TimerId)
    | Poll(call: ClientCall, callback: CallbackId, status: Option<ShellyStatus>)   // the read, and the callback given its result
    | SetInterval(timer: TimerId, intervalMs: int)

  /** The clearInterval that stopping `key` performs on the timers `m`. */
  function ClearedBy(m: map<string, TimerId>, key: string): seq<PollerEvent> {
    if key in m then [ClearInterval(m[key])] else []
  }

  predicate OnlyClears(events: seq<PollerEvent>) {
    forall i :: 0 <= i < |events| ==> events[i].ClearInterval?
  }

  /** The timers a run of events clears. */
  function ClearedTimers(events: seq<PollerEvent>): set<TimerId> {
    if |events| == 0 then {}
    else
      var last := events[|events| - 1];
      ClearedTimers(events[..|events| - 1]) + (if last.ClearInterval? then {last.timer} else {})
  }

  lemma ClearedTimersAppend(events: seq<PollerEvent>, e: PollerEvent)
    ensures ClearedTimers(events + [e]) == ClearedTimers(events) + (if e.ClearInterval? then {e.timer} else {})
  {
    assert (events + [e])[..|events|] == events;
  }

  /** Clearing the timer of one more key keeps the cleared timers and the
      pending ones apart and together equal to all of them. */
  lemma DrainStep(pending: map<string, TimerId>, cleared: seq<PollerEvent>, all: set<TimerId>, k: string)
    requires k in pending && Injective(pending) && pending.Values <= all
    requires OnlyClears(cleared) && ClearedTimers(cleared) == all - pending.Values
    ensures var rest := pending - {k};
      var next := cleared + [ClearInterval(pending[k])];
      && Injective(rest) && rest.Values <= all
      && OnlyClears(next) && ClearedTimers(next) == all - rest.Values
      && |rest| < |pending|
  {
    var t := pending[k];
    RemoveKey(pending, k);
    ClearedTimersAppend(cleared, ClearInterval(t));
    assert t in pending.Values;
  }

  lemma RemoveThenSet<V>(m: map<string, V>, k: string, v: V)
    ensures (m - {k})[k := v] == m[k := v]
  {
  }

  class StatusPoller {
    var intervals: map<string, TimerId>
    var callbacks: map<string, CallbackId>
    var nextTimer: nat
    var log: seq<PollerEvent>
    ghost var live: set<TimerId>

    /** Each polled key owns exactly one live timer and one callback, no
        timer is shared between keys, and every live timer is one the
        registry still holds. */
    ghost predicate Valid()
      reads this
    {
      && intervals.Keys == callbacks.Keys
      && Injective(intervals)
      && live == intervals.Values
      && AllBelow(live, nextTimer)
    }

    constructor()
      ensures Valid()
      ensures intervals == map[] && callbacks == map[] && live == {} && log == []
    {
      intervals := map[];
      callbacks := map[];
      nextTimer := 0;
      log := [];
      live := {};
    }

    /** stopPolling: clears and forgets the key's timer if it has one, always
        forgets its callback; other keys are untouched. */
    method StopPolling(device: DeviceConfig)
      requires Valid()
      modifies this
      ensures Valid()
      ensures var key := DeviceKey(device);
        && intervals == old(intervals) - {key}
        && callbacks == old(callbacks) - {key}
        && live == (if key in old(intervals) then old(live) - {old(intervals)[key]} else old(live))
        && log == old(log) + ClearedBy(old(intervals), key)
        && nextTimer == old(nextTimer)
    {
      var key := DeviceKey(device);
      if key in intervals {
        var t := intervals[key];
        log := log + [ClearInterval(t)];
        live := live - {t};
        RemoveKey(intervals, key);
        intervals := intervals - {key};
      }
      callbacks := callbacks - {key};
    }

    /** startPolling: stops the key, registers the callback, polls once at
        once (the callback gets the result even when it is None), then
        schedules a fresh timer at `interval || 5000`. */
    method StartPolling(device: DeviceConfig, callback: CallbackId, interval: Option<int>, firstStatus: Option<ShellyStatus>)
      requires Valid()
      modifies this
      ensures Valid()
      ensures var key := DeviceKey(device);
        && intervals == old(intervals)[key := old(nextTimer)]
        && callbacks == old(callbacks)[key := callback]
        && old(nextTimer) !in old(live)
        && live == (if key in old(intervals) then old(live) - {old(intervals)[key]} else old(live)) + {old(nextTimer)}
        && log == old(log) + ClearedBy(old(intervals), key)
                  + [Poll(PollCall(device), callback, firstStatus), SetInterval(old(nextTimer), PollInterval(interval))]
    {
      var key := DeviceKey(device);
      var pollInterval := OrNumber(interval, DefaultInterval);
      StopPolling(device);
      callbacks := callbacks[key := callback];
      var t := nextTimer;
      nextTimer := nextTimer + 1;
      log := log + [Poll(PollCall(device), callback, firstStatus), SetInterval(t, pollInterval)];
      AddFresh(intervals, key, t);
      intervals := intervals[key := t];
      live := live + {t};
      RemoveThenSet(old(intervals), key, t);
      RemoveThenSet(old(callbacks), key, callback);
    }

    /** stopAll: clears every stored timer and empties both maps. */
    method StopAll()
      requires Valid()
      modifies this
      ensures Valid()
      ensures intervals == map[] && callbacks == map[] && live == {}
      ensures nextTimer == old(nextTimer)
      ensures |old(log)| <= |log| && log[..|old(log)|] == old(log)
      ensures OnlyClears(log[|old(log)|..]) && ClearedTimers(log[|old(log)|..]) == old(live)
    {
      var pending := intervals;
      var cleared: seq<PollerEvent> := [];
      ghost var live0 := live;
      while pending != map[]
        modifies {}
        invariant Injective(pending) && pending.Values <= live0
        invariant OnlyClears(cleared) && ClearedTimers(cleared) == live0 - pending.Values
        decreases |pending|
      {
        var k :| k in pending;
        DrainStep(pending, cleared, live0, k);
        cleared := cleared + [ClearInterval(pending[k])];
        pending := pending - {k};
      }
      ghost var before := log;
      log := log + cleared;
      assert log[|before|..] == cleared;
      live := {};
      intervals := map[];
      callbacks := map[];
    }
  }
}
