/** The "Status" button (src/actions/status-action.ts): it shows the first
    configured device's state and keeps it fresh through the shared status
    poller. Appearing or receiving new settings stops polling for every
    configured device and polls the first one; disappearing stops polling for
    every configured device. */
module StatusAction {
  import opened Types
  import opened Text
  import opened ShellyClient
  import opened DeviceTypes
  import opened IconGenerator
  import opened Effects
  import opened IconHelper
  import opened Timers
  import opened Polling

  const DefaultPollingInterval: int := 5000

  /** The status carries a colour channel (it comes from an RGBW light). */
  predicate HasColour(s: ShellyStatus) {
    s.red.Some? || s.green.Some? || s.blue.Some?
  }

  /** The title for a status: "?" without one, "OFF" for an output that is
      off, the brightness (`|| 0`) as a percentage for a coloured light that
      is on, "ON" for anything else that is on. */
  function StatusTitle(status: Option<ShellyStatus>): (t: string)
    ensures t == "?" <==> status.None?
    ensures t == "OFF" <==> status.Some? && !status.value.output
    ensures t == "ON" <==> status.Some? && status.value.output && !HasColour(status.value)
    ensures status.Some? && status.value.output && HasColour(status.value) ==>
      t == Percent(OrNumber(status.value.brightness, 0))
  {
    if status.None? then "?"
    else if !status.value.output then "OFF"
    else if HasColour(status.value) then Percent(OrNumber(status.value.brightness, 0))
    else "ON"
  }

  /** updateButtonState. `supplied` is the status the poller handed over
      (None when called directly, or when the poll failed); without one the
      first device is read, and `fetched` is what that read returned. */
  function UpdateButtonState(settings: ActionSettings, supplied: Option<ShellyStatus>, fetched: Option<ShellyStatus>, env: IconEnv): (es: seq<Effect>)
    ensures !HasDevices(settings) ==> es == [SetTitle("")]
    ensures HasDevices(settings) ==>
      && Calls(es) == (if supplied.None? then [StatusCallOf(settings.devices.value[0])] else [])
      && Titles(es) == [StatusTitle(if supplied.Some? then supplied else fetched)]
      && es == CallEffects(Calls(es)) + [SetTitle(StatusTitle(if supplied.Some? then supplied else fetched))]
        + UpdateButtonIcon(StatusUuid, settings, None, env)
  {
    if !HasDevices(settings) then [SetTitle("")]
    else
      var lookups := if supplied.None? then [Call(StatusCallOf(settings.devices.value[0]))] else [];
      var title := SetTitle(StatusTitle(if supplied.Some? then supplied else fetched));
      var icon := UpdateButtonIcon(StatusUuid, settings, None, env);
      KeyImageOnlyQuiet(icon);
      CallsAppend([title], icon);
      TitlesAppend([title], icon);
      CallsAppend(lookups, [title] + icon);
      TitlesAppend(lookups, [title] + icon);
      lookups + ([title] + icon)
  }

  /** A status handed over by the poller is shown as it is, with no read of
      its own; a failed poll hands over nothing and makes the button read
      the device once more. */
  lemma PolledStatusShownWithoutRead(settings: ActionSettings, status: ShellyStatus, fetched: Option<ShellyStatus>, env: IconEnv)
    requires HasDevices(settings)
    ensures Calls(UpdateButtonState(settings, Some(status), fetched, env)) == []
    ensures Titles(UpdateButtonState(settings, Some(status), fetched, env)) == [StatusTitle(Some(status))]
    ensures |Calls(UpdateButtonState(settings, None, fetched, env))| == 1
  {
  }

  /** The polling keys of a list of devices. */
  function KeysOf(ds: seq<DeviceConfig>): set<string>
    decreases |ds|
  {
    if |ds| == 0 then {} else KeysOf(ds[..|ds| - 1]) + {DeviceKey(ds[|ds| - 1])}
  }

  lemma KeysOfSnoc(ds: seq<DeviceConfig>, d: DeviceConfig)
    ensures KeysOf(ds + [d]) == KeysOf(ds) + {DeviceKey(d)}
  {
    assert (ds + [d])[..|ds|] == ds;
  }

  /** A key is among the keys of a list exactly when a device of the list has it. */
  lemma {:induction false} KeysOfIff(ds: seq<DeviceConfig>, k: string)
    ensures k in KeysOf(ds) <==> exists d :: d in ds && DeviceKey(d) == k
    decreases |ds|
  {
    if |ds| > 0 {
      var init := ds[..|ds| - 1];
      var last := ds[|ds| - 1];
      assert ds == init + [last];
      KeysOfIff(init, k);
      if k in KeysOf(init) {
        var d :| d in init && DeviceKey(d) == k;
        assert d in ds;
      }
      if exists d :: d in ds && DeviceKey(d) == k {
        var d :| d in ds && DeviceKey(d) == k;
        if d != last {
          assert d in init;
        }
      }
    }
  }

  /** The timer clears that stopping each device of `ds` in turn performs,
      starting from the timers `m`. */
  function StopEvents(m: map<string, TimerId>, ds: seq<DeviceConfig>): seq<PollerEvent>
    decreases |ds|
  {
    if |ds| == 0 then []
    else
      var init := ds[..|ds| - 1];
      StopEvents(m, init) + ClearedBy(m - KeysOf(init), DeviceKey(ds[|ds| - 1]))
  }

  lemma StopEventsSnoc(m: map<string, TimerId>, ds: seq<DeviceConfig>, d: DeviceConfig)
    ensures StopEvents(m, ds + [d]) == StopEvents(m, ds) + ClearedBy(m - KeysOf(ds), DeviceKey(d))
  {
    assert (ds + [d])[..|ds|] == ds;
  }

  /** The timers `m` holds under the keys `keys`. */
  function OwnedTimers(m: map<string, TimerId>, keys: set<string>): set<TimerId> {
    set k | k in m && k in keys :: m[k]
  }

  lemma OwnedTimersAdd(m: map<string, TimerId>, keys: set<string>, k: string)
    ensures OwnedTimers(m, keys + {k}) == OwnedTimers(m, keys) + (if k in m - keys then {m[k]} else {})
  {
    if k in m {
      assert m[k] in OwnedTimers(m, keys + {k});
    }
  }

  /** The last device of a list adds its key and its clear. */
  lemma StopEventsUnfold(m: map<string, TimerId>, ds: seq<DeviceConfig>)
    requires |ds| > 0
    ensures var init := ds[..|ds| - 1];
      && StopEvents(m, ds) == StopEvents(m, init) + ClearedBy(m - KeysOf(init), DeviceKey(ds[|ds| - 1]))
      && KeysOf(ds) == KeysOf(init) + {DeviceKey(ds[|ds| - 1])}
  {
  }

  /** Stopping a list of devices does nothing but clear timers. */
  lemma {:induction false} StopEventsOnlyClear(m: map<string, TimerId>, ds: seq<DeviceConfig>)
    ensures OnlyClears(StopEvents(m, ds))
    decreases |ds|
  {
    if |ds| > 0 {
      var init := ds[..|ds| - 1];
      StopEventsUnfold(m, ds);
      StopEventsOnlyClear(m, init);
    }
  }

  /** Stopping a list of devices clears exactly the timers their keys own,
      and does nothing but clear. */
  lemma {:induction false} StopEventsClearOwned(m: map<string, TimerId>, ds: seq<DeviceConfig>)
    ensures OnlyClears(StopEvents(m, ds))
    ensures ClearedTimers(StopEvents(m, ds)) == OwnedTimers(m, KeysOf(ds))
    decreases |ds|
  {
    StopEventsOnlyClear(m, ds);
    if |ds| == 0 {
      assert OwnedTimers(m, {}) == {};
    } else {
      var init := ds[..|ds| - 1];
      var keys := KeysOf(init);
      var key := DeviceKey(ds[|ds| - 1]);
      var before := StopEvents(m, init);
      StopEventsUnfold(m, ds);
      StopEventsClearOwned(m, init);
      OwnedTimersAdd(m, keys, key);
      if key in m - keys {
        ClearedTimersAppend(before, ClearInterval(m[key]));
      } else {
        assert before + [] == before;
      }
    }
  }

  lemma AppendAssoc<T>(a: seq<T>, b: seq<T>, c: seq<T>)
    ensures (a + b) + c == a + (b + c)
  {
  }

  lemma MinusSnoc<V>(m: map<string, V>, keys: set<string>, k: string)
    ensures (m - keys) - {k} == m - (keys + {k})
  {
  }

  /** What stopping the next device of a list adds to the keys stopped so far. */
  lemma StopStep(m: map<string, TimerId>, c: map<string, CallbackId>, ds: seq<DeviceConfig>, i: int)
    requires 0 <= i < |ds|
    ensures KeysOf(ds[..i + 1]) == KeysOf(ds[..i]) + {DeviceKey(ds[i])}
    ensures StopEvents(m, ds[..i + 1]) == StopEvents(m, ds[..i]) + ClearedBy(m - KeysOf(ds[..i]), DeviceKey(ds[i]))
    ensures (m - KeysOf(ds[..i])) - {DeviceKey(ds[i])} == m - KeysOf(ds[..i + 1])
    ensures (c - KeysOf(ds[..i])) - {DeviceKey(ds[i])} == c - KeysOf(ds[..i + 1])
  {
    assert ds[..i + 1] == ds[..i] + [ds[i]];
    KeysOfSnoc(ds[..i], ds[i]);
    StopEventsSnoc(m, ds[..i], ds[i]);
    MinusSnoc(m, KeysOf(ds[..i]), DeviceKey(ds[i]));
    MinusSnoc(c, KeysOf(ds[..i]), DeviceKey(ds[i]));
  }

  class StatusAction {
    var pollingInterval: int
    const poller: StatusPoller
    /** The identity of the callback this button registers with the poller. */
    const callback: CallbackId

    constructor(poller: StatusPoller, callback: CallbackId)
      ensures this.poller == poller && this.callback == callback
      ensures pollingInterval == DefaultPollingInterval
    {
      this.poller := poller;
      this.callback := callback;
      pollingInterval := DefaultPollingInterval;
    }

    /** `settings.devices.forEach(device => poller.stopPolling(device))`. */
    method StopDevices(ds: seq<DeviceConfig>)
      requires poller.Valid()
      modifies poller
      ensures poller.Valid()
      ensures poller.intervals == old(poller.intervals) - KeysOf(ds)
      ensures poller.callbacks == old(poller.callbacks) - KeysOf(ds)
      ensures poller.nextTimer == old(poller.nextTimer)
      ensures poller.log == old(poller.log) + StopEvents(old(poller.intervals), ds)
    {
      ghost var m0 := poller.intervals;
      ghost var c0 := poller.callbacks;
      ghost var log0 := poller.log;
      ghost var n0 := poller.nextTimer;
      ghost var keys: set<string> := {};
      ghost var events: seq<PollerEvent> := [];
      var i := 0;
      while i < |ds|
        invariant 0 <= i <= |ds|
        invariant keys == KeysOf(ds[..i]) && events == StopEvents(m0, ds[..i])
        invariant poller.Valid()
        invariant poller.intervals == m0 - keys && poller.callbacks == c0 - keys
        invariant poller.nextTimer == n0
        invariant poller.log == log0 + events
      {
        StopStep(m0, c0, ds, i);
        ghost var step := ClearedBy(m0 - keys, DeviceKey(ds[i]));
        AppendAssoc(log0, events, step);
        poller.StopPolling(ds[i]);
        keys := keys + {DeviceKey(ds[i])};
        events := events + step;
        i := i + 1;
      }
      assert ds[..|ds|] == ds;
    }

    /** startPolling: without devices nothing; otherwise every configured
        device stops polling and the first one is polled at this button's
        interval, reporting to this button's callback. */
    method StartPolling(settings: ActionSettings, firstStatus: Option<ShellyStatus>)
      requires poller.Valid()
      modifies poller
      ensures poller.Valid()
      ensures !HasDevices(settings) ==>
        && poller.intervals == old(poller.intervals) && poller.callbacks == old(poller.callbacks)
        && poller.log == old(poller.log) && poller.nextTimer == old(poller.nextTimer)
      ensures HasDevices(settings) ==>
        var ds := settings.devices.value;
        var key := DeviceKey(ds[0]);
        && poller.intervals == (old(poller.intervals) - KeysOf(ds))[key := old(poller.nextTimer)]
        && poller.callbacks == (old(poller.callbacks) - KeysOf(ds))[key := callback]
        && poller.log == old(poller.log) + StopEvents(old(poller.intervals), ds)
             + [Poll(PollCall(ds[0]), callback, firstStatus), SetInterval(old(poller.nextTimer), PollInterval(Some(pollingInterval)))]
        && (forall d :: d in ds ==> (DeviceKey(d) in poller.intervals <==> DeviceKey(d) == key))
    {
      if !HasDevices(settings) {
        return;
      }
      var ds := settings.devices.value;
      StopDevices(ds);
      forall d | d in ds
        ensures DeviceKey(d) in KeysOf(ds)
      {
        KeysOfIff(ds, DeviceKey(d));
      }
      poller.StartPolling(ds[0], callback, Some(pollingInterval), firstStatus);
    }

    /** onWillAppear: the interval becomes `settings.pollingInterval || 5000`,
        polling restarts, then the button reads and shows the first device. */
    method OnWillAppear(settings: ActionSettings, firstStatus: Option<ShellyStatus>, fetched: Option<ShellyStatus>, env: IconEnv)
      returns (es: seq<Effect>)
      requires poller.Valid()
      modifies this, poller
      ensures poller.Valid()
      ensures pollingInterval == OrNumber(settings.pollingInterval, DefaultPollingInterval)
      ensures HasDevices(settings) ==>
        var ds := settings.devices.value;
        var key := DeviceKey(ds[0]);
        && poller.intervals == (old(poller.intervals) - KeysOf(ds))[key := old(poller.nextTimer)]
        && poller.callbacks == (old(poller.callbacks) - KeysOf(ds))[key := callback]
        && poller.log == old(poller.log) + StopEvents(old(poller.intervals), ds)
             + [Poll(PollCall(ds[0]), callback, firstStatus), SetInterval(old(poller.nextTimer), PollInterval(Some(pollingInterval)))]
      ensures !HasDevices(settings) ==>
        && poller.intervals == old(poller.intervals) && poller.callbacks == old(poller.callbacks)
        && poller.log == old(poller.log)
      ensures es == UpdateButtonState(settings, None, fetched, env)
    {
      pollingInterval := OrNumber(settings.pollingInterval, DefaultPollingInterval);
      StartPolling(settings, firstStatus);
      es := UpdateButtonState(settings, None, fetched, env);
    }

    /** onDidReceiveSettings does what onWillAppear does. */
    method OnDidReceiveSettings(settings: ActionSettings, firstStatus: Option<ShellyStatus>, fetched: Option<ShellyStatus>, env: IconEnv)
      returns (es: seq<Effect>)
      requires poller.Valid()
      modifies this, poller
      ensures poller.Valid()
      ensures pollingInterval == OrNumber(settings.pollingInterval, DefaultPollingInterval)
      ensures HasDevices(settings) ==>
        var ds := settings.devices.value;
        var key := DeviceKey(ds[0]);
        && poller.intervals == (old(poller.intervals) - KeysOf(ds))[key := old(poller.nextTimer)]
        && poller.callbacks == (old(poller.callbacks) - KeysOf(ds))[key := callback]
        && poller.log == old(poller.log) + StopEvents(old(poller.intervals), ds)
             + [Poll(PollCall(ds[0]), callback, firstStatus), SetInterval(old(poller.nextTimer), PollInterval(Some(pollingInterval)))]
      ensures !HasDevices(settings) ==>
        && poller.intervals == old(poller.intervals) && poller.callbacks == old(poller.callbacks)
        && poller.log == old(poller.log)
      ensures es == UpdateButtonState(settings, None, fetched, env)
    {
      es := OnWillAppear(settings, firstStatus, fetched, env);
    }

    /** onWillDisappear: every configured device stops polling, the devices
        of other buttons keep theirs. */
    method OnWillDisappear(settings: ActionSettings)
      requires poller.Valid()
      modifies poller
      ensures poller.Valid()
      ensures poller.intervals == old(poller.intervals) - KeysOf(Devices(settings))
      ensures poller.callbacks == old(poller.callbacks) - KeysOf(Devices(settings))
      ensures poller.log == old(poller.log) + StopEvents(old(poller.intervals), Devices(settings))
    {
      if settings.devices.Some? {
        StopDevices(settings.devices.value);
      } else {
        assert KeysOf([]) == {};
        assert old(poller.intervals) - {} == old(poller.intervals);
        assert old(poller.callbacks) - {} == old(poller.callbacks);
      }
    }
  }
}
