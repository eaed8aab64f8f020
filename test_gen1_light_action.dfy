/** The test light button (src/actions/test-gen1-light-action.ts): a button
    wired to one fixed device, switch 0 at 192.168.77.4. A key press toggles
    the switch and shows the state read back; while a button is visible a
    timer of its own re-reads the switch every 5 seconds. The singleton
    action keeps one timer per visible button, keyed by the button's id. */
module TestGen1Light {
  import opened Types
  import opened ShellyClient
  import opened Timers
  import opened Effects

  const TestIp: string := "192.168.77.4"
  const TestComponentId: int := 0
  const TestPollingInterval: int := 5000

  /** The title for a status read: "ON"/"OFF" from the output, "ERR" when
      the read failed. */
  function TitleOf(status: Option<ShellyStatus>): (t: string)
    ensures t == "ERR" <==> status.None?
    ensures t == "ON" <==> status.Some? && status.value.output
    ensures t == "OFF" <==> status.Some? && !status.value.output
  {
    if status.None? then "ERR" else if status.value.output then "ON" else "OFF"
  }

  /** The read of the fixed switch. */
  function StatusCall(): (c: ClientCall)
    ensures c.GetStatusCall? && c.ip == TestIp && c.component == Switch && c.id == TestComponentId
  {
    GetStatusCall(TestIp, Switch, TestComponentId)
  }

  /** updateButtonState: read the switch, show what was read. */
  function UpdateButtonState(status: Option<ShellyStatus>): (es: seq<Effect>)
    ensures Calls(es) == [StatusCall()]
    ensures Titles(es) == [TitleOf(status)]
    ensures es == CallEffects(Calls(es)) + [SetTitle(TitleOf(status))]
  {
    var es := [Call(StatusCall()), SetTitle(TitleOf(status))];
    assert es[1..] == [SetTitle(TitleOf(status))];
    assert es[1..][1..] == [];
    assert Calls(es[1..]) == [] && Titles(es[1..]) == [TitleOf(status)];
    es
  }

  /** onKeyDown: toggle the switch, then read it back and show it. */
  function OnKeyDown(status: Option<ShellyStatus>): (es: seq<Effect>)
    ensures Calls(es) == [ToggleSwitchCall(TestIp, TestComponentId), StatusCall()]
    ensures Titles(es) == [TitleOf(status)]
    ensures es == [Call(ToggleSwitchCall(TestIp, TestComponentId))] + UpdateButtonState(status)
  {
    var refresh := UpdateButtonState(status);
    CallsAppend([Call(ToggleSwitchCall(TestIp, TestComponentId))], refresh);
    TitlesAppend([Call(ToggleSwitchCall(TestIp, TestComponentId))], refresh);
    [Call(ToggleSwitchCall(TestIp, TestComponentId))] + refresh
  }

  /** The key press reads back the very switch it toggled, and with the
      request the toggle itself starts with. */
  lemma KeyDownReadsToggledSwitch(status: Option<ShellyStatus>)
    ensures var cs := Calls(OnKeyDown(status));
      FirstRequest(cs[1]) == FirstRequest(cs[0]) && CallComponent(cs[0]) == Switch
  {
  }

  /** One timer tick for the button `actionId`: a refresh while the button is
      among the visible ones, nothing once it is gone. */
  function PollTick(actionId: string, visible: set<string>, status: Option<ShellyStatus>): (es: seq<Effect>)
    ensures actionId !in visible ==> es == []
    ensures actionId in visible ==> Calls(es) == [StatusCall()] && Titles(es) == [TitleOf(status)]
  {
    if actionId in visible then UpdateButtonState(status) else []
  }

  datatype TimerEvent = Cleared(timer: TimerId) | Scheduled(timer: TimerId, intervalMs: int)

  class TestGen1LightAction {
    var pollingIntervals: map<string, TimerId>
    var nextTimer: nat
    var log: seq<TimerEvent>
    ghost var live: set<TimerId>

    /** Each visible button owns exactly one live timer, no timer is shared
        and every live timer is one the map still holds. */
    ghost predicate Valid()
      reads this
    {
      && Injective(pollingIntervals)
      && live == pollingIntervals.Values
      && AllBelow(live, nextTimer)
    }

    constructor()
      ensures Valid()
      ensures pollingIntervals == map[] && live == {} && log == []
    {
      pollingIntervals := map[];
      nextTimer := 0;
      log := [];
      live := {};
    }

    /** stopPolling: clears and forgets the button's timer if it has one. */
    method StopPolling(actionId: string)
      requires Valid()
      modifies this
      ensures Valid()
      ensures pollingIntervals == old(pollingIntervals) - {actionId}
      ensures actionId in old(pollingIntervals) ==>
        log == old(log) + [Cleared(old(pollingIntervals)[actionId])] && live == old(live) - {old(pollingIntervals)[actionId]}
      ensures actionId !in old(pollingIntervals) ==> log == old(log) && live == old(live)
      ensures nextTimer == old(nextTimer)
    {
      if actionId in pollingIntervals {
        var t := pollingIntervals[actionId];
        log := log + [Cleared(t)];
        live := live - {t};
        RemoveKey(pollingIntervals, actionId);
        pollingIntervals := pollingIntervals - {actionId};
      }
    }

    /** startPolling: stops the button's timer, then schedules a fresh one
        every 5 seconds. */
    method StartPolling(actionId: string)
      requires Valid()
      modifies this
      ensures Valid()
      ensures pollingIntervals == old(pollingIntervals)[actionId := old(nextTimer)]
      ensures old(nextTimer) !in old(live)
      ensures live == (if actionId in old(pollingIntervals) then old(live) - {old(pollingIntervals)[actionId]} else old(live)) + {old(nextTimer)}
      ensures log == old(log)
        + (if actionId in old(pollingIntervals) then [Cleared(old(pollingIntervals)[actionId])] else [])
        + [Scheduled(old(nextTimer), TestPollingInterval)]
    {
      StopPolling(actionId);
      var t := nextTimer;
      nextTimer := nextTimer + 1;
      log := log + [Scheduled(t, TestPollingInterval)];
      AddFresh(pollingIntervals, actionId, t);
      pollingIntervals := pollingIntervals[actionId := t];
      live := live + {t};
    }

    /** onWillAppear: show the switch's state, then start the button's timer. */
    method OnWillAppear(actionId: string, status: Option<ShellyStatus>) returns (es: seq<Effect>)
      requires Valid()
      modifies this
      ensures Valid()
      ensures es == UpdateButtonState(status)
      ensures pollingIntervals == old(pollingIntervals)[actionId := old(nextTimer)]
      ensures |live| <= |old(live)| + 1
    {
      es := UpdateButtonState(status);
      ghost var before := live;
      StartPolling(actionId);
      assert live <= before + {old(nextTimer)};
      SubsetCard(live, before + {old(nextTimer)});
    }

    /** onWillDisappear: stop the button's timer; the other buttons keep theirs. */
    method OnWillDisappear(actionId: string)
      requires Valid()
      modifies this
      ensures Valid()
      ensures pollingIntervals == old(pollingIntervals) - {actionId}
      ensures actionId in old(pollingIntervals) ==> old(pollingIntervals)[actionId] !in live
    {
      StopPolling(actionId);
    }
  }

  lemma SubsetCard(a: set<TimerId>, b: set<TimerId>)
    requires a <= b
    ensures |a| <= |b|
  {
    if a != b {
      var x :| x in b && x !in a;
      SubsetCard(a, b - {x});
    }
  }
}
