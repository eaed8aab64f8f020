/** The "Toggle" button (src/actions/toggle-action.ts): a key press flips every
    configured device; the button's state and title follow the first
    device's output as read back from it. */
module ToggleAction {
  import opened Types
  import opened ShellyClient
  import opened DeviceTypes
  import opened IconGenerator
  import opened Effects
  import opened IconHelper

  /** toggleDevice: the toggle of the device's default component. */
  function ToggleDevice(d: DeviceConfig): (c: ClientCall)
    ensures c.ip == d.ip && c.id == ComponentOf(d).id && CallComponent(c) == ComponentOf(d).kind
    ensures c.ToggleSwitchCall? || c.ToggleLightCall?
  {
    var component := ComponentOf(d);
    if component.kind == Switch then ToggleSwitchCall(d.ip, component.id)
    else ToggleLightCall(d.ip, component.id)
  }

  /** The state shown for a status read: 1 for an output that is on, 0 for
      one that is off and for a failed read. */
  function StateOf(status: Option<ShellyStatus>): (s: int)
    ensures s == 1 <==> status.Some? && status.value.output
    ensures s == 0 || s == 1
  {
    if status.Some? && status.value.output then 1 else 0
  }

  /** The title shown for a status read. */
  function TitleOf(status: Option<ShellyStatus>): (t: string)
    ensures t == "ON" <==> StateOf(status) == 1
    ensures t == "?" <==> status.None?
    ensures t == "OFF" <==> status.Some? && !status.value.output
  {
    if status.None? then "?" else if status.value.output then "ON" else "OFF"
  }

  /** The read, state and title that open a refresh. */
  lemma HeadEffects(read: ClientCall, state: int, title: string)
    ensures Calls([Call(read), SetState(state), SetTitle(title)]) == [read]
    ensures Titles([Call(read), SetState(state), SetTitle(title)]) == [title]
  {
    var last := [SetTitle(title)];
    assert last[1..] == [];
    var rest := [SetState(state)] + last;
    PrependQuiet(SetState(state), last);
    assert ([Call(read)] + rest)[1..] == rest;
    assert [Call(read), SetState(state), SetTitle(title)] == [Call(read)] + rest;
  }

  /** updateButtonState. `status` is what the read of the first device
      returned. */
  function UpdateButtonState(settings: ActionSettings, status: Option<ShellyStatus>, env: IconEnv): (es: seq<Effect>)
    ensures !HasDevices(settings) ==> Calls(es) == [] && Titles(es) == [""] && es[0] == SetState(0)
    ensures HasDevices(settings) ==>
      && Calls(es) == [StatusCallOf(settings.devices.value[0])]
      && Titles(es) == [TitleOf(status)]
      && |es| >= 3 && es[1] == SetState(StateOf(status))
    ensures !HasDevices(settings) ==> es == [SetState(0), SetTitle("")] + UpdateButtonIcon(ToggleUuid, settings, Some(0), env)
    ensures HasDevices(settings) ==>
      es == [Call(StatusCallOf(settings.devices.value[0])), SetState(StateOf(status)), SetTitle(TitleOf(status))]
        + UpdateButtonIcon(ToggleUuid, settings, Some(StateOf(status)), env)
    ensures forall i :: 0 <= i < |es| && es[i].SetImage? ==>
      es[i].forState == Some(if HasDevices(settings) then StateOf(status) else 0)
  {
    if !HasDevices(settings) then
      var icon := UpdateButtonIcon(ToggleUuid, settings, Some(0), env);
      KeyImageOnlyQuiet(icon);
      CallsAppend([SetState(0), SetTitle("")], icon);
      TitlesAppend([SetState(0), SetTitle("")], icon);
      [SetState(0), SetTitle("")] + icon
    else
      var state := StateOf(status);
      var head := [Call(StatusCallOf(settings.devices.value[0])), SetState(state), SetTitle(TitleOf(status))];
      var icon := UpdateButtonIcon(ToggleUuid, settings, Some(state), env);
      KeyImageOnlyQuiet(icon);
      CallsAppend(head, icon);
      TitlesAppend(head, icon);
      HeadEffects(StatusCallOf(settings.devices.value[0]), state, TitleOf(status));
      head + icon
  }

  /** The state and the title never disagree: state 1 is shown exactly
      with "ON", and the redrawn icon is the icon of that state. */
  lemma StateMatchesTitle(settings: ActionSettings, status: Option<ShellyStatus>, env: IconEnv)
    requires HasDevices(settings)
    ensures var es := UpdateButtonState(settings, status, env);
      es[1] == SetState(1) <==> Titles(es) == ["ON"]
  {
  }

  /** onKeyDown: an alert and nothing else without devices; otherwise one
      toggle per configured device, in order, then the refresh, which reads
      the first device again. */
  function OnKeyDown(settings: ActionSettings, status: Option<ShellyStatus>, env: IconEnv): (es: seq<Effect>)
    ensures !HasDevices(settings) ==> es == [ShowAlert]
    ensures HasDevices(settings) ==>
      var ds := settings.devices.value;
      && |Calls(es)| == |ds| + 1
      && (forall i :: 0 <= i < |ds| ==> Calls(es)[i] == ToggleDevice(ds[i]))
      && Calls(es)[|ds|] == StatusCallOf(ds[0])
      && Titles(es) == [TitleOf(status)]
      && es == CallEffects(Calls(es)[..|ds|]) + UpdateButtonState(settings, status, env)
  {
    if !HasDevices(settings) then [ShowAlert]
    else
      var ds := settings.devices.value;
      var toggles := seq(|ds|, i requires 0 <= i < |ds| => ToggleDevice(ds[i]));
      var calls := CallEffects(toggles);
      var refresh := UpdateButtonState(settings, status, env);
      CallEffectsRoundTrip(toggles);
      CallsAppend(calls, refresh);
      TitlesAppend(calls, refresh);
      calls + refresh
  }

  /** Every device toggled is toggled through the component the button
      reads: the refresh's read of the first device addresses the same
      component the first toggle wrote. */
  lemma KeyDownReadsWhatItToggled(settings: ActionSettings, status: Option<ShellyStatus>, env: IconEnv)
    requires HasDevices(settings)
    ensures var cs := Calls(OnKeyDown(settings, status, env));
      var n := |settings.devices.value|;
      && cs[n].ip == cs[0].ip && cs[n].id == cs[0].id
      && CallComponent(cs[n]) == CallComponent(cs[0])
      && FirstRequest(cs[n]) == FirstRequest(cs[0])
  {
  }
}
