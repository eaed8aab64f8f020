/** The "Off" button (src/actions/off-action.ts): a key press switches every
    configured device off; the title reads "OFF" once devices are configured. */
module OffAction {
  import opened Types
  import opened ShellyClient
  import opened DeviceTypes
  import opened IconGenerator
  import opened Effects
  import opened IconHelper

  /** turnOffDevice: a switch is set off, a light is set off at brightness 0,
      in either case on the device's default component. */
  function TurnOffDevice(d: DeviceConfig): (c: ClientCall)
    ensures c.ip == d.ip && c.id == ComponentOf(d).id && CallComponent(c) == ComponentOf(d).kind
    ensures c.SetSwitchCall? || c.SetLightCall?
    ensures c.SetSwitchCall? ==> !c.on
    ensures c.SetLightCall? ==> c.brightness == 0 && c.power == Some(false)
  {
    var component := ComponentOf(d);
    if component.kind == Switch then SetSwitchCall(d.ip, component.id, false)
    else SetLightCall(d.ip, component.id, 0, Some(false))
  }

  /** Whatever the device kind, the request sent asks for the output off. */
  lemma TurnOffSendsOff(d: DeviceConfig)
    ensures var r := FirstRequest(TurnOffDevice(d));
      r.verb == Post && Lookup(r.body.value, "on") == Some(JBool(false))
  {
  }

  /** updateButtonState: "OFF" and the coloured icon once devices are
      configured, an empty title otherwise. */
  function UpdateButtonState(settings: ActionSettings, env: IconEnv): (es: seq<Effect>)
    ensures Calls(es) == []
    ensures Titles(es) == if HasDevices(settings) then ["OFF"] else [""]
    ensures !HasDevices(settings) ==> es == [SetTitle("")]
    ensures HasDevices(settings) ==> es == [SetTitle("OFF")] + UpdateButtonIcon(OffUuid, settings, None, env)
  {
    if !HasDevices(settings) then [SetTitle("")]
    else
      var icon := UpdateButtonIcon(OffUuid, settings, None, env);
      KeyImageOnlyQuiet(icon);
      CallsAppend([SetTitle("OFF")], icon);
      TitlesAppend([SetTitle("OFF")], icon);
      [SetTitle("OFF")] + icon
  }

  /** onKeyDown: an alert and nothing else without devices; otherwise one
      turn-off per configured device, in order, then the title refresh. */
  function OnKeyDown(settings: ActionSettings, env: IconEnv): (es: seq<Effect>)
    ensures !HasDevices(settings) ==> es == [ShowAlert]
    ensures HasDevices(settings) ==>
      var ds := settings.devices.value;
      && |Calls(es)| == |ds|
      && (forall i :: 0 <= i < |ds| ==> Calls(es)[i] == TurnOffDevice(ds[i]))
      && Titles(es) == ["OFF"]
      && es == CallEffects(Calls(es)) + UpdateButtonState(settings, env)
  {
    if !HasDevices(settings) then [ShowAlert]
    else
      var ds := settings.devices.value;
      var cs := seq(|ds|, i requires 0 <= i < |ds| => TurnOffDevice(ds[i]));
      var refresh := UpdateButtonState(settings, env);
      CallsThenRefresh(cs, refresh);
      CallEffects(cs) + refresh
  }

  /** A key press never turns anything on: every request it sends asks for
      the output off. */
  lemma KeyDownOnlyTurnsOff(settings: ActionSettings, env: IconEnv, i: int)
    requires HasDevices(settings) && 0 <= i < |Calls(OnKeyDown(settings, env))|
    ensures var r := FirstRequest(Calls(OnKeyDown(settings, env))[i]);
      r.verb == Post && Lookup(r.body.value, "on") == Some(JBool(false))
  {
    TurnOffSendsOff(settings.devices.value[i]);
  }
}
