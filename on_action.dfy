/** The "On" button (src/actions/on-action.ts): a key press switches every
    configured device on; the title reads "ON" once devices are configured. */
module OnAction {
  import opened Types
  import opened ShellyClient
  import opened DeviceTypes
  import opened IconGenerator
  import opened Effects
  import opened IconHelper

  /** turnOnDevice: a switch is set on, a light is set on at full brightness,
      in either case on the device's default component. */
  function TurnOnDevice(d: DeviceConfig): (c: ClientCall)
    ensures c.ip == d.ip && c.id == ComponentOf(d).id && CallComponent(c) == ComponentOf(d).kind
    ensures c.SetSwitchCall? || c.SetLightCall?
    ensures c.SetSwitchCall? ==> c.on
    ensures c.SetLightCall? ==> c.brightness == 100 && c.power == Some(true)
  {
    var component := ComponentOf(d);
    if component.kind == Switch then SetSwitchCall(d.ip, component.id, true)
    else SetLightCall(d.ip, component.id, 100, Some(true))
  }

  /** Whatever the device kind, the request sent asks for the output on. */
  lemma TurnOnSendsOn(d: DeviceConfig)
    ensures var r := FirstRequest(TurnOnDevice(d));
      r.verb == Post && Lookup(r.body.value, "on") == Some(JBool(true))
  {
  }

  /** updateButtonState: "ON" and the coloured icon once devices are
      configured, an empty title otherwise. */
  function UpdateButtonState(settings: ActionSettings, env: IconEnv): (es: seq<Effect>)
    ensures Calls(es) == []
    ensures Titles(es) == if HasDevices(settings) then ["ON"] else [""]
    ensures !HasDevices(settings) ==> es == [SetTitle("")]
    ensures HasDevices(settings) ==> es == [SetTitle("ON")] + UpdateButtonIcon(OnUuid, settings, None, env)
  {
    if !HasDevices(settings) then [SetTitle("")]
    else
      var icon := UpdateButtonIcon(OnUuid, settings, None, env);
      KeyImageOnlyQuiet(icon);
      CallsAppend([SetTitle("ON")], icon);
      TitlesAppend([SetTitle("ON")], icon);
      [SetTitle("ON")] + icon
  }

  /** onKeyDown: an alert and nothing else without devices; otherwise one
      turn-on per configured device, in order, then the title refresh. */
  function OnKeyDown(settings: ActionSettings, env: IconEnv): (es: seq<Effect>)
    ensures !HasDevices(settings) ==> es == [ShowAlert]
    ensures HasDevices(settings) ==>
      var ds := settings.devices.value;
      && |Calls(es)| == |ds|
      && (forall i :: 0 <= i < |ds| ==> Calls(es)[i] == TurnOnDevice(ds[i]))
      && Titles(es) == ["ON"]
      && es == CallEffects(Calls(es)) + UpdateButtonState(settings, env)
  {
    if !HasDevices(settings) then [ShowAlert]
    else
      var ds := settings.devices.value;
      var cs := seq(|ds|, i requires 0 <= i < |ds| => TurnOnDevice(ds[i]));
      var refresh := UpdateButtonState(settings, env);
      CallsThenRefresh(cs, refresh);
      CallEffects(cs) + refresh
  }

  /** A key press never turns anything off: every request it sends asks for
      the output on. */
  lemma KeyDownOnlyTurnsOn(settings: ActionSettings, env: IconEnv, i: int)
    requires HasDevices(settings) && 0 <= i < |Calls(OnKeyDown(settings, env))|
    ensures var r := FirstRequest(Calls(OnKeyDown(settings, env))[i]);
      r.verb == Post && Lookup(r.body.value, "on") == Some(JBool(true))
  {
    TurnOnSendsOn(settings.devices.value[i]);
  }
}
