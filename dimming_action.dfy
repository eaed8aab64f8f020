/** The "Dimming" button (src/actions/dimming-action.ts): a key press sets
    every configured light to the stored brightness; turning the dial moves
    the stored brightness in steps of 5 within 0..100, saves it and applies
    it. Devices driven as switches are skipped. */
module DimmingAction {
  import opened Types
  import opened Text
  import opened ShellyClient
  import opened DeviceTypes
  import opened IconGenerator
  import opened Effects
  import opened IconHelper

  const DefaultBrightness: int := 50
  const DialStep: int := 5

  /** `settings.brightness || 50`. */
  function Brightness(settings: ActionSettings): int {
    OrNumber(settings.brightness, DefaultBrightness)
  }

  /** setBrightness over the devices: one Light.Set, switched on, per device
      driven as a light, in order; nothing for the others. */
  function BrightnessCalls(ds: seq<DeviceConfig>, b: int): (cs: seq<ClientCall>)
    ensures |cs| == |LightDevices(ds)|
    ensures forall i :: 0 <= i < |cs| ==>
      var d := LightDevices(ds)[i];
      cs[i] == SetLightCall(d.ip, ComponentOf(d).id, b, Some(true))
  {
    var ls := LightDevices(ds);
    seq(|ls|, i requires 0 <= i < |ls| => SetLightCall(ls[i].ip, ComponentOf(ls[i]).id, b, Some(true)))
  }

  /** Every call sets a light of the button on at the given brightness. */
  lemma BrightnessCallsTargetLights(ds: seq<DeviceConfig>, b: int, i: int)
    requires 0 <= i < |BrightnessCalls(ds, b)|
    ensures var c := BrightnessCalls(ds, b)[i];
      exists d :: d in ds && IsLight(d) && c.ip == d.ip && c.id == ComponentOf(d).id
    ensures var r := FirstRequest(BrightnessCalls(ds, b)[i]);
      Lookup(r.body.value, "brightness") == Some(JNum(b)) && Lookup(r.body.value, "on") == Some(JBool(true))
  {
    var d := LightDevices(ds)[i];
    assert d in LightDevices(ds);
  }

  /** updateButtonState: the stored brightness as a percentage once devices
      are configured, an empty title otherwise. */
  function UpdateButtonState(settings: ActionSettings, env: IconEnv): (es: seq<Effect>)
    ensures Calls(es) == []
    ensures Titles(es) == if HasDevices(settings) then [Percent(Brightness(settings))] else [""]
    ensures !HasDevices(settings) ==> es == [SetTitle("")]
    ensures HasDevices(settings) ==>
      es == [SetTitle(Percent(Brightness(settings)))] + UpdateButtonIcon(DimmingUuid, settings, None, env)
  {
    if !HasDevices(settings) then [SetTitle("")]
    else
      var title := SetTitle(Percent(Brightness(settings)));
      var icon := UpdateButtonIcon(DimmingUuid, settings, None, env);
      KeyImageOnlyQuiet(icon);
      CallsAppend([title], icon);
      TitlesAppend([title], icon);
      [title] + icon
  }

  /** The brightness `b` sent to every light, then the title refresh. */
  function ApplyBrightness(settings: ActionSettings, b: int, env: IconEnv): (es: seq<Effect>)
    requires HasDevices(settings)
    ensures Calls(es) == BrightnessCalls(settings.devices.value, b)
    ensures Titles(es) == [Percent(Brightness(settings))]
    ensures es == CallEffects(Calls(es)) + UpdateButtonState(settings, env)
  {
    var cs := BrightnessCalls(settings.devices.value, b);
    var refresh := UpdateButtonState(settings, env);
    CallsThenRefresh(cs, refresh);
    CallEffects(cs) + refresh
  }

  /** onKeyDown: an alert without devices; otherwise the stored brightness,
      as stored, to every light. */
  function OnKeyDown(settings: ActionSettings, env: IconEnv): (es: seq<Effect>)
    ensures !HasDevices(settings) ==> es == [ShowAlert]
    ensures HasDevices(settings) ==>
      && Calls(es) == BrightnessCalls(settings.devices.value, Brightness(settings))
      && Titles(es) == [Percent(Brightness(settings))]
      && es == CallEffects(Calls(es)) + UpdateButtonState(settings, env)
  {
    if !HasDevices(settings) then [ShowAlert]
    else ApplyBrightness(settings, Brightness(settings), env)
  }

  /** The brightness a dial turn of `ticks` moves to. */
  function DialBrightness(settings: ActionSettings, ticks: int): (b: int)
    ensures 0 <= b <= 100
    ensures 0 <= Brightness(settings) + DialStep * ticks <= 100 ==> b == Brightness(settings) + DialStep * ticks
    ensures Brightness(settings) + DialStep * ticks > 100 ==> b == 100
    ensures Brightness(settings) + DialStep * ticks < 0 ==> b == 0
  {
    Clamp(0, 100, Brightness(settings) + DialStep * ticks)
  }

  /** onDialRotate: nothing without devices; otherwise the new brightness is
      saved in the settings, sent to every light and shown. */
  function OnDialRotate(settings: ActionSettings, ticks: int, env: IconEnv): (es: seq<Effect>)
    ensures !HasDevices(settings) ==> es == []
    ensures HasDevices(settings) ==>
      var b := DialBrightness(settings, ticks);
      var saved := settings.(brightness := Some(b));
      && |es| > 0 && es[0] == SetSettings(saved)
      && Calls(es) == BrightnessCalls(settings.devices.value, b)
      && Titles(es) == [Percent(Brightness(saved))]
      && es == [SetSettings(saved)] + CallEffects(Calls(es)) + UpdateButtonState(saved, env)
  {
    if !HasDevices(settings) then []
    else
      var b := DialBrightness(settings, ticks);
      var saved := settings.(brightness := Some(b));
      var rest := ApplyBrightness(saved, b, env);
      PrependQuiet(SetSettings(saved), rest);
      [SetSettings(saved)] + rest
  }

  /** A dial turn never sends a brightness outside 0..100, and it sends
      what it saves. */
  lemma DialSendsWhatItSaves(settings: ActionSettings, ticks: int, env: IconEnv, i: int)
    requires HasDevices(settings)
    requires 0 <= i < |LightDevices(settings.devices.value)|
    ensures var c := Calls(OnDialRotate(settings, ticks, env))[i];
      && c.SetLightCall?
      && 0 <= c.brightness <= 100
      && Some(c.brightness) == OnDialRotate(settings, ticks, env)[0].settings.brightness
  {
  }

  /** Turning the dial down to 0 sends brightness 0 to the lights, but the
      title then reads "50%": a stored 0 is falsy and shows the default. */
  lemma DialToZeroShowsDefault(settings: ActionSettings, ticks: int, env: IconEnv)
    requires HasDevices(settings) && Brightness(settings) + DialStep * ticks <= 0
    ensures var es := OnDialRotate(settings, ticks, env);
      && es[0].settings.brightness == Some(0)
      && Titles(es) == ["50%"]
  {
    DefaultPercents();
  }

  /** Turning the dial up past 100 stops at 100: 100 is saved, sent to every
      light and shown. */
  lemma DialPastFullSendsFull(settings: ActionSettings, ticks: int, env: IconEnv, i: int)
    requires HasDevices(settings) && Brightness(settings) + DialStep * ticks > 100
    requires 0 <= i < |LightDevices(settings.devices.value)|
    ensures var es := OnDialRotate(settings, ticks, env);
      && es[0].settings.brightness == Some(100)
      && Calls(es)[i].brightness == 100
      && Titles(es) == ["100%"]
  {
    DefaultPercents();
  }

  /** A key press sends the stored brightness unclamped: a stored 150 goes
      to the lights as 150. */
  lemma KeyDownDoesNotClamp(settings: ActionSettings, env: IconEnv)
    requires HasDevices(settings) && settings.brightness == Some(150)
    requires |LightDevices(settings.devices.value)| > 0
    ensures Calls(OnKeyDown(settings, env))[0].brightness == 150
  {
  }
}
