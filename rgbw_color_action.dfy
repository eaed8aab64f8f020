/** The "RGBW" button (src/actions/rgbw-color-action.ts): a key press sends
    the stored colour, white at full brightness when none is stored, to every
    configured light; turning the dial moves the colour's brightness in steps
    of 5 within 0..100, saves it and sends the colour. Devices driven as
    switches are skipped. */
module RgbwColorAction {
  import opened Types
  import opened Text
  import opened ShellyClient
  import opened DeviceTypes
  import opened IconGenerator
  import opened Effects
  import opened IconHelper

  const DialStep: int := 5

  /** The colour used when none is stored: every channel full, brightness 100. */
  const DefaultColor: RGBWColor := RGBWColor(255, 255, 255, 255, Some(100))

  /** The stored colour, the default when there is none. */
  function ColorOf(settings: ActionSettings): RGBWColor {
    settings.rgbwColor.GetOr(DefaultColor)
  }

  /** `color.brightness || 100`. */
  function ColorBrightness(color: RGBWColor): int {
    OrNumber(color.brightness, 100)
  }

  /** setRGBWColor over the devices: one colour write per device driven as a
      light, in order; nothing for the others. */
  function ColorCalls(ds: seq<DeviceConfig>, color: RGBWColor): (cs: seq<ClientCall>)
    ensures |cs| == |LightDevices(ds)|
    ensures forall i :: 0 <= i < |cs| ==>
      var d := LightDevices(ds)[i];
      cs[i] == SetRGBWCall(d.ip, ComponentOf(d).id, color)
  {
    var ls := LightDevices(ds);
    seq(|ls|, i requires 0 <= i < |ls| => SetRGBWCall(ls[i].ip, ComponentOf(ls[i]).id, color))
  }

  /** The title: the colour's brightness as a percentage when a colour is
      stored, "RGBW" when none is, empty without devices. */
  function TitleOf(settings: ActionSettings): (t: string)
    ensures !HasDevices(settings) ==> t == ""
    ensures HasDevices(settings) && settings.rgbwColor.None? ==> t == "RGBW"
    ensures HasDevices(settings) && settings.rgbwColor.Some? ==> t == Percent(ColorBrightness(settings.rgbwColor.value))
  {
    if !HasDevices(settings) then ""
    else if settings.rgbwColor.Some? then Percent(ColorBrightness(settings.rgbwColor.value))
    else "RGBW"
  }

  /** updateButtonState: the title, then the coloured icon when devices are
      configured. */
  function UpdateButtonState(settings: ActionSettings, env: IconEnv): (es: seq<Effect>)
    ensures Calls(es) == []
    ensures Titles(es) == [TitleOf(settings)]
    ensures !HasDevices(settings) ==> es == [SetTitle("")]
    ensures HasDevices(settings) ==> es == [SetTitle(TitleOf(settings))] + UpdateButtonIcon(RgbwUuid, settings, None, env)
  {
    if !HasDevices(settings) then [SetTitle("")]
    else
      var title := SetTitle(TitleOf(settings));
      var icon := UpdateButtonIcon(RgbwUuid, settings, None, env);
      KeyImageOnlyQuiet(icon);
      CallsAppend([title], icon);
      TitlesAppend([title], icon);
      [title] + icon
  }

  /** The colour sent to every light, then the refresh of `settings`. */
  function ApplyColor(settings: ActionSettings, env: IconEnv): (es: seq<Effect>)
    requires HasDevices(settings) && settings.rgbwColor.Some?
    ensures Calls(es) == ColorCalls(settings.devices.value, settings.rgbwColor.value)
    ensures Titles(es) == [Percent(ColorBrightness(settings.rgbwColor.value))]
    ensures es == CallEffects(Calls(es)) + UpdateButtonState(settings, env)
  {
    var cs := ColorCalls(settings.devices.value, settings.rgbwColor.value);
    var refresh := UpdateButtonState(settings, env);
    CallsThenRefresh(cs, refresh);
    CallEffects(cs) + refresh
  }

  /** onKeyDown: an alert without devices; otherwise the stored colour, or
      the default written into the settings it then shows (but does not
      save), to every light. */
  function OnKeyDown(settings: ActionSettings, env: IconEnv): (es: seq<Effect>)
    ensures !HasDevices(settings) ==> es == [ShowAlert]
    ensures HasDevices(settings) ==>
      && Calls(es) == ColorCalls(settings.devices.value, ColorOf(settings))
      && Titles(es) == [Percent(ColorBrightness(ColorOf(settings)))]
      && es == CallEffects(Calls(es)) + UpdateButtonState(settings.(rgbwColor := Some(ColorOf(settings))), env)
    ensures forall i :: 0 <= i < |es| ==> !es[i].SetSettings?
  {
    if !HasDevices(settings) then [ShowAlert]
    else
      var es := ApplyColor(settings.(rgbwColor := Some(ColorOf(settings))), env);
      assert forall i :: 0 <= i < |es| ==> !es[i].SetSettings? by {
        NoSettingsSaved(settings.(rgbwColor := Some(ColorOf(settings))), env);
      }
      es
  }

  /** Refreshing and applying never saves settings. */
  lemma NoSettingsSaved(settings: ActionSettings, env: IconEnv)
    requires HasDevices(settings) && settings.rgbwColor.Some?
    ensures forall i :: 0 <= i < |ApplyColor(settings, env)| ==> !ApplyColor(settings, env)[i].SetSettings?
  {
    var cs := ColorCalls(settings.devices.value, settings.rgbwColor.value);
    var icon := UpdateButtonIcon(RgbwUuid, settings, None, env);
    assert ApplyColor(settings, env) == CallEffects(cs) + ([SetTitle(TitleOf(settings))] + icon);
  }

  /** A key press with no stored colour sends full white at brightness 100
      and shows "100%", not "RGBW". */
  lemma KeyDownDefaultsToWhite(settings: ActionSettings, env: IconEnv)
    requires HasDevices(settings) && settings.rgbwColor.None?
    ensures forall c :: c in Calls(OnKeyDown(settings, env)) ==> c.SetRGBWCall? && c.color == DefaultColor
    ensures Titles(OnKeyDown(settings, env)) == ["100%"]
  {
    DefaultPercents();
  }

  /** The colour a dial turn of `ticks` moves to: the stored (or default)
      colour with its brightness moved and kept within 0..100. */
  function DialColor(settings: ActionSettings, ticks: int): (c: RGBWColor)
    ensures c.brightness.Some? && 0 <= c.brightness.value <= 100
    ensures c == ColorOf(settings).(brightness := c.brightness)
    ensures 0 <= ColorBrightness(ColorOf(settings)) + DialStep * ticks <= 100 ==>
      c.brightness.value == ColorBrightness(ColorOf(settings)) + DialStep * ticks
    ensures ColorBrightness(ColorOf(settings)) + DialStep * ticks > 100 ==> c.brightness.value == 100
    ensures ColorBrightness(ColorOf(settings)) + DialStep * ticks < 0 ==> c.brightness.value == 0
  {
    var color := ColorOf(settings);
    color.(brightness := Some(Clamp(0, 100, ColorBrightness(color) + DialStep * ticks)))
  }

  /** onDialRotate: nothing without devices; otherwise the moved colour is
      saved in the settings, sent to every light and shown. */
  function OnDialRotate(settings: ActionSettings, ticks: int, env: IconEnv): (es: seq<Effect>)
    ensures !HasDevices(settings) ==> es == []
    ensures HasDevices(settings) ==>
      var color := DialColor(settings, ticks);
      var saved := settings.(rgbwColor := Some(color));
      && |es| > 0 && es[0] == SetSettings(saved)
      && Calls(es) == ColorCalls(settings.devices.value, color)
      && Titles(es) == [Percent(ColorBrightness(color))]
      && es == [SetSettings(saved)] + CallEffects(Calls(es)) + UpdateButtonState(saved, env)
  {
    if !HasDevices(settings) then []
    else
      var saved := settings.(rgbwColor := Some(DialColor(settings, ticks)));
      var rest := ApplyColor(saved, env);
      PrependQuiet(SetSettings(saved), rest);
      [SetSettings(saved)] + rest
  }

  /** What a dial turn sends a light is exactly what it saves: the request
      carries the saved brightness unchanged by the client's clamp, and
      leaves the on/off state alone. */
  lemma DialSendsWhatItSaves(settings: ActionSettings, ticks: int, env: IconEnv, i: int)
    requires HasDevices(settings)
    requires 0 <= i < |Calls(OnDialRotate(settings, ticks, env))|
    ensures var saved := DialColor(settings, ticks);
      var r := FirstRequest(Calls(OnDialRotate(settings, ticks, env))[i]);
      && OnDialRotate(settings, ticks, env)[0] == SetSettings(settings.(rgbwColor := Some(saved)))
      && r.body.Some?
      && Lookup(r.body.value, "brightness") == Some(JNum(saved.brightness.value))
      && Lookup(r.body.value, "on") == None
  {
    var color := DialColor(settings, ticks);
    var cs := ColorCalls(settings.devices.value, color);
    assert Calls(OnDialRotate(settings, ticks, env)) == cs;
    var d := LightDevices(settings.devices.value)[i];
    assert cs[i] == SetRGBWCall(d.ip, ComponentOf(d).id, color);
    RGBWCallSendsBrightness(d.ip, ComponentOf(d).id, color);
  }

  /** Turning the dial up past 100 stops at 100: the colour saved and sent
      to every light carries brightness 100, and the title reads "100%". */
  lemma DialPastFullSendsFull(settings: ActionSettings, ticks: int, env: IconEnv, i: int)
    requires HasDevices(settings) && ColorBrightness(ColorOf(settings)) + DialStep * ticks > 100
    requires 0 <= i < |LightDevices(settings.devices.value)|
    ensures var es := OnDialRotate(settings, ticks, env);
      && es[0].settings.rgbwColor.value.brightness == Some(100)
      && Lookup(FirstRequest(Calls(es)[i]).body.value, "brightness") == Some(JNum(100))
      && Titles(es) == ["100%"]
  {
    DialSendsWhatItSaves(settings, ticks, env, i);
    DefaultPercents();
  }

  /** Turning the dial down to 0 sends brightness 0, but the title then
      reads "100%": a stored 0 is falsy and shows the default. */
  lemma DialToZeroShowsDefault(settings: ActionSettings, ticks: int, env: IconEnv)
    requires HasDevices(settings) && ColorBrightness(ColorOf(settings)) + DialStep * ticks <= 0
    ensures var es := OnDialRotate(settings, ticks, env);
      && es[0].settings.rgbwColor.value.brightness == Some(0)
      && Titles(es) == ["100%"]
  {
    DefaultPercents();
  }
}
