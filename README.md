# Shelly Stream Deck plugin — a Dafny model of its core

The plugin drives Shelly smart switches and RGBW lights from Stream Deck
buttons. This project models its core in Dafny:

- **Device RPC client.** `ShellyClient` builds the HTTP requests of the Gen2
  RPC API and folds each answer into a `None`/`false` sentinel. The network
  is an input: each operation receives the `Response` its request got.
- **Device types.** `DeviceTypes` resolves which component a configured
  device type is driven through. It also classifies the model string a
  device reports.
- **Status poller.** `Polling.StatusPoller` is a class whose maps from
  device key to timer handle and to callback are updated in place. Timer
  handles are fresh numbers, and a ghost set `live` holds the handles that
  are scheduled and not cleared. Every `clearInterval`, initial poll and
  `setInterval` is appended to a `log`.
- **Icons.** `IconGenerator` holds the `#rrggbb` parser, the action icon
  table, and the outcome of rendering a coloured icon. `IconHelper` holds
  the redraw of a button icon.
- **Button actions.** There are seven: On, Off, Toggle, Dimming, RGBW, Status
  and the fixed-device test light button. An action's response to an event
  is the sequence of `Effect`s it performs, in order: alert, title, state,
  image, settings saved, and device client calls. Device replies are
  parameters of the actions. The Status button and the test light button
  also change timer state, so they are classes whose methods update it.

Integers are unbounded. Where the source writes `x || d` on a number, the
model uses `OrNumber`: both `undefined` and `0` give the default.

## Model

| member | source | states |
|---|---|---|
| Types.OrNumber | src/actions/dimming-action.ts:27 | `x \|\| d` on an optional number gives the value when it is present and non-zero, and the default when it is absent or 0 |
| Text.IntToString | src/lib/shelly-client.ts:11 | `${i}` is non-empty, starts with a digit exactly for non-negative numbers and with '-' exactly for negative ones, and is all digits after the first character |
| Text.IntToStringInjective | src/lib/status-poller.ts:61 | two numbers that print alike are equal |
| Text.ContainsIff | src/lib/device-types.ts:12-14 | `includes` holds exactly when the substring occurs at some index |
| ShellyClient.Clamp | src/lib/shelly-client.ts:105-112 | `Math.max(lo, Math.min(hi, v))` lies in lo..hi; it is v inside the range, lo below it and hi above it |
| ShellyClient.ClampIdempotent | src/lib/shelly-client.ts:105-112 | clamping a clamped value changes nothing |
| ShellyClient.StatusRequest | src/lib/shelly-client.ts:4-11 | a bodiless GET of `http://<ip>/rpc/<Switch\|Light>.GetStatus?id=<id>` under the base URL |
| ShellyClient.StatusRequestInjective | src/lib/shelly-client.ts:10-11 | on one ip, equal status requests name the same component kind and id |
| ShellyClient.GetStatus | src/lib/shelly-client.ts:8-23 | sends exactly the status request; the result is present exactly for an ok reply whose body decoded, and is then that body |
| ShellyClient.SwitchSetRequest | src/lib/shelly-client.ts:25-36 | a POST to `Switch.Set` with a two-key body, distinct keys, `id` and `on` as given |
| ShellyClient.SetSwitch | src/lib/shelly-client.ts:25-48 | sends the Switch.Set request; true exactly when the reply is ok and its `output` equals the requested state |
| ShellyClient.ToggleSwitch | src/lib/shelly-client.ts:50-61 | reads first; after a failed read only the read was sent and the result is false; otherwise it writes the opposite of the read output and returns that write's result |
| ShellyClient.ToggleSwitchInverts | src/lib/shelly-client.ts:50-61 | a successful toggle made two requests, its read succeeded, and the device confirmed the opposite of the read output |
| ShellyClient.LightSetRequest | src/lib/shelly-client.ts:63-80 | a POST to `Light.Set` carrying `id` and `brightness` as given, and an `on` key exactly when one is passed |
| ShellyClient.SetLight | src/lib/shelly-client.ts:63-91 | sends the Light.Set request; true exactly when the reply is ok |
| ShellyClient.RGBWBodyFields | src/lib/shelly-client.ts:103-113 | the RGBW body has distinct keys and holds each clamped channel under its own key, a clamped brightness exactly when one is given, and no `on` |
| ShellyClient.RGBWRequest | src/lib/shelly-client.ts:93-121 | a POST to `Light.Set` whose channels are clamped to 0..255, with a brightness clamped to 0..100 present exactly when one is given, and no `on` key |
| ShellyClient.RGBWRequestInRange | src/lib/shelly-client.ts:103-113 | every channel sent lies in 0..255 and a brightness sent in 0..100; arguments already in range are sent unchanged |
| ShellyClient.SetRGBW | src/lib/shelly-client.ts:93-132 | sends the RGBW request; true exactly when the reply is ok |
| ShellyClient.ToggleLight | src/lib/shelly-client.ts:134-145 | reads first; after a failed read only the read was sent and the result is false; otherwise it sets the opposite output at `brightness \|\| 100` and returns the reply's ok flag |
| ShellyClient.ToggleLightSendsNonZeroBrightness | src/lib/shelly-client.ts:140 | the write of a light toggle never carries brightness 0 (a missing brightness becomes 100) and always says which way to switch |
| ShellyClient.FirstRequest | src/lib/shelly-client.ts:8-145 | the first request of each client call starts with the device's base URL, and it is a GET exactly for the status read and the two toggles |
| ShellyClient.RGBWCallSendsBrightness | src/lib/shelly-client.ts:111-113 | a colour write with a brightness in 0..100 sends that brightness as it is and no `on` key |
| DeviceTypes.GetDefaultComponent | src/lib/device-types.ts:22-29 | the component is a light exactly for the RGBW PM tag; the id is the configured id, 0 when none is configured |
| DeviceTypes.DetectedTypeComponent | src/lib/device-types.ts:22-29 | a detected Plus 1 is driven as a switch and a detected RGBW PM as a light |
| DeviceTypes.StatusCallOf | src/actions/toggle-action.ts:57-59 | an action's status read of a device addresses its ip and its default component |
| DeviceTypes.LightDevices | src/actions/dimming-action.ts:58-64 | the devices an action drives as lights: exactly the configured devices whose default component is a light |
| DeviceTypes.LightDevicesSingle | src/actions/dimming-action.ts:58-64 | a single device is kept exactly when it is driven as a light |
| DeviceTypes.LightDevicesAppend | src/actions/dimming-action.ts:28 | the lights of a concatenation are the lights of each part, in order |
| DeviceTypes.LightDevicesCount | src/actions/dimming-action.ts:28 | each light is kept as many times as it is configured, and no switch is kept |
| DeviceTypes.DeviceInfoRequest | src/lib/device-types.ts:8 | a bodiless GET of `http://<ip>/rpc/Shelly.GetDeviceInfo` |
| DeviceTypes.ClassifyModel | src/lib/device-types.ts:11-17 | the Plus 1 exactly when "Plus1" occurs in the model; the RGBW PM exactly when "PlusRGBWPM" occurs and "Plus1" does not |
| DeviceTypes.DetectDeviceType | src/lib/device-types.ts:6-20 | sends the device-info request; a failed fetch or an undecodable body gives None; a missing model gives None; otherwise the model is classified, whatever the reply's ok flag |
| Polling.DeviceKeyIgnoresTypes | src/lib/status-poller.ts:60-62 | the key of a device ignores its device type and component type |
| Polling.DeviceKeyInjective | src/lib/status-poller.ts:60-62 | for non-negative ids, two devices share a key exactly when they have the same ip and the same `componentId \|\| 0` |
| Polling.PollComponent | src/lib/status-poller.ts:30 | a poll reads the configured component type; without one it reads a switch exactly for the Plus 1 tag |
| Polling.PollerAndActionsDisagreeOnUnknownType | src/lib/status-poller.ts:30 | for an untyped device of unknown tag, the poller reads a light while the actions drive a switch |
| Polling.StatusPoller.constructor | src/lib/status-poller.ts:10-16 | a poller starts with no timers and no callbacks |
| Polling.StatusPoller.StopPolling | src/lib/status-poller.ts:44-52 | forgets the key's timer and callback; clears the key's timer, and only that timer, when there is one; other keys are untouched |
| Polling.StatusPoller.StartPolling | src/lib/status-poller.ts:18-42 | stops the key, stores the callback, polls once and schedules one fresh timer at `interval \|\| 5000`; the key then owns exactly that new timer, and the registry invariant holds |
| Polling.StatusPoller.StopAll | src/lib/status-poller.ts:54-58 | clears every stored timer and only clear events are appended to the log; the clears cover exactly the live timers, and both maps end empty |
| IconGenerator.PairValue | src/lib/icon-generator.ts:88-90 | `parseInt` of a two-digit hex pair is a byte |
| IconGenerator.HexToRgb | src/lib/icon-generator.ts:84-93 | a colour is returned exactly for the strings the case-insensitive `^#?` six-hex-digit pattern accepts; every channel is a byte |
| IconGenerator.HexRoundTrip | src/lib/icon-generator.ts:84-93 | every colour survives printing as `#rrggbb` and parsing back |
| IconGenerator.HexCanonical | src/lib/icon-generator.ts:85-91 | parsing then printing gives the input's digits in lower case after one '#': case and the optional '#' are all that parsing forgets |
| IconGenerator.HashOptional | src/lib/icon-generator.ts:85 | a colour parses the same with and without the leading '#' |
| IconGenerator.ActionIconPath | src/lib/icon-generator.ts:98-108 | the table's icon for the six action uuids, `imgs/icon.png` for any other |
| IconGenerator.ActionIconsDistinct | src/lib/icon-generator.ts:99-106 | the six actions have pairwise different icons, none of them the fallback |
| IconGenerator.PluginIconPath | src/lib/icon-generator.ts:22 | a leading `assets/` becomes `imgs/`; any other path is kept |
| IconGenerator.PluginIconPathIdempotent | src/lib/icon-generator.ts:22 | rewriting twice is rewriting once |
| IconGenerator.ActionIconPathUnchanged | src/lib/icon-generator.ts:22 | the rewrite leaves every action icon path alone |
| IconGenerator.TintOf | src/lib/icon-generator.ts:36-44 | a tint applies exactly for a non-empty colour, other than the spellings `#ffffff` and `#FFFFFF`, that parses; it is the parsed colour |
| IconGenerator.WhiteTintBySpelling | src/lib/icon-generator.ts:36 | `#ffffff` and `#FFFFFF` give no tint, but white spelled `ffffff` or `#FfFfFf` is applied as a white tint |
| IconGenerator.BackgroundOf | src/lib/icon-generator.ts:47-68 | a background applies exactly for a non-empty colour that parses; it is the parsed colour |
| IconGenerator.GenerateColoredIcon | src/lib/icon-generator.ts:12-79 | the original path when the rewritten file is missing or rendering fails; otherwise an image of the rewritten file with the tint and background that apply |
| IconGenerator.MalformedColoursIgnored | src/lib/icon-generator.ts:36-68 | colours that do not parse give the same icon as no colours |
| Effects.Percent | src/actions/dimming-action.ts:73 | `${n}%` ends in '%' and starts with a digit exactly for non-negative n |
| Effects.PercentInjective | src/actions/dimming-action.ts:73 | different numbers give different percentage titles |
| Effects.DefaultPercents | src/actions/dimming-action.ts:72-73 | the default titles read "50%" and "100%" |
| IconHelper.UpdateButtonIcon | src/lib/icon-helper.ts:11-56 | nothing without a colour, or for a toggle state with no icon; otherwise one image of the state icon (toggle) or the action icon (others), bound to the given state only on the toggle button |
| IconHelper.ToggleIconFollowsState | src/lib/icon-helper.ts:26-40 | with the files present, the toggle redraw shows the icon of the given state, never the other one, for that state |
| OnAction.TurnOnDevice | src/actions/on-action.ts:38-46 | the default component of the device is set on: a switch to true, a light to brightness 100 and on |
| OnAction.TurnOnSendsOn | src/actions/on-action.ts:38-46 | whatever the device kind, the POST sent carries `on: true` |
| OnAction.UpdateButtonState | src/actions/on-action.ts:48-56 | no client call; without devices exactly the empty title; with devices exactly the title "ON" and then the redraw of the On button's icon |
| OnAction.OnKeyDown | src/actions/on-action.ts:22-32 | an alert alone without devices; otherwise exactly one turn-on per device, in order, and then the refresh of `updateButtonState`, with no alert, state or settings save |
| OnAction.KeyDownOnlyTurnsOn | src/actions/on-action.ts:22-32 | every request a key press sends asks for the output on |
| OffAction.TurnOffDevice | src/actions/off-action.ts:36-44 | the default component of the device is set off: a switch to false, a light to brightness 0 and off |
| OffAction.TurnOffSendsOff | src/actions/off-action.ts:36-44 | whatever the device kind, the POST sent carries `on: false` |
| OffAction.UpdateButtonState | src/actions/off-action.ts:46-54 | no client call; without devices exactly the empty title; with devices exactly the title "OFF" and then the redraw of the Off button's icon |
| OffAction.OnKeyDown | src/actions/off-action.ts:20-30 | an alert alone without devices; otherwise exactly one turn-off per device, in order, and then the refresh of `updateButtonState`, with no alert, state or settings save |
| OffAction.KeyDownOnlyTurnsOff | src/actions/off-action.ts:20-30 | every request a key press sends asks for the output off |
| ToggleAction.ToggleDevice | src/actions/toggle-action.ts:38-46 | the toggle of the device's default component: a switch toggle or a light toggle on its ip and id |
| ToggleAction.StateOf | src/actions/toggle-action.ts:61-67 | state 1 exactly for a read output that is on, 0 otherwise (including a failed read) |
| ToggleAction.TitleOf | src/actions/toggle-action.ts:61-68 | "ON" exactly with state 1, "?" exactly for a failed read, "OFF" exactly for a read output that is off |
| ToggleAction.UpdateButtonState | src/actions/toggle-action.ts:48-71 | without devices exactly state 0, the empty title and the state-0 icon redraw, with no read; with devices exactly one read of the first device, then its state, then its title, then the Toggle icon redraw for that state |
| ToggleAction.StateMatchesTitle | src/actions/toggle-action.ts:61-64 | the state shown is 1 exactly when the title is "ON" |
| ToggleAction.OnKeyDown | src/actions/toggle-action.ts:22-32 | an alert alone without devices; otherwise exactly one toggle per device, in order, and then the refresh of `updateButtonState` (a read of the first device, its state, its title, its icon) |
| ToggleAction.KeyDownReadsWhatItToggled | src/actions/toggle-action.ts:22-32 | the refresh reads the same ip, component and id the first toggle addressed, with the same first request |
| DimmingAction.BrightnessCalls | src/actions/dimming-action.ts:58-64 | one Light.Set per device driven as a light, in order, switched on at the given brightness; none for switches |
| DimmingAction.BrightnessCallsTargetLights | src/actions/dimming-action.ts:58-64 | each call addresses a configured light, and its request carries the brightness and `on: true` |
| DimmingAction.UpdateButtonState | src/actions/dimming-action.ts:66-75 | no client call; without devices exactly the empty title; with devices exactly the title `(brightness \|\| 50)%` and then the redraw of the Dimming icon |
| DimmingAction.ApplyBrightness | src/actions/dimming-action.ts:49-51 | exactly the brightness write to every light and then the refresh of `updateButtonState` for the settings |
| DimmingAction.OnKeyDown | src/actions/dimming-action.ts:20-31 | an alert alone without devices; otherwise exactly the stored brightness (default 50) written to every light and then the refresh, with no alert or settings save |
| DimmingAction.DialBrightness | src/actions/dimming-action.ts:39-42 | the new brightness is the old one plus 5 per tick when that stays in 0..100, 100 when it goes above and 0 when it goes below |
| DimmingAction.OnDialRotate | src/actions/dimming-action.ts:33-52 | nothing without devices; otherwise exactly the save of the new brightness, then its write to every light, then the refresh of the saved settings |
| DimmingAction.DialSendsWhatItSaves | src/actions/dimming-action.ts:42-49 | every light set by a dial turn gets a brightness in 0..100, and it is the brightness saved |
| DimmingAction.DialToZeroShowsDefault | src/actions/dimming-action.ts:42-45 | turning down to 0 saves 0, but the title reads "50%" because a stored 0 is falsy |
| DimmingAction.DialPastFullSendsFull | src/actions/dimming-action.ts:40-51 | turning up past 100 saves 100, writes 100 to every light and shows "100%" |
| DimmingAction.KeyDownDoesNotClamp | src/actions/dimming-action.ts:27-28 | a stored brightness of 150 is sent to the lights as 150 |
| RgbwColorAction.ColorCalls | src/actions/rgbw-color-action.ts:63-77 | one colour write per device driven as a light, in order; none for switches |
| RgbwColorAction.TitleOf | src/actions/rgbw-color-action.ts:85-91 | empty without devices, "RGBW" without a colour, otherwise `(brightness \|\| 100)%` |
| RgbwColorAction.UpdateButtonState | src/actions/rgbw-color-action.ts:79-93 | no client call; without devices exactly the empty title; with devices exactly the title of the settings and then the redraw of the RGBW icon |
| RgbwColorAction.ApplyColor | src/actions/rgbw-color-action.ts:32-34 | exactly the colour write to every light and then the refresh of `updateButtonState`, whose title is the colour's percentage |
| RgbwColorAction.OnKeyDown | src/actions/rgbw-color-action.ts:20-35 | an alert alone without devices; otherwise exactly the stored colour, or full white at 100, written to every light and then the refresh of the settings holding that colour; settings are never saved |
| RgbwColorAction.NoSettingsSaved | src/actions/rgbw-color-action.ts:32-34 | applying a colour saves no settings |
| RgbwColorAction.KeyDownDefaultsToWhite | src/actions/rgbw-color-action.ts:27-34 | with no stored colour every write is full white at 100, and the title reads "100%", not "RGBW" |
| RgbwColorAction.DialColor | src/actions/rgbw-color-action.ts:43-51 | the colour keeps its channels; its brightness is the old one plus 5 per tick when that stays in 0..100, 100 when it goes above and 0 when it goes below |
| RgbwColorAction.OnDialRotate | src/actions/rgbw-color-action.ts:37-57 | nothing without devices; otherwise exactly the save of the moved colour, then its write to every light, then the refresh of the saved settings |
| RgbwColorAction.DialSendsWhatItSaves | src/actions/rgbw-color-action.ts:49-54 | each write of a dial turn carries the saved brightness unchanged by the client's clamp, and no `on` key |
| RgbwColorAction.DialToZeroShowsDefault | src/actions/rgbw-color-action.ts:48-51 | turning down to 0 saves brightness 0, but the title reads "100%" |
| RgbwColorAction.DialPastFullSendsFull | src/actions/rgbw-color-action.ts:47-56 | turning up past 100 saves brightness 100, sends brightness 100 to every light and shows "100%" |
| StatusAction.StatusTitle | src/actions/status-action.ts:76-91 | "?" exactly without a status, "OFF" exactly for an output off, "ON" exactly for an output on with no colour channel, `(brightness \|\| 0)%` for a coloured light that is on |
| StatusAction.UpdateButtonState | src/actions/status-action.ts:64-93 | an empty title alone without devices; otherwise exactly a read of the first device when no status is supplied (none when one is), then the title of the supplied or read status, then the redraw of the Status icon |
| StatusAction.PolledStatusShownWithoutRead | src/actions/status-action.ts:70-74 | a status handed over by the poller is shown with no read; a missing one triggers exactly one read |
| StatusAction.StopEventsClearOwned | src/actions/status-action.ts:49-51 | stopping a list of devices in turn only clears timers, and clears exactly the timers their keys own |
| StatusAction.StatusAction.constructor | src/actions/status-action.ts:11-18 | the polling interval starts at 5000 and the shared poller is kept |
| StatusAction.StatusAction.StopDevices | src/actions/status-action.ts:49-51 | the devices' keys lose their timers and callbacks; the clears are the ones stopping each device in turn makes; the poller invariant holds |
| StatusAction.StatusAction.StartPolling | src/actions/status-action.ts:43-62 | nothing without devices; otherwise every configured device stops, then the first is polled at this button's interval with its callback, and of the configured devices only the first one's key then has a timer |
| StatusAction.StatusAction.OnWillAppear | src/actions/status-action.ts:20-25 | the interval becomes `pollingInterval \|\| 5000`, polling restarts as startPolling states, and the button reads and shows the first device |
| StatusAction.StatusAction.OnDidReceiveSettings | src/actions/status-action.ts:36-41 | the same as appearing |
| StatusAction.StatusAction.OnWillDisappear | src/actions/status-action.ts:27-34 | every configured device stops polling; keys outside this button's devices keep their timers |
| TestGen1Light.TitleOf | src/actions/test-gen1-light-action.ts:117-124 | "ERR" exactly for a failed read, "ON"/"OFF" exactly for the read output |
| TestGen1Light.StatusCall | src/actions/test-gen1-light-action.ts:114 | the read addresses switch 0 at 192.168.77.4 |
| TestGen1Light.UpdateButtonState | src/actions/test-gen1-light-action.ts:111-133 | exactly one read of the fixed switch and then its title |
| TestGen1Light.OnKeyDown | src/actions/test-gen1-light-action.ts:45-63 | exactly a toggle of the fixed switch and then the refresh: a read of it and its title |
| TestGen1Light.KeyDownReadsToggledSwitch | src/actions/test-gen1-light-action.ts:65-75 | the key press reads back the switch it toggled, with the request the toggle starts with |
| TestGen1Light.PollTick | src/actions/test-gen1-light-action.ts:82-93 | a tick refreshes a button that is still visible and does nothing for one that is gone |
| TestGen1Light.TestGen1LightAction.constructor | src/actions/test-gen1-light-action.ts:14-20 | no button owns a timer at first |
| TestGen1Light.TestGen1LightAction.StopPolling | src/actions/test-gen1-light-action.ts:102-109 | the button's timer, if any, is cleared and forgotten; other buttons keep theirs |
| TestGen1Light.TestGen1LightAction.StartPolling | src/actions/test-gen1-light-action.ts:77-100 | the button's old timer is cleared, and one fresh timer every 5000 ms becomes the button's only timer |
| TestGen1Light.TestGen1LightAction.OnWillAppear | src/actions/test-gen1-light-action.ts:22-32 | the button reads and shows the switch, then owns one fresh timer; live timers grow by at most one |
| TestGen1Light.TestGen1LightAction.OnWillDisappear | src/actions/test-gen1-light-action.ts:34-43 | the button's timer is stopped and is no longer live |

## Left out

- HTTP and JSON: fetch, headers, status codes and JSON decoding are abstracted into `Response`. It carries an ok flag and a body that decoded to the record read, or did not decode. `null` fields, NaN and fractional numbers are not modelled. The client's console logging is not modelled.
- Asynchrony: `Promise.all` is modelled as issuing calls in device order. Interleavings of in-flight requests, and a poll callback racing with a key press, are not modelled.
- Timers: firing and the passage of time are not modelled. A timer is a fresh handle and an entry in a log. A tick of the test button is `PollTick`; a tick of the status poller repeats the `Poll` event its start logged.
- Callbacks: the status poller's callback is an identity (`CallbackId`). What the Status button's callback does is `StatusAction.UpdateButtonState` with the status it is handed.
- Settings: mutating the settings object is modelled by the changed settings value in a `SetSettings` effect. The RGBW key press shows the default colour without saving it, as the source does.
- Rendering: the sharp image pipeline is abstracted into a `DataUri` record of the source file, tint and background. `IconEnv` says which files exist and whether rendering succeeds. The 72-pixel resize and the base64 encoding are not modelled.
- Stream Deck SDK: `setImage` is assumed present on every action. The SDK calls are effects and cannot fail.
- Test light button: the 500 ms wait after a toggle is not modelled. Its catch paths (alert on key press, "ERR" on a throwing read) are unreachable, because the client methods never reject. The extra generation argument passed to `toggleSwitch` and `getStatus` is ignored, as JavaScript ignores extra arguments.
- Icon table: keys such as `constructor`, which an object literal inherits from its prototype, are not modelled; any unknown uuid gets the fallback icon.
- GetStatus: the default `id = 0` of `getStatus` is not modelled, so `ShellyClient.StatusRequest` and `ShellyClient.GetStatus` always take an id; every caller in the core passes one.
- Polling.DeviceKeyInjective: proved for non-negative component ids only; for negative ids two configs can collide on the key, and the model does not characterise those collisions.
- The build scripts under scripts/ and the plugin entry point src/plugin.ts are not part of this model.
