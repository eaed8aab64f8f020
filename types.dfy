/** Value types shared by the device client, the poller and the button actions
    (the records of src/types.ts), and the JavaScript truthiness rules the
    source relies on when it writes `x || d` or `!x`. */
module Types {

  datatype Option<+T> = None | Some(value: T) {
    /** `x ?? d`: the value if present, the default if absent. */
    function GetOr(default: T): T {
      match this
      case Some(v) => v
      case None => default
    }
  }

  /** `x || d` for an optional JavaScript number: both `undefined` and `0` are
      falsy, so both give the default. */
  function OrNumber(x: Option<int>, d: int): (r: int)
    ensures x.Some? && x.value != 0 ==> r == x.value
    ensures (x.None? || x.value == 0) ==> r == d
  {
    if x.Some? && x.value != 0 then x.value else d
  }

  /** `!!s` for an optional JavaScript string: `undefined` and `''` are falsy. */
  predicate Truthy(s: Option<string>) {
    s.Some? && s.value != ""
  }

  /** The two kinds of component the device API addresses. */
  datatype ComponentType = Switch | Light

  /** One configured device of a button (DeviceConfig). */
  datatype DeviceConfig = DeviceConfig(
    ip: string,
    deviceType: Option<string>,
    componentId: Option<int>,
    componentType: Option<ComponentType>)

  /** A component's status as decoded from the device (ShellyStatus). */
  datatype ShellyStatus = ShellyStatus(
    id: int,
    source: string,
    output: bool,
    brightness: Option<int>,
    red: Option<int>,
    green: Option<int>,
    blue: Option<int>,
    white: Option<int>)

  /** The colour an RGBW button sends. */
  datatype RGBWColor = RGBWColor(red: int, green: int, blue: int, white: int, brightness: Option<int>)

  /** The per-button settings the actions read (ActionSettings). */
  datatype ActionSettings = ActionSettings(
    devices: Option<seq<DeviceConfig>>,
    brightness: Option<int>,
    rgbwColor: Option<RGBWColor>,
    pollingInterval: Option<int>,
    iconColor: Option<string>,
    backgroundColor: Option<string>)

  /** The negation of `!settings.devices || settings.devices.length === 0`. */
  predicate HasDevices(s: ActionSettings) {
    s.devices.Some? && |s.devices.value| > 0
  }

  /** The configured devices, the empty list when there are none. */
  function Devices(s: ActionSettings): seq<DeviceConfig> {
    if s.devices.Some? then s.devices.value else []
  }
}
