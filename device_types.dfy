/** Device-type resolution (src/lib/device-types.ts): which component a
    configured device type is driven through, and the classification of the
    model string a device reports. */
module DeviceTypes {
  import opened Types
  import opened Text
  import opened ShellyClient

  const ShellyPlus1Tag: string := "shelly-plus-1"
  const ShellyPlusRgbwPmTag: string := "shelly-plus-rgbw-pm"

  datatype DeviceType = ShellyPlus1 | ShellyPlusRgbwPm

  function Tag(t: DeviceType): string {
    match t
    case ShellyPlus1 => ShellyPlus1Tag
    case ShellyPlusRgbwPm => ShellyPlusRgbwPmTag
  }

  /** The component an action addresses on a device. */
  datatype Component = Component(kind: ComponentType, id: int)

  /** getDefaultComponent: only the RGBW PM tag is driven as a light; the
      Plus 1 tag, any other tag and a missing tag are driven as a switch. The
      id is the configured component id, 0 when none is configured. */
  function GetDefaultComponent(deviceType: Option<string>, componentId: Option<int>): (c: Component)
    ensures c.kind == Light <==> deviceType == Some(ShellyPlusRgbwPmTag)
    ensures c.id == componentId.GetOr(0)
  {
    var id := componentId.GetOr(0);
    if deviceType == Some(ShellyPlus1Tag) then Component(Switch, id)
    else if deviceType == Some(ShellyPlusRgbwPmTag) then Component(Light, id)
    else Component(Switch, id)
  }

  /** The component of a configured device, as the actions resolve it. */
  function ComponentOf(d: DeviceConfig): Component {
    GetDefaultComponent(d.deviceType, d.componentId)
  }

  /** The status read an action makes of a device: its default component. */
  function StatusCallOf(d: DeviceConfig): (c: ClientCall)
    ensures c.GetStatusCall? && c.ip == d.ip && c.component == ComponentOf(d).kind && c.id == ComponentOf(d).id
  {
    GetStatusCall(d.ip, ComponentOf(d).kind, ComponentOf(d).id)
  }

  predicate IsLight(d: DeviceConfig) {
    ComponentOf(d).kind == Light
  }

  /** The configured devices the actions drive as lights, in order. */
  function LightDevices(ds: seq<DeviceConfig>): (ls: seq<DeviceConfig>)
    ensures |ls| <= |ds|
    ensures forall d :: d in ls <==> d in ds && IsLight(d)
  {
    if |ds| == 0 then []
    else (if IsLight(ds[0]) then [ds[0]] else []) + LightDevices(ds[1..])
  }

  /** A single device is kept exactly when it is driven as a light. */
  lemma LightDevicesSingle(d: DeviceConfig)
    ensures LightDevices([d]) == if IsLight(d) then [d] else []
  {
    assert [d][1..] == [];
  }

  /** Filtering a concatenation filters each part and keeps their order, so
      every occurrence of a light, repeats included, keeps its place. */
  lemma {:induction false} LightDevicesAppend(a: seq<DeviceConfig>, b: seq<DeviceConfig>)
    ensures LightDevices(a + b) == LightDevices(a) + LightDevices(b)
    decreases |a|
  {
    if |a| == 0 {
      assert a + b == b;
    } else {
      assert (a + b)[0] == a[0];
      assert (a + b)[1..] == a[1..] + b;
      LightDevicesAppend(a[1..], b);
    }
  }

  /** The lights kept are counted with their multiplicity: a light listed
      twice is written to twice, a switch is not written to at all. */
  lemma {:induction false} LightDevicesCount(ds: seq<DeviceConfig>, d: DeviceConfig)
    ensures multiset(LightDevices(ds))[d] == if IsLight(d) then multiset(ds)[d] else 0
    decreases |ds|
  {
    if |ds| > 0 {
      assert ds == [ds[0]] + ds[1..];
      LightDevicesCount(ds[1..], d);
    }
  }

  /** A device whose type was detected is driven through the matching
      component: a Plus 1 as a switch, an RGBW PM as a light. */
  lemma DetectedTypeComponent(t: DeviceType, componentId: Option<int>)
    ensures GetDefaultComponent(Some(Tag(t)), componentId).kind == (if t == ShellyPlus1 then Switch else Light)
  {
  }

  /** The part of Shelly.GetDeviceInfo the detection reads: `model`, `None`
      when missing or empty. */
  datatype DeviceInfo = DeviceInfo(model: Option<string>)

  function DeviceInfoRequest(ip: string): (r: Request)
    ensures r.verb == Get && r.body == None && r.url == "http://" + ip + "/rpc/Shelly.GetDeviceInfo"
  {
    Request(Get, BaseUrl(ip) + "/Shelly.GetDeviceInfo", None)
  }

  /** The model-string classification: "Plus1" is looked for first, then
      "PlusRGBWPM"; anything else is unknown. */
  function ClassifyModel(model: string): (t: Option<DeviceType>)
    ensures t == Some(ShellyPlus1) <==> exists i :: OccursAt(model, "Plus1", i)
    ensures t == Some(ShellyPlusRgbwPm) <==>
              (!exists i :: OccursAt(model, "Plus1", i)) && (exists i :: OccursAt(model, "PlusRGBWPM", i))
  {
    ContainsIff(model, "Plus1");
    ContainsIff(model, "PlusRGBWPM");
    if Contains(model, "Plus1") then Some(ShellyPlus1)
    else if Contains(model, "PlusRGBWPM") then Some(ShellyPlusRgbwPm)
    else None
  }

  /** detectDeviceType: the reply's `ok` flag is not consulted; a failed
      fetch or an undecodable body gives None, a missing model classifies as
      the empty string. */
  function DetectDeviceType(ip: string, resp: Response<DeviceInfo>): (x: Exchange<Option<DeviceType>>)
    ensures x.sent == [DeviceInfoRequest(ip)]
    ensures resp.NetworkError? || resp.body.None? ==> x.result == None
    ensures resp.Reply? && resp.body.Some? ==> x.result == ClassifyModel(resp.body.value.model.GetOr(""))
    ensures resp.Reply? && resp.body.Some? && resp.body.value.model.None? ==> x.result == None
  {
    var result :=
      match resp
      case NetworkError => None
      case Reply(_, body) => if body.None? then None else ClassifyModel(body.value.model.GetOr(""));
    assert ClassifyModel("") == None by {
      ContainsIff("", "Plus1");
      ContainsIff("", "PlusRGBWPM");
    }
    Exchange([DeviceInfoRequest(ip)], result)
  }
}
