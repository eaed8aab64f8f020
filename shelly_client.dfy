/** The device RPC client (src/lib/shelly-client.ts). It keeps no state: each
    operation builds the HTTP request(s) for an intent and folds the device's
    answer, or the failure to get one, into a `None`/`false` sentinel. The
    network is an input: each operation receives the `Response` its request
    got, and returns the requests it sent together with its result. */
module ShellyClient {
  import opened Types
  import opened Text

  datatype HttpMethod = Get | Post

  /** The JSON values the client ever sends. */
  datatype Json = JNum(n: int) | JBool(b: bool)

  /** A JSON object, keys in insertion order (the order JSON.stringify keeps). */
  type JsonObject = seq<(string, Json)>

  datatype Request = Request(verb: HttpMethod, url: string, body: Option<JsonObject>)

  /** What a fetch came to: the fetch rejected (`NetworkError`), or the device
      answered with an HTTP status whose `ok` flag is given and with a body that
      decoded to a `T` (`Some`) or did not decode, or was JSON `null` (`None`). */
  datatype Response<T> = NetworkError | Reply(ok: bool, body: Option<T>) {
    predicate IsOk() {
      Reply? && ok
    }
  }

  /** The part of the Switch.Set reply the client reads: its `output` field,
      `None` when missing or not a boolean. */
  datatype SwitchReply = SwitchReply(output: Option<bool>)

  /** The requests an operation sent, in order, and what it returned. */
  datatype Exchange<T> = Exchange(sent: seq<Request>, result: T)

  /** The client calls the button actions make, by name and arguments. */
  datatype ClientCall =
    | GetStatusCall(ip: string, component: ComponentType, id: int)
    | SetSwitchCall(ip: string, id: int, on: bool)
    | ToggleSwitchCall(ip: string, id: int)
    | SetLightCall(ip: string, id: int, brightness: int, power: Option<bool>)
    | SetRGBWCall(ip: string, id: int, color: RGBWColor)
    | ToggleLightCall(ip: string, id: int)

  /** The value stored under `key`, if any. */
  function Lookup(obj: JsonObject, key: string): Option<Json> {
    if |obj| == 0 then None
    else if obj[0].0 == key then Some(obj[0].1)
    else Lookup(obj[1..], key)
  }

  /** No key occurs twice: the object is what a JavaScript literal builds. */
  predicate DistinctKeys(obj: JsonObject) {
    forall i, j :: 0 <= i < j < |obj| ==> obj[i].0 != obj[j].0
  }

  /** In an object with distinct keys, every entry is found under its key. */
  lemma {:induction false} LookupEntry(obj: JsonObject, i: int)
    requires DistinctKeys(obj) && 0 <= i < |obj|
    ensures Lookup(obj, obj[i].0) == Some(obj[i].1)
  {
    if i > 0 {
      assert obj[0].0 != obj[i].0;
      assert obj[1..][i - 1] == obj[i];
      LookupEntry(obj[1..], i - 1);
    }
  }

  /** A key no entry carries is not found. */
  lemma {:induction false} LookupMissing(obj: JsonObject, key: string)
    requires forall i :: 0 <= i < |obj| ==> obj[i].0 != key
    ensures Lookup(obj, key) == None
  {
    if |obj| > 0 {
      LookupMissing(obj[1..], key);
    }
  }

  function BaseUrl(ip: string): string {
    "http://" + ip + "/rpc"
  }

  function ComponentName(c: ComponentType): string {
    if c == Switch then "Switch" else "Light"
  }

  /** `Math.max(lo, Math.min(hi, v))`. */
  function Clamp(lo: int, hi: int, v: int): (r: int)
    requires lo <= hi
    ensures lo <= r <= hi
    ensures lo <= v <= hi ==> r == v
    ensures v < lo ==> r == lo
    ensures v > hi ==> r == hi
  {
    if v < lo then lo else if v > hi then hi else v
  }

  /** Clamping twice is clamping once. */
  lemma ClampIdempotent(lo: int, hi: int, v: int)
    requires lo <= hi
    ensures Clamp(lo, hi, Clamp(lo, hi, v)) == Clamp(lo, hi, v)
  {
  }

  // ---------------------------------------------------------------- getStatus

  function StatusRequest(ip: string, c: ComponentType, id: int): (r: Request)
    ensures r.verb == Get && r.body == None
    ensures r.url == "http://" + ip + "/rpc/" + ComponentName(c) + ".GetStatus?id=" + IntToString(id)
    ensures StartsWith(r.url, BaseUrl(ip))
  {
    PrefixOfAppend(BaseUrl(ip), "/" + ComponentName(c) + ".GetStatus?id=" + IntToString(id));
    Request(Get, BaseUrl(ip) + "/" + ComponentName(c) + ".GetStatus?id=" + IntToString(id), None)
  }

  /** A status read on one device never confuses two components: the URL
      determines the component kind and the id. */
  lemma StatusRequestInjective(ip: string, c1: ComponentType, id1: int, c2: ComponentType, id2: int)
    requires StatusRequest(ip, c1, id1) == StatusRequest(ip, c2, id2)
    ensures c1 == c2 && id1 == id2
  {
    var prefix := "http://" + ip + "/rpc/";
    var u1 := StatusRequest(ip, c1, id1).url;
    var u2 := StatusRequest(ip, c2, id2).url;
    assert u1[|prefix|] == ComponentName(c1)[0];
    assert u2[|prefix|] == ComponentName(c2)[0];
    assert c1 == c2;
    var head := prefix + ComponentName(c1) + ".GetStatus?id=";
    assert u1 == head + IntToString(id1);
    assert u2 == head + IntToString(id2);
    assert IntToString(id1) == u1[|head|..] == u2[|head|..] == IntToString(id2);
    IntToStringInjective(id1, id2);
  }

  /** getStatus: the decoded body when the reply is ok and decodes, else None. */
  function GetStatus(ip: string, c: ComponentType, id: int, resp: Response<ShellyStatus>): (x: Exchange<Option<ShellyStatus>>)
    ensures x.sent == [StatusRequest(ip, c, id)]
    ensures x.result.Some? <==> resp.IsOk() && resp.body.Some?
    ensures x.result.Some? ==> x.result == resp.body
  {
    var result := if resp.IsOk() then resp.body else None;
    Exchange([StatusRequest(ip, c, id)], result)
  }

  // ---------------------------------------------------------------- setSwitch

  function SwitchSetBody(id: int, on: bool): JsonObject {
    [("id", JNum(id)), ("on", JBool(on))]
  }

  function SwitchSetRequest(ip: string, id: int, on: bool): (r: Request)
    ensures r.verb == Post && r.url == "http://" + ip + "/rpc/Switch.Set"
    ensures r.body.Some? && DistinctKeys(r.body.value) && |r.body.value| == 2
    ensures Lookup(r.body.value, "id") == Some(JNum(id))
    ensures Lookup(r.body.value, "on") == Some(JBool(on))
    ensures StartsWith(r.url, BaseUrl(ip))
  {
    PrefixOfAppend(BaseUrl(ip), "/Switch.Set");
    var body := SwitchSetBody(id, on);
    LookupEntry(body, 0);
    LookupEntry(body, 1);
    Request(Post, BaseUrl(ip) + "/Switch.Set", Some(body))
  }

  /** setSwitch succeeds only when the device echoes the requested state. */
  function SetSwitch(ip: string, id: int, on: bool, resp: Response<SwitchReply>): (x: Exchange<bool>)
    ensures x.sent == [SwitchSetRequest(ip, id, on)]
    ensures x.result <==> resp.IsOk() && resp.body == Some(SwitchReply(Some(on)))
  {
    var confirmed := resp.IsOk() && resp.body.Some? && resp.body.value.output == Some(on);
    Exchange([SwitchSetRequest(ip, id, on)], confirmed)
  }

  // ------------------------------------------------------------- toggleSwitch

  /** toggleSwitch: read the switch, then set it to the opposite state. */
  function ToggleSwitch(ip: string, id: int, statusResp: Response<ShellyStatus>, setResp: Response<SwitchReply>): (x: Exchange<bool>)
    ensures |x.sent| >= 1 && x.sent[0] == StatusRequest(ip, Switch, id)
    ensures GetStatus(ip, Switch, id, statusResp).result.None? ==> x.sent == [StatusRequest(ip, Switch, id)] && !x.result
    ensures GetStatus(ip, Switch, id, statusResp).result.Some? ==>
              var s := GetStatus(ip, Switch, id, statusResp).result.value;
              x.sent == [StatusRequest(ip, Switch, id), SwitchSetRequest(ip, id, !s.output)] &&
              x.result == SetSwitch(ip, id, !s.output, setResp).result
  {
    var read := GetStatus(ip, Switch, id, statusResp);
    match read.result
    case None => Exchange(read.sent, false)
    case Some(s) =>
      var write := SetSwitch(ip, id, !s.output, setResp);
      Exchange(read.sent + write.sent, write.result)
  }

  /** A successful toggleSwitch read a status and the device then confirmed the
      opposite of the output it had read. */
  lemma ToggleSwitchInverts(ip: string, id: int, statusResp: Response<ShellyStatus>, setResp: Response<SwitchReply>)
    requires ToggleSwitch(ip, id, statusResp, setResp).result
    ensures statusResp.IsOk() && statusResp.body.Some?
    ensures setResp.IsOk() && setResp.body == Some(SwitchReply(Some(!statusResp.body.value.output)))
    ensures |ToggleSwitch(ip, id, statusResp, setResp).sent| == 2
  {
    var read := GetStatus(ip, Switch, id, statusResp);
    assert read.result.Some?;
  }

  // ----------------------------------------------------------------- setLight

  function LightSetBody(id: int, brightness: int, on: Option<bool>): JsonObject {
    [("id", JNum(id)), ("brightness", JNum(brightness))] + (if on.Some? then [("on", JBool(on.value))] else [])
  }

  function LightSetRequest(ip: string, id: int, brightness: int, on: Option<bool>): (r: Request)
    ensures r.verb == Post && r.url == "http://" + ip + "/rpc/Light.Set"
    ensures r.body.Some? && DistinctKeys(r.body.value)
    ensures Lookup(r.body.value, "id") == Some(JNum(id))
    ensures Lookup(r.body.value, "brightness") == Some(JNum(brightness))
    ensures Lookup(r.body.value, "on").Some? <==> on.Some?
    ensures on.Some? ==> Lookup(r.body.value, "on") == Some(JBool(on.value))
    ensures |r.body.value| == if on.Some? then 3 else 2
    ensures StartsWith(r.url, BaseUrl(ip))
  {
    PrefixOfAppend(BaseUrl(ip), "/Light.Set");
    var body := LightSetBody(id, brightness, on);
    LookupEntry(body, 0);
    LookupEntry(body, 1);
    assert on.Some? ==> Lookup(body, "on") == Some(JBool(on.value)) by {
      if on.Some? { LookupEntry(body, 2); }
    }
    assert on.None? ==> Lookup(body, "on") == None by {
      if on.None? { LookupMissing(body, "on"); }
    }
    Request(Post, BaseUrl(ip) + "/Light.Set", Some(body))
  }

  /** setLight: success is the reply's `ok` flag; the body is not read. */
  function SetLight(ip: string, id: int, brightness: int, on: Option<bool>, resp: Response<()>): (x: Exchange<bool>)
    ensures x.sent == [LightSetRequest(ip, id, brightness, on)]
    ensures x.result <==> resp.IsOk()
  {
    Exchange([LightSetRequest(ip, id, brightness, on)], resp.IsOk())
  }

  // ------------------------------------------------------------------ setRGBW

  function RGBWBody(id: int, red: int, green: int, blue: int, white: int, brightness: Option<int>): JsonObject {
    [("id", JNum(id)),
     ("red", JNum(Clamp(0, 255, red))),
     ("green", JNum(Clamp(0, 255, green))),
     ("blue", JNum(Clamp(0, 255, blue))),
     ("white", JNum(Clamp(0, 255, white)))]
    + (if brightness.Some? then [("brightness", JNum(Clamp(0, 100, brightness.value)))] else [])
  }

  /** A channel value as sent: within 0..255. */
  predicate SentChannel(obj: JsonObject, key: string) {
    Lookup(obj, key).Some? && Lookup(obj, key).value.JNum? && 0 <= Lookup(obj, key).value.n <= 255
  }

  /** The fields of an RGBW body, each found under its own key. */
  lemma RGBWBodyFields(id: int, red: int, green: int, blue: int, white: int, brightness: Option<int>)
    ensures var body := RGBWBody(id, red, green, blue, white, brightness);
      && DistinctKeys(body)
      && Lookup(body, "id") == Some(JNum(id))
      && Lookup(body, "red") == Some(JNum(Clamp(0, 255, red)))
      && Lookup(body, "green") == Some(JNum(Clamp(0, 255, green)))
      && Lookup(body, "blue") == Some(JNum(Clamp(0, 255, blue)))
      && Lookup(body, "white") == Some(JNum(Clamp(0, 255, white)))
      && (brightness.Some? ==> Lookup(body, "brightness") == Some(JNum(Clamp(0, 100, brightness.value))))
      && (brightness.None? ==> Lookup(body, "brightness") == None)
      && Lookup(body, "on") == None
  {
    var body := RGBWBody(id, red, green, blue, white, brightness);
    LookupEntry(body, 0);
    LookupEntry(body, 1);
    LookupEntry(body, 2);
    LookupEntry(body, 3);
    LookupEntry(body, 4);
    LookupMissing(body, "on");
    assert brightness.Some? ==> Lookup(body, "brightness") == Some(JNum(Clamp(0, 100, brightness.value))) by {
      if brightness.Some? { LookupEntry(body, 5); }
    }
    assert brightness.None? ==> Lookup(body, "brightness") == None by {
      if brightness.None? { LookupMissing(body, "brightness"); }
    }
  }

  function RGBWRequest(ip: string, id: int, red: int, green: int, blue: int, white: int, brightness: Option<int>): (r: Request)
    ensures r.verb == Post && r.url == "http://" + ip + "/rpc/Light.Set"
    ensures r.body.Some? && DistinctKeys(r.body.value)
    ensures Lookup(r.body.value, "id") == Some(JNum(id))
    ensures Lookup(r.body.value, "red") == Some(JNum(Clamp(0, 255, red)))
    ensures Lookup(r.body.value, "green") == Some(JNum(Clamp(0, 255, green)))
    ensures Lookup(r.body.value, "blue") == Some(JNum(Clamp(0, 255, blue)))
    ensures Lookup(r.body.value, "white") == Some(JNum(Clamp(0, 255, white)))
    ensures Lookup(r.body.value, "brightness").Some? <==> brightness.Some?
    ensures brightness.Some? ==> Lookup(r.body.value, "brightness") == Some(JNum(Clamp(0, 100, brightness.value)))
    ensures Lookup(r.body.value, "on") == None
    ensures StartsWith(r.url, BaseUrl(ip))
  {
    PrefixOfAppend(BaseUrl(ip), "/Light.Set");
    var body := RGBWBody(id, red, green, blue, white, brightness);
    RGBWBodyFields(id, red, green, blue, white, brightness);
    Request(Post, BaseUrl(ip) + "/Light.Set", Some(body))
  }

  /** Every channel the RGBW request carries is within 0..255 and a carried
      brightness within 0..100, whatever the caller passed; in-range
      arguments are sent unchanged. */
  lemma RGBWRequestInRange(ip: string, id: int, red: int, green: int, blue: int, white: int, brightness: Option<int>)
    ensures var body := RGBWRequest(ip, id, red, green, blue, white, brightness).body.value;
      SentChannel(body, "red") && SentChannel(body, "green") && SentChannel(body, "blue") && SentChannel(body, "white")
    ensures var body := RGBWRequest(ip, id, red, green, blue, white, brightness).body.value;
      Lookup(body, "brightness").Some? ==> 0 <= Lookup(body, "brightness").value.n <= 100
    ensures 0 <= red <= 255 && 0 <= green <= 255 && 0 <= blue <= 255 && 0 <= white <= 255 &&
            (brightness.Some? ==> 0 <= brightness.value <= 100) ==>
            RGBWRequest(ip, id, red, green, blue, white, brightness) ==
            Request(Post, BaseUrl(ip) + "/Light.Set",
                    Some([("id", JNum(id)), ("red", JNum(red)), ("green", JNum(green)), ("blue", JNum(blue)), ("white", JNum(white))]
                         + (if brightness.Some? then [("brightness", JNum(brightness.value))] else [])))
  {
  }

  /** setRGBW: success is the reply's `ok` flag. */
  function SetRGBW(ip: string, id: int, red: int, green: int, blue: int, white: int, brightness: Option<int>, resp: Response<()>): (x: Exchange<bool>)
    ensures x.sent == [RGBWRequest(ip, id, red, green, blue, white, brightness)]
    ensures x.result <==> resp.IsOk()
  {
    Exchange([RGBWRequest(ip, id, red, green, blue, white, brightness)], resp.IsOk())
  }

  // -------------------------------------------------------------- toggleLight

  /** toggleLight: read the light, then switch it to the opposite state at its
      last brightness, or 100 when the status carried none (or 0). */
  function ToggleLight(ip: string, id: int, statusResp: Response<ShellyStatus>, setResp: Response<()>): (x: Exchange<bool>)
    ensures |x.sent| >= 1 && x.sent[0] == StatusRequest(ip, Light, id)
    ensures GetStatus(ip, Light, id, statusResp).result.None? ==> x.sent == [StatusRequest(ip, Light, id)] && !x.result
    ensures GetStatus(ip, Light, id, statusResp).result.Some? ==>
              var s := GetStatus(ip, Light, id, statusResp).result.value;
              x.sent == [StatusRequest(ip, Light, id), LightSetRequest(ip, id, OrNumber(s.brightness, 100), Some(!s.output))] &&
              x.result == setResp.IsOk()
  {
    var read := GetStatus(ip, Light, id, statusResp);
    match read.result
    case None => Exchange(read.sent, false)
    case Some(s) =>
      var write := SetLight(ip, id, OrNumber(s.brightness, 100), Some(!s.output), setResp);
      Exchange(read.sent + write.sent, write.result)
  }

  /** A light toggle never sends brightness 0: a missing or zero brightness in
      the status becomes 100, and it always says which way to switch. */
  lemma ToggleLightSendsNonZeroBrightness(ip: string, id: int, statusResp: Response<ShellyStatus>, setResp: Response<()>)
    requires |ToggleLight(ip, id, statusResp, setResp).sent| == 2
    ensures var body := ToggleLight(ip, id, statusResp, setResp).sent[1].body.value;
      Lookup(body, "brightness").Some? && Lookup(body, "brightness").value != JNum(0) &&
      Lookup(body, "on") == Some(JBool(!statusResp.body.value.output))
    ensures statusResp.body.value.brightness.None? ==>
      Lookup(ToggleLight(ip, id, statusResp, setResp).sent[1].body.value, "brightness") == Some(JNum(100))
  {
    assert GetStatus(ip, Light, id, statusResp).result.Some?;
  }

  // ------------------------------------------------------------ calls by name

  /** The component a call addresses. */
  function CallComponent(c: ClientCall): ComponentType {
    match c
    case GetStatusCall(_, component, _) => component
    case SetSwitchCall(_, _, _) => Switch
    case ToggleSwitchCall(_, _) => Switch
    case SetLightCall(_, _, _, _) => Light
    case SetRGBWCall(_, _, _) => Light
    case ToggleLightCall(_, _) => Light
  }

  /** The first request a call sends: the write itself for the set calls,
      the status read for getStatus and for both toggles. */
  function FirstRequest(c: ClientCall): (r: Request)
    ensures StartsWith(r.url, BaseUrl(c.ip))
    ensures (c.GetStatusCall? || c.ToggleSwitchCall? || c.ToggleLightCall?) <==> r.verb == Get
  {
    match c
    case GetStatusCall(ip, component, id) => StatusRequest(ip, component, id)
    case SetSwitchCall(ip, id, on) => SwitchSetRequest(ip, id, on)
    case ToggleSwitchCall(ip, id) => StatusRequest(ip, Switch, id)
    case SetLightCall(ip, id, brightness, power) => LightSetRequest(ip, id, brightness, power)
    case SetRGBWCall(ip, id, color) => RGBWRequest(ip, id, color.red, color.green, color.blue, color.white, color.brightness)
    case ToggleLightCall(ip, id) => StatusRequest(ip, Light, id)
  }

  /** A colour write whose brightness is in range sends that brightness as
      it is and leaves the on/off state alone. */
  lemma RGBWCallSendsBrightness(ip: string, id: int, color: RGBWColor)
    requires color.brightness.Some? && 0 <= color.brightness.value <= 100
    ensures var r := FirstRequest(SetRGBWCall(ip, id, color));
      && r.body.Some?
      && Lookup(r.body.value, "brightness") == Some(JNum(color.brightness.value))
      && Lookup(r.body.value, "on") == None
  {
    var r := RGBWRequest(ip, id, color.red, color.green, color.blue, color.white, color.brightness);
    assert FirstRequest(SetRGBWCall(ip, id, color)) == r;
  }
}
