/** Coloured button icons (src/lib/icon-generator.ts): the default icon of
    each action, the `#rrggbb` colour parser, and the outcome of rendering an
    icon with an optional tint and background. The image pipeline itself is
    abstract: a rendered icon is described by the file it was drawn from and
    the colours applied to it. */
module IconGenerator {
  import opened Types
  import opened Text

  /** A colour with 8-bit channels, as hexToRgb returns it. */
  datatype Rgb = Rgb(r: int, g: int, b: int)

  predicate IsByte(n: int) {
    0 <= n < 256
  }

  predicate InRange(c: Rgb) {
    IsByte(c.r) && IsByte(c.g) && IsByte(c.b)
  }

  /** `[a-f\d]` under the case-insensitive flag. */
  predicate IsHexDigit(c: char) {
    ('0' <= c <= '9') || ('a' <= c <= 'f') || ('A' <= c <= 'F')
  }

  predicate AllHex(s: string) {
    forall i :: 0 <= i < |s| ==> IsHexDigit(s[i])
  }

  /** The strings `/^#?([a-f\d]{2})([a-f\d]{2})([a-f\d]{2})$/i` accepts:
      six hex digits, optionally after one '#'. */
  predicate IsHexColor(s: string) {
    (|s| == 6 && AllHex(s)) || (|s| == 7 && s[0] == '#' && AllHex(s[1..]))
  }

  function HexDigitValue(c: char): (v: int)
    requires IsHexDigit(c)
    ensures 0 <= v < 16
  {
    if '0' <= c <= '9' then c as int - '0' as int
    else if 'a' <= c <= 'f' then c as int - 'a' as int + 10
    else c as int - 'A' as int + 10
  }

  /** `parseInt(pair, 16)` for a two-digit pair. */
  function PairValue(hi: char, lo: char): (v: int)
    requires IsHexDigit(hi) && IsHexDigit(lo)
    ensures IsByte(v)
  {
    16 * HexDigitValue(hi) + HexDigitValue(lo)
  }

  /** hexToRgb: the three pairs of a well-formed colour, None otherwise. */
  function HexToRgb(hex: string): (c: Option<Rgb>)
    ensures c.Some? <==> IsHexColor(hex)
    ensures c.Some? ==> InRange(c.value)
  {
    var d := if |hex| > 0 && hex[0] == '#' then hex[1..] else hex;
    if |d| == 6 && AllHex(d) then
      Some(Rgb(PairValue(d[0], d[1]), PairValue(d[2], d[3]), PairValue(d[4], d[5])))
    else
      None
  }

  /** The lower-case hex digit of a value below 16. */
  function LowerHexDigit(v: int): (c: char)
    requires 0 <= v < 16
    ensures IsHexDigit(c) && HexDigitValue(c) == v
  {
    if v < 10 then ('0' as int + v) as char else ('a' as int + v - 10) as char
  }

  /** The canonical `#rrggbb` spelling of a colour, lower case. */
  function RgbToHex(c: Rgb): (s: string)
    requires InRange(c)
    ensures |s| == 7 && s[0] == '#' && AllHex(s[1..])
  {
    ['#', LowerHexDigit(c.r / 16), LowerHexDigit(c.r % 16),
          LowerHexDigit(c.g / 16), LowerHexDigit(c.g % 16),
          LowerHexDigit(c.b / 16), LowerHexDigit(c.b % 16)]
  }

  /** Every colour survives printing and parsing back. */
  lemma HexRoundTrip(c: Rgb)
    requires InRange(c)
    ensures HexToRgb(RgbToHex(c)) == Some(c)
  {
    var s := RgbToHex(c);
    assert s[1..] == s[1..][..];
    assert PairValue(s[1], s[2]) == c.r;
    assert PairValue(s[3], s[4]) == c.g;
    assert PairValue(s[5], s[6]) == c.b;
  }

  /** ASCII lower-casing of one character. */
  function LowerChar(c: char): char {
    if 'A' <= c <= 'Z' then (c as int - 'A' as int + 'a' as int) as char else c
  }

  function Lower(s: string): (t: string)
    ensures |t| == |s| && forall i :: 0 <= i < |s| ==> t[i] == LowerChar(s[i])
  {
    seq(|s|, i requires 0 <= i < |s| => LowerChar(s[i]))
  }

  lemma LowerHexDigitOfValue(c: char)
    requires IsHexDigit(c)
    ensures LowerHexDigit(HexDigitValue(c)) == LowerChar(c)
  {
  }

  lemma PairDigits(hi: char, lo: char)
    requires IsHexDigit(hi) && IsHexDigit(lo)
    ensures PairValue(hi, lo) / 16 == HexDigitValue(hi) && PairValue(hi, lo) % 16 == HexDigitValue(lo)
  {
  }

  /** Printing the value of a pair gives its two digits in lower case. */
  lemma PairCanonical(hi: char, lo: char)
    requires IsHexDigit(hi) && IsHexDigit(lo)
    ensures LowerHexDigit(PairValue(hi, lo) / 16) == LowerChar(hi)
    ensures LowerHexDigit(PairValue(hi, lo) % 16) == LowerChar(lo)
  {
    PairDigits(hi, lo);
    LowerHexDigitOfValue(hi);
    LowerHexDigitOfValue(lo);
  }

  /** Parsing then printing a colour gives its digits in lower case after a
      single '#': the parser reads upper and lower case alike and the '#' is
      optional, and nothing else about the spelling is lost. */
  lemma HexCanonical(s: string)
    requires IsHexColor(s)
    ensures RgbToHex(HexToRgb(s).value) == "#" + Lower(if |s| == 7 then s[1..] else s)
  {
    var d := if |s| == 7 then s[1..] else s;
    assert |d| == 6 && AllHex(d);
    var c := HexToRgb(s).value;
    assert c == Rgb(PairValue(d[0], d[1]), PairValue(d[2], d[3]), PairValue(d[4], d[5]));
    PairCanonical(d[0], d[1]);
    PairCanonical(d[2], d[3]);
    PairCanonical(d[4], d[5]);
    assert RgbToHex(c) == ['#', LowerChar(d[0]), LowerChar(d[1]), LowerChar(d[2]), LowerChar(d[3]), LowerChar(d[4]), LowerChar(d[5])];
    assert Lower(d) == [LowerChar(d[0]), LowerChar(d[1]), LowerChar(d[2]), LowerChar(d[3]), LowerChar(d[4]), LowerChar(d[5])];
  }

  /** The leading '#' is optional: with or without it a colour parses the same. */
  lemma HashOptional(s: string)
    requires |s| == 0 || s[0] != '#'
    ensures HexToRgb("#" + s) == HexToRgb(s)
  {
    assert ("#" + s)[1..] == s;
  }

  const ToggleUuid: string := "com.shelly.toggle"
  const OnUuid: string := "com.shelly.on"
  const OffUuid: string := "com.shelly.off"
  const DimmingUuid: string := "com.shelly.dimming"
  const RgbwUuid: string := "com.shelly.rgbw"
  const StatusUuid: string := "com.shelly.status"

  const DefaultIcon: string := "imgs/icon.png"

  /** The per-action icon table. */
  const IconMap: map<string, string> := map[
    ToggleUuid := "imgs/actions/toggle.png",
    OnUuid := "imgs/actions/on.png",
    OffUuid := "imgs/actions/off.png",
    DimmingUuid := "imgs/actions/dimming.png",
    RgbwUuid := "imgs/actions/rgbw.png",
    StatusUuid := "imgs/actions/status.png"]

  /** getActionIconPath: the table entry, the plugin icon for any other uuid. */
  function ActionIconPath(uuid: string): (p: string)
    ensures uuid in IconMap ==> p == IconMap[uuid]
    ensures uuid !in IconMap ==> p == DefaultIcon
  {
    if uuid in IconMap then IconMap[uuid] else DefaultIcon
  }

  /** The six actions each get an icon of their own, and none of them the
      fallback icon. */
  lemma ActionIconsDistinct(u: string, v: string)
    requires u in IconMap && v in IconMap && u != v
    ensures ActionIconPath(u) != ActionIconPath(v)
    ensures ActionIconPath(u) != DefaultIcon
  {
  }

  /** The `^assets/` to `imgs/` rewrite applied before the file is looked up. */
  function PluginIconPath(p: string): (q: string)
    ensures StartsWith(p, "assets/") ==> q == "imgs/" + p[7..]
    ensures !StartsWith(p, "assets/") ==> q == p
  {
    if StartsWith(p, "assets/") then "imgs/" + p[7..] else p
  }

  /** Rewriting twice is rewriting once. */
  lemma PluginIconPathIdempotent(p: string)
    ensures PluginIconPath(PluginIconPath(p)) == PluginIconPath(p)
  {
    var q := PluginIconPath(p);
    if StartsWith(p, "assets/") {
      assert q[..5] == "imgs/";
      assert q[0] != "assets/"[0];
      assert !StartsWith(q, "assets/");
    }
  }

  /** The paths the actions ask for are already plugin paths: the rewrite
      leaves every action icon alone. */
  lemma ActionIconPathUnchanged(uuid: string)
    ensures PluginIconPath(ActionIconPath(uuid)) == ActionIconPath(uuid)
  {
    var p := ActionIconPath(uuid);
    assert p[0] == 'i';
  }

  /** What the renderer can see: the icon files present under the plugin
      root (or at an absolute path), and whether rendering succeeds. */
  datatype IconEnv = IconEnv(files: set<string>, renderOk: bool)

  /** What setImage receives: a plain path, or a PNG data URI drawn from the
      file `source`, tinted and laid over a background when those apply. */
  datatype IconImage =
    | PathImage(path: string)
    | DataUri(source: string, tint: Option<Rgb>, background: Option<Rgb>)

  /** The tint: applied only for a non-empty colour other than the two
      spellings of white the source tests for, and only when it parses. */
  function TintOf(iconColor: Option<string>): (t: Option<Rgb>)
    ensures t.Some? <==>
      Truthy(iconColor) && iconColor.value != "#ffffff" && iconColor.value != "#FFFFFF" && IsHexColor(iconColor.value)
    ensures t.Some? ==> t == HexToRgb(iconColor.value)
  {
    if Truthy(iconColor) && iconColor.value != "#ffffff" && iconColor.value != "#FFFFFF" then HexToRgb(iconColor.value)
    else None
  }

  /** The white test compares spellings, not colours: white written without
      '#' or in mixed case is still applied as a tint. */
  lemma WhiteTintBySpelling()
    ensures TintOf(Some("#ffffff")) == None && TintOf(Some("#FFFFFF")) == None
    ensures TintOf(Some("ffffff")) == Some(Rgb(255, 255, 255))
    ensures TintOf(Some("#FfFfFf")) == Some(Rgb(255, 255, 255))
  {
    assert "ffffff" != "#ffffff";
    assert "#FfFfFf" != "#ffffff" && "#FfFfFf"[2] != "#FFFFFF"[2];
    assert IsHexColor("ffffff");
    assert IsHexColor("#FfFfFf");
  }

  /** The background: any non-empty colour that parses. */
  function BackgroundOf(backgroundColor: Option<string>): (b: Option<Rgb>)
    ensures b.Some? <==> Truthy(backgroundColor) && IsHexColor(backgroundColor.value)
    ensures b.Some? ==> b == HexToRgb(backgroundColor.value)
  {
    if Truthy(backgroundColor) then HexToRgb(backgroundColor.value) else None
  }

  /** generateColoredIcon: the original path back when the rewritten file is
      missing or rendering fails; otherwise a data URI of the rewritten file
      with the tint and background that apply. */
  function GenerateColoredIcon(iconPath: string, iconColor: Option<string>, backgroundColor: Option<string>, env: IconEnv): (img: IconImage)
    ensures img.PathImage? <==> PluginIconPath(iconPath) !in env.files || !env.renderOk
    ensures img.PathImage? ==> img.path == iconPath
    ensures img.DataUri? ==>
      img.source == PluginIconPath(iconPath) && img.tint == TintOf(iconColor) && img.background == BackgroundOf(backgroundColor)
  {
    var file := PluginIconPath(iconPath);
    if file !in env.files || !env.renderOk then PathImage(iconPath)
    else DataUri(file, TintOf(iconColor), BackgroundOf(backgroundColor))
  }

  /** A colour that does not parse is ignored: the icon is the one drawn
      without it. */
  lemma MalformedColoursIgnored(iconPath: string, iconColor: string, backgroundColor: string, env: IconEnv)
    requires !IsHexColor(iconColor) && !IsHexColor(backgroundColor)
    ensures GenerateColoredIcon(iconPath, Some(iconColor), Some(backgroundColor), env)
         == GenerateColoredIcon(iconPath, None, None, env)
  {
  }
}
