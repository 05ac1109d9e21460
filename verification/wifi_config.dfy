/** Wi-Fi settings as values (src/shelly_wifi_config.cpp): equality,
    password screening, the JSON form shown to clients and MAC address
    formatting. */
module ShellyWifiConfig {
  import Text
  import Wrappers

  datatype ApConfig = ApConfig(enable: bool, ssid: string, pass: string)

  datatype StaConfig = StaConfig(
    enable: bool, ssid: string, pass: string, ip: string, netmask: string,
    gw: string, nameserver: string)

  datatype WifiConfig = WifiConfig(ap: ApConfig, sta: StaConfig, sta1: StaConfig, staPsMode: int)

  /** WifiAPConfig::operator==. */
  predicate ApEq(a: ApConfig, b: ApConfig) {
    a.enable == b.enable && a.ssid == b.ssid && a.pass == b.pass
  }

  /** WifiSTAConfig::operator==. */
  predicate StaEq(a: StaConfig, b: StaConfig) {
    a.enable == b.enable && a.ssid == b.ssid && a.pass == b.pass && a.ip == b.ip
    && a.netmask == b.netmask && a.gw == b.gw && a.nameserver == b.nameserver
  }

  /** The equality operators compare every field, so they coincide with
      equality of the values. */
  lemma {:induction false} EqIsEquality(a: ApConfig, b: ApConfig, s: StaConfig, t: StaConfig)
    ensures ApEq(a, b) <==> a == b
    ensures StaEq(s, t) <==> s == t
  {
  }

  /** A password with every character replaced by '*'. */
  function Screened(pw: string): (r: string)
    ensures |r| == |pw|
  {
    seq(|pw|, _ => '*')
  }

  /** ScreenPassword: overwrites a copy of the password character by
      character. */
  method ScreenPassword(pw: string) returns (spw: string)
    ensures spw == Screened(pw)
  {
    spw := pw;
    var i := 0;
    while i < |spw|
      invariant 0 <= i <= |spw| == |pw|
      invariant forall k :: 0 <= k < i ==> spw[k] == '*'
      invariant spw[i..] == pw[i..]
    {
      spw := spw[i := '*'];
      i := i + 1;
    }
  }

  /** A screened password is all stars, keeps the length and reveals
      nothing but the length. */
  lemma {:induction false} ScreenedSpec(pw: string, other: string)
    ensures forall i :: 0 <= i < |Screened(pw)| ==> Screened(pw)[i] == '*'
    ensures |pw| == |other| ==> Screened(pw) == Screened(other)
    ensures Screened(Screened(pw)) == Screened(pw)
  {
  }

  /** A JSON string literal (%Q); escaping of special characters is not
      modelled. */
  function Quote(s: string): string {
    "\"" + s + "\""
  }

  function Bool(b: bool): string {
    if b then "true" else "false"
  }

  function Int(n: int): string {
    if n < 0 then "-" + Text.NatToString(-n) else Text.NatToString(n)
  }

  function StaJson(s: StaConfig): string {
    "{\"enable\": " + Bool(s.enable) + ", \"ssid\": " + Quote(s.ssid) + ", \"pass\": " + Quote(Screened(s.pass))
    + ", \"ip\": " + Quote(s.ip) + ", \"netmask\": " + Quote(s.netmask) + ", \"gw\": " + Quote(s.gw)
    + ", \"nameserver\": " + Quote(s.nameserver) + "}"
  }

  /** WifiConfig::ToJSON: every password appears screened. */
  function ToJson(c: WifiConfig): string {
    "{\"ap\": {\"enable\": " + Bool(c.ap.enable) + ", \"ssid\": " + Quote(c.ap.ssid)
    + ", \"pass\": " + Quote(Screened(c.ap.pass)) + "}, \"sta\": " + StaJson(c.sta)
    + ", \"sta1\": " + StaJson(c.sta1) + ", \"sta_ps_mode\": " + Int(c.staPsMode) + "}"
  }

  /** Two configurations that differ only in passwords of the same lengths. */
  predicate SameButPasswords(c: WifiConfig, d: WifiConfig) {
    && c.ap.(pass := d.ap.pass) == d.ap && |c.ap.pass| == |d.ap.pass|
    && c.sta.(pass := d.sta.pass) == d.sta && |c.sta.pass| == |d.sta.pass|
    && c.sta1.(pass := d.sta1.pass) == d.sta1 && |c.sta1.pass| == |d.sta1.pass|
    && c.staPsMode == d.staPsMode
  }

  /** The JSON form does not depend on the password contents: configurations
      that differ only in their passwords render identically. */
  lemma {:induction false} ToJsonHidesPasswords(c: WifiConfig, d: WifiConfig)
    requires SameButPasswords(c, d)
    ensures ToJson(c) == ToJson(d)
  {
    ScreenedSpec(c.ap.pass, d.ap.pass);
    ScreenedSpec(c.sta.pass, d.sta.pass);
    ScreenedSpec(c.sta1.pass, d.sta1.pass);
    assert StaJson(c.sta) == StaJson(d.sta);
    assert StaJson(c.sta1) == StaJson(d.sta1);
  }

  const HexDigits := "0123456789abcdef"

  /** One lowercase hexadecimal digit. */
  function HexDigit(v: int): char
    requires 0 <= v < 16
  {
    HexDigits[v]
  }

  /** The value of a lowercase hexadecimal digit. */
  function HexValue(c: char): int {
    if '0' <= c <= '9' then c as int - '0' as int
    else if 'a' <= c <= 'f' then c as int - 'a' as int + 10
    else -1
  }

  lemma {:induction false} HexDigitValue(v: int)
    requires 0 <= v < 16
    ensures HexValue(HexDigit(v)) == v
  {
  }

  /** %02x of a byte. */
  function Hex2(b: Wrappers.Byte): (r: string)
    ensures |r| == 2
  {
    [HexDigit(b / 16), HexDigit(b % 16)]
  }

  /** The bytes of a MAC address, two hex digits each, separated by ':'
      when `delims` is set. */
  function MacText(mac: seq<Wrappers.Byte>, delims: bool): string
    decreases |mac|
  {
    if |mac| == 0 then ""
    else Hex2(mac[0]) + (if delims && |mac| > 1 then ":" else "") + MacText(mac[1..], delims)
  }

  /** FormatMACAddr over the six bytes of a MAC address. */
  function FormatMacAddr(mac: seq<Wrappers.Byte>, delims: bool): string
    requires |mac| == 6
  {
    MacText(mac, delims)
  }

  /** Where the digits of byte i start: groups are two digits wide, plus a
      separator when `delims` is set. */
  function GroupStart(i: int, delims: bool): int {
    if delims then 3 * i else 2 * i
  }

  /** The text is two characters per byte plus a separator between bytes. */
  lemma {:induction false} MacTextLength(mac: seq<Wrappers.Byte>, delims: bool)
    ensures |MacText(mac, delims)| == (if |mac| == 0 then 0 else GroupStart(|mac|, delims) - (if delims then 1 else 0))
    decreases |mac|
  {
    if |mac| > 0 {
      MacTextLength(mac[1..], delims);
    }
  }

  /** A slice of t read through h + t. */
  lemma {:induction false} SliceAfterPrefix(h: string, t: string, k: nat)
    requires k + 2 <= |t|
    ensures (h + t)[|h| + k .. |h| + k + 2] == t[k .. k + 2]
  {
    assert (h + t)[|h| + k] == t[k];
    assert (h + t)[|h| + k + 1] == t[k + 1];
  }

  /** Byte i is written at GroupStart(i). */
  lemma {:induction false} MacTextGroups(mac: seq<Wrappers.Byte>, delims: bool)
    ensures forall i :: 0 <= i < |mac| ==>
      GroupStart(i, delims) + 2 <= |MacText(mac, delims)|
      && MacText(mac, delims)[GroupStart(i, delims) .. GroupStart(i, delims) + 2] == Hex2(mac[i])
    decreases |mac|
  {
    if |mac| > 0 {
      var t := MacText(mac[1..], delims);
      var h := Hex2(mac[0]) + (if delims && |mac| > 1 then ":" else "");
      MacTextGroups(mac[1..], delims);
      MacTextLength(mac, delims);
      assert MacText(mac, delims) == h + t;
      forall i | 0 <= i < |mac|
        ensures MacText(mac, delims)[GroupStart(i, delims) .. GroupStart(i, delims) + 2] == Hex2(mac[i])
      {
        if i > 0 {
          assert mac[i] == mac[1..][i - 1];
          assert GroupStart(i, delims) == |h| + GroupStart(i - 1, delims);
          SliceAfterPrefix(h, t, GroupStart(i - 1, delims));
        }
      }
    }
  }

  /** With delimiters, a ':' follows every byte but the last. */
  lemma {:induction false} MacTextColons(mac: seq<Wrappers.Byte>)
    ensures forall i :: 0 <= i < |mac| - 1 ==> 3 * i + 2 < |MacText(mac, true)| && MacText(mac, true)[3 * i + 2] == ':'
    decreases |mac|
  {
    if |mac| > 1 {
      var t := MacText(mac[1..], true);
      var h := Hex2(mac[0]) + ":";
      MacTextColons(mac[1..]);
      MacTextLength(mac, true);
      assert MacText(mac, true) == h + t;
      forall i | 0 <= i < |mac| - 1
        ensures MacText(mac, true)[3 * i + 2] == ':'
      {
        if i > 0 {
          assert (h + t)[3 * i + 2] == t[3 * (i - 1) + 2];
        }
      }
    }
  }

  /** Reading the address back: the byte at each group. */
  function MacByteAt(text: string, i: nat, delims: bool): int
    requires GroupStart(i, delims) + 2 <= |text|
  {
    16 * HexValue(text[GroupStart(i, delims)]) + HexValue(text[GroupStart(i, delims) + 1])
  }

  /** FormatMACAddr gives 17 characters with separators and 12 without,
      and every byte can be read back from its two lowercase hex digits. */
  lemma {:induction false} FormatMacSpec(mac: seq<Wrappers.Byte>, delims: bool)
    requires |mac| == 6
    ensures |FormatMacAddr(mac, delims)| == (if delims then 17 else 12)
    ensures forall i :: 0 <= i < 6 ==> MacByteAt(FormatMacAddr(mac, delims), i, delims) == mac[i]
    ensures delims ==> forall i :: 0 <= i < 5 ==> FormatMacAddr(mac, delims)[3 * i + 2] == ':'
  {
    MacTextLength(mac, delims);
    MacTextGroups(mac, delims);
    if delims {
      MacTextColons(mac);
    }
    var text := FormatMacAddr(mac, delims);
    forall i | 0 <= i < 6
      ensures MacByteAt(text, i, delims) == mac[i]
    {
      var p := GroupStart(i, delims);
      var g := text[p .. p + 2];
      assert g == Hex2(mac[i]);
      assert text[p] == g[0] == HexDigit(mac[i] / 16);
      assert text[p + 1] == g[1] == HexDigit(mac[i] % 16);
      HexDigitValue(mac[i] / 16);
      HexDigitValue(mac[i] % 16);
    }
  }
}
