/** DS18XXX one-wire temperature sensors
    (src/DS18XXX/shelly_temp_sensor_ow.cpp): discovery on the bus, the
    scratchpad read with its CRC check, the resolution and conversion-time
    tables and the measurement cycle. The bus is the environment: whether
    a reset is answered and the bytes read are parameters. */
module Ds18xxx {
  import opened Wrappers
  import Hex = ShellyWifiConfig

  const DS18S20Model := 0x10
  const DS18B20Model := 0x28
  const DS1822Model := 0x22
  const DS1825Model := 0x3B
  const DS28EA00Model := 0x42

  const ConvertT := 0x44
  const ReadScratchpadCmd := 0xBE

  /** A device's ROM code: family, 48-bit serial number, CRC. */
  datatype Rom = Rom(family: Byte, serial: nat, crc: Byte)

  /** SupportsFamily. */
  predicate SupportsFamily(family: Byte) {
    family == DS18B20Model || family == DS18S20Model || family == DS1822Model
    || family == DS1825Model || family == DS28EA00Model
  }

  /** The devices a search of the bus finds, in order, and the sensors
      discovery keeps: every supported one. */
  function Supported(bus: seq<Rom>): (r: seq<Rom>)
    decreases |bus|
  {
    if |bus| == 0 then []
    else (if SupportsFamily(bus[0].family) then [bus[0]] else []) + Supported(bus[1..])
  }

  /** Discovery as written: the loop ends at the first device that is not
      a supported sensor, since that step yields no sensor. */
  function DiscoverAsWritten(bus: seq<Rom>): seq<Rom>
    decreases |bus|
  {
    if |bus| == 0 || !SupportsFamily(bus[0].family) then []
    else [bus[0]] + DiscoverAsWritten(bus[1..])
  }

  /** Supported keeps exactly the supported devices, in bus order. */
  lemma {:induction false} SupportedSpec(bus: seq<Rom>)
    ensures forall r :: r in Supported(bus) ==> r in bus && SupportsFamily(r.family)
    ensures forall r :: r in bus && SupportsFamily(r.family) ==> r in Supported(bus)
    ensures |Supported(bus)| <= |bus|
    decreases |bus|
  {
    if |bus| > 0 {
      SupportedSpec(bus[1..]);
      assert bus == [bus[0]] + bus[1..];
    }
  }

  /** As written, discovery finds only the supported devices before the
      first unsupported one: a bus with an ID chip ahead of a DS18B20
      yields no sensor. */
  lemma {:induction false} DiscoveryStopsEarly(serial: nat)
    ensures var bus := [Rom(0x01, serial, 0), Rom(DS18B20Model, serial, 0)];
      DiscoverAsWritten(bus) == [] && Supported(bus) == [bus[1]]
  {
    var bus := [Rom(0x01, serial, 0), Rom(DS18B20Model, serial, 0)];
    assert bus[1..][1..] == [];
    assert Supported(bus[1..]) == [bus[1]] + Supported(bus[1..][1..]);
  }

  /** DiscoverAll over the devices the bus search yields. */
  method DiscoverAll(bus: seq<Rom>) returns (sensors: seq<Rom>)
    ensures sensors == Supported(bus)
  {
    sensors := [];
    var i := |bus|;
    while i > 0
      invariant 0 <= i <= |bus|
      invariant sensors == Supported(bus[i..])
    {
      i := i - 1;
      assert bus[i..][1..] == bus[i + 1..];
      if SupportsFamily(bus[i].family) {
        sensors := [bus[i]] + sensors;
      }
    }
    assert bus[0..] == bus;
  }

  /** The nine scratchpad bytes: temperature (little-endian int16), TH, TL,
      configuration, reserved, COUNT REMAIN, COUNT PER °C, CRC. */
  datatype Scratchpad = Scratchpad(
    temperature: int, th: Byte, tl: Byte, cfg: Byte, rfu: Byte,
    countRemain: Byte, countPerC: Byte, crc: Byte)

  function ScratchpadOf(b: seq<Byte>): Scratchpad
    requires |b| == 9
  {
    var t := b[0] as int + 256 * (b[1] as int);
    Scratchpad(if t >= 0x8000 then t - 0x1_0000 else t, b[2], b[3], b[4], b[5], b[6], b[7], b[8])
  }

  predicate Int16(t: int) {
    -0x8000 <= t < 0x8000
  }

  /** The first eight bytes of a scratchpad, as the sensor sends them. */
  function ScratchpadData(sp: Scratchpad): seq<Byte>
    requires Int16(sp.temperature)
  {
    [sp.temperature % 256, (sp.temperature / 256) % 256, sp.th, sp.tl, sp.cfg, sp.rfu, sp.countRemain, sp.countPerC]
  }

  /** One bit of the Dallas/Maxim CRC-8 (polynomial x^8 + x^5 + x^4 + 1,
      least significant bit first): the register and the remaining data
      bits. */
  function CrcStep(crc: bv8, data: bv8): (bv8, bv8) {
    var mix := (crc ^ data) & 1;
    var c := crc >> 1;
    (if mix == 1 then c ^ 0x8C else c, data >> 1)
  }

  function CrcByte(crc: bv8, data: bv8): bv8 {
    var s1 := CrcStep(crc, data);
    var s2 := CrcStep(s1.0, s1.1);
    var s3 := CrcStep(s2.0, s2.1);
    var s4 := CrcStep(s3.0, s3.1);
    var s5 := CrcStep(s4.0, s4.1);
    var s6 := CrcStep(s5.0, s5.1);
    var s7 := CrcStep(s6.0, s6.1);
    CrcStep(s7.0, s7.1).0
  }

  /** The CRC-8 of some bytes, as the one-wire library computes it (the
      library is not part of this model; the algorithm is the one the
      DS18XXX sensors use). */
  function Crc8(s: seq<Byte>): Byte
    decreases |s|
  {
    if |s| == 0 then 0 else CrcByte(Crc8(s[..|s| - 1]) as bv8, s[|s| - 1] as bv8) as Byte
  }

  lemma {:induction false} CrcStepSame(x: bv8)
    ensures CrcStep(x, x) == (x >> 1, x >> 1)
  {
  }

  /** Feeding the register its own value clears it. */
  lemma {:induction false} CrcByteSelf(x: bv8)
    ensures CrcByte(x, x) == 0
  {
    CrcStepSame(x);
    CrcStepSame(x >> 1);
    CrcStepSame(x >> 1 >> 1);
    CrcStepSame(x >> 1 >> 1 >> 1);
    CrcStepSame(x >> 1 >> 1 >> 1 >> 1);
    CrcStepSame(x >> 1 >> 1 >> 1 >> 1 >> 1);
    CrcStepSame(x >> 1 >> 1 >> 1 >> 1 >> 1 >> 1);
    CrcStepSame(x >> 1 >> 1 >> 1 >> 1 >> 1 >> 1 >> 1);
  }

  /** Appending the CRC to the data gives a message whose CRC is zero. */
  lemma {:induction false} Crc8Residue(s: seq<Byte>)
    ensures Crc8(s + [Crc8(s)]) == 0
  {
    var m := s + [Crc8(s)];
    assert m[..|m| - 1] == s;
    CrcByteSelf(Crc8(s) as bv8);
  }

  /** %llx: lowercase hexadecimal without leading zeros. */
  function LowerHex(n: nat): (r: string)
    ensures |r| >= 1
    ensures n < 256 ==> |r| <= 2
    decreases n
  {
    if n < 16 then [Hex.HexDigit(n)] else LowerHex(n / 16) + [Hex.HexDigit(n % 16)]
  }

  /** The value of a string of lowercase hexadecimal digits. */
  function HexText(s: string): int
    decreases |s|
  {
    if |s| == 0 then 0 else 16 * HexText(s[..|s| - 1]) + Hex.HexValue(s[|s| - 1])
  }

  /** LowerHex reads back as the number it was written from, and has no
      leading zero. */
  lemma {:induction false} LowerHexRoundTrip(n: nat)
    ensures HexText(LowerHex(n)) == n
    ensures n > 0 ==> LowerHex(n)[0] != '0'
    decreases n
  {
    var r := LowerHex(n);
    if n < 16 {
      Hex.HexDigitValue(n);
      assert r[..|r| - 1] == [];
    } else {
      assert r[..|r| - 1] == LowerHex(n / 16);
      LowerHexRoundTrip(n / 16);
      Hex.HexDigitValue(n % 16);
    }
  }

  /** %#02x of a byte: "0x" and its lowercase digits, or "00" for zero
      (the alternate form adds no prefix to zero, which is then padded). */
  function AltHexByte(v: Byte): (r: string)
    ensures 2 <= |r| <= 4
  {
    if v == 0 then "00" else "0x" + LowerHex(v)
  }

  /** A byte printed with %#02x reads back as that byte. */
  lemma {:induction false} AltHexByteRoundTrip(v: Byte)
    ensures var r := AltHexByte(v); HexText(if r[..2] == "0x" then r[2..] else r) == v
  {
    var r := AltHexByte(v);
    if v == 0 {
      assert r[..1] == "0";
      assert HexText(r[..1]) == 16 * HexText([]) + 0;
    } else {
      assert r[2..] == LowerHex(v);
      LowerHexRoundTrip(v);
    }
  }

  /** Every status message of a sensor starts with its serial number
      ("%llx: "). */
  function SerialTag(serial: nat): string {
    LowerHex(serial) + ": "
  }

  function BusResetFailed(serial: nat): Status {
    StatusError(Unavailable, SerialTag(serial) + "Bus reset failed")
  }

  /** The CRC computed over the eight bytes read and the CRC byte received. */
  function CrcMismatch(serial: nat, computed: Byte, received: Byte): Status {
    StatusError(DataLoss, SerialTag(serial) + "Invalid scratchpad CRC: " + AltHexByte(computed) + " vs " + AltHexByte(received))
  }

  /** ReadScratchpad of the sensor with serial number `serial`, with
      `busOk` whether the bus reset was answered and `b` the nine bytes
      read. */
  function ReadScratchpad(serial: nat, busOk: bool, b: seq<Byte>): Result<Scratchpad, Status>
    requires |b| == 9
  {
    if !busOk then Err(BusResetFailed(serial))
    else if Crc8(b[..8]) != b[8] then Err(CrcMismatch(serial, Crc8(b[..8]), b[8]))
    else Ok(ScratchpadOf(b))
  }

  /** A message that starts with the serial tag gives the serial back. */
  lemma {:induction false} SerialTagReadsBack(serial: nat, rest: string)
    ensures var m := SerialTag(serial) + rest; var k := |LowerHex(serial)|;
      m[..k + 2] == LowerHex(serial) + ": " && HexText(m[..k]) == serial
  {
    var m := SerialTag(serial) + rest;
    var k := |LowerHex(serial)|;
    assert m[..k] == LowerHex(serial);
    assert m[..k + 2] == LowerHex(serial) + ": ";
    LowerHexRoundTrip(serial);
  }

  /** A failed read names the sensor by its serial number, which reads back
      from the message; a CRC mismatch also reports both CRC values. */
  lemma {:induction false} ReadScratchpadNamesSensor(serial: nat, busOk: bool, b: seq<Byte>)
    requires |b| == 9
    ensures var r := ReadScratchpad(serial, busOk, b);
      r.Err? ==> (var m := r.error.message; var k := |LowerHex(serial)|;
        && m[..k + 2] == LowerHex(serial) + ": "
        && HexText(m[..k]) == serial)
    ensures var c := Crc8(b[..8]);
      busOk && c != b[8] ==>
      ReadScratchpad(serial, busOk, b).error.message
        == SerialTag(serial) + "Invalid scratchpad CRC: " + AltHexByte(c) + " vs " + AltHexByte(b[8])
  {
    var c := Crc8(b[..8]);
    if !busOk {
      SerialTagReadsBack(serial, "Bus reset failed");
    } else if c != b[8] {
      SerialTagReadsBack(serial, "Invalid scratchpad CRC: " + AltHexByte(c) + " vs " + AltHexByte(b[8]));
      assert SerialTag(serial) + "Invalid scratchpad CRC: " + AltHexByte(c) + " vs " + AltHexByte(b[8])
        == SerialTag(serial) + ("Invalid scratchpad CRC: " + AltHexByte(c) + " vs " + AltHexByte(b[8]));
    }
  }

  /** A scratchpad sent with its CRC is read back unchanged; any
      transmission whose CRC byte does not match is refused with DATA_LOSS. */
  lemma {:induction false} ScratchpadRoundTrip(serial: nat, sp: Scratchpad)
    requires Int16(sp.temperature) && sp.crc == Crc8(ScratchpadData(sp))
    ensures ReadScratchpad(serial, true, ScratchpadData(sp) + [sp.crc]) == Ok(sp)
    ensures forall b :: |b| == 9 && b[8] != Crc8(b[..8]) ==>
      ReadScratchpad(serial, true, b).Err? && ReadScratchpad(serial, true, b).error.code == DataLoss
  {
    var b := ScratchpadData(sp) + [sp.crc];
    assert b[..8] == ScratchpadData(sp);
    var t := sp.temperature;
    var lo := t % 256;
    var hi := (t / 256) % 256;
    assert t == 256 * (t / 256) + lo;
    if t >= 0 {
      assert hi == t / 256;
    } else {
      assert hi == t / 256 + 256;
    }
  }

  /** The resolution bits as written: the configuration byte's union puts
      every bit-field at bit 0, so they are read from bits 0-1. */
  function ResolutionBitsAsWritten(cfg: Byte): int {
    cfg % 4
  }

  /** The resolution bits of the configuration register: bits 5-6. */
  function ResolutionBits(cfg: Byte): int {
    (cfg / 32) % 4
  }

  /** The configuration byte of a sensor set to `r`: bits 0-4 read as 1. */
  function ConfigByte(r: int): Byte
    requires 0 <= r < 4
  {
    r * 32 + 31
  }

  /** As written every resolution reads as 12 bits; the bits 5-6 read back
      what was set. */
  lemma {:induction false} ResolutionFieldMisread(r: int)
    requires 0 <= r < 4
    ensures ResolutionBitsAsWritten(ConfigByte(r)) == 3
    ensures ResolutionBits(ConfigByte(r)) == r
    ensures r == 0 ==> ConversionTimeMs(ConfigByte(r)) == 94 && ConversionTimeAsWritten(ConfigByte(r)) == 750
  {
  }

  /** GetResolution: 9 to 12 bits. */
  function Resolution(cfg: Byte): (r: int)
    ensures 9 <= r <= 12
  {
    9 + ResolutionBits(cfg)
  }

  function ConversionTimeFor(bits: int): int {
    match bits
    case 0 => 94
    case 1 => 188
    case 2 => 375
    case _ => 750
  }

  function ConversionTimeAsWritten(cfg: Byte): int {
    ConversionTimeFor(ResolutionBitsAsWritten(cfg))
  }

  /** GetConversionTimeMs. */
  function ConversionTimeMs(cfg: Byte): int {
    ConversionTimeFor(ResolutionBits(cfg))
  }

  /** Each extra bit of resolution doubles the conversion time (94 ms
      standing for 93.75 ms), up to 750 ms at 12 bits. */
  lemma {:induction false} ConversionTimeSpec(cfg: Byte, other: Byte)
    ensures 94 <= ConversionTimeMs(cfg) <= 750
    ensures Resolution(cfg) == 12 <==> ConversionTimeMs(cfg) == 750
    ensures Resolution(cfg) <= Resolution(other) ==> ConversionTimeMs(cfg) <= ConversionTimeMs(other)
    ensures Resolution(cfg) < 12 ==>
      var next := ConversionTimeFor(ResolutionBits(cfg) + 1);
      next == 2 * ConversionTimeMs(cfg) || next == 2 * ConversionTimeMs(cfg) - 1
  {
  }

  class TempSensorDs18xxx {
    const rom: Rom
    /** The last reading: the scratchpad it was taken from, or the error. */
    var result: Result<Scratchpad, Status>
    var conversionTimeMs: int
    /** The repeating measurement timer and the one-shot read timer. */
    var measTimerMs: Option<int>
    var readTimerMs: Option<int>
    /** The commands sent to the sensor, in order. */
    var commands: seq<Byte>
    var notifications: nat

    constructor (rom: Rom)
      ensures this.rom == rom && result == Err(StatusError(Unavailable, SerialTag(rom.serial) + "Not updated yet"))
      ensures conversionTimeMs == 750 && measTimerMs == None && readTimerMs == None
      ensures commands == [] && notifications == 0
    {
      this.rom := rom;
      result := Err(StatusError(Unavailable, SerialTag(rom.serial) + "Not updated yet"));
      conversionTimeMs := 750;
      measTimerMs, readTimerMs := None, None;
      commands, notifications := [], 0;
    }

    method ReadScratchpadBytes(busOk: bool, b: seq<Byte>) returns (r: Result<Scratchpad, Status>)
      requires |b| == 9
      modifies this
      ensures r == ReadScratchpad(rom.serial, busOk, b)
      ensures commands == old(commands) + (if busOk then [ReadScratchpadCmd] else [])
      ensures result == old(result) && conversionTimeMs == old(conversionTimeMs) && notifications == old(notifications)
      ensures measTimerMs == old(measTimerMs) && readTimerMs == old(readTimerMs)
    {
      if !busOk {
        return Err(BusResetFailed(rom.serial));
      }
      commands := commands + [ReadScratchpadCmd];
      var crc := Crc8(b[..8]);
      if crc != b[8] {
        return Err(CrcMismatch(rom.serial, crc, b[8]));
      }
      return Ok(ScratchpadOf(b));
    }

    /** Init: reads the scratchpad for the conversion time (the power
        supply query only feeds a log line). */
    method Init(busOk: bool, b: seq<Byte>) returns (st: Status)
      requires |b| == 9
      modifies this
      ensures var spr := ReadScratchpad(rom.serial, busOk, b);
        && (spr.Err? ==> st == spr.error && result == spr && conversionTimeMs == old(conversionTimeMs))
        && (spr.Ok? ==> st == StatusOk && result == old(result) && conversionTimeMs == ConversionTimeMs(spr.value.cfg))
      ensures notifications == old(notifications) && measTimerMs == old(measTimerMs) && readTimerMs == old(readTimerMs)
    {
      var spr := ReadScratchpadBytes(busOk, b);
      if spr.Err? {
        result := spr;
        return spr.error;
      }
      conversionTimeMs := ConversionTimeMs(spr.value.cfg);
      return StatusOk;
    }

    /** StartUpdating: a pending read is cancelled and the measurement
        timer repeats every `interval`; the timer also runs at once, so the
        first measurement starts straight away (`busOk` is its bus reset). */
    method StartUpdating(interval: int, busOk: bool)
      modifies this
      ensures measTimerMs == Some(interval)
      ensures !busOk ==> (result == Err(BusResetFailed(rom.serial))
        && commands == old(commands) && readTimerMs == None)
      ensures busOk ==> (result == old(result) && commands == old(commands) + [ConvertT]
        && readTimerMs == Some(old(conversionTimeMs)))
      ensures conversionTimeMs == old(conversionTimeMs) && notifications == old(notifications)
    {
      readTimerMs := None;
      measTimerMs := Some(interval);
      UpdateTemperatureCB(busOk);
    }

    method GetTemperature() returns (r: Result<Scratchpad, Status>)
      ensures r == result
    {
      return result;
    }

    /** UpdateTemperatureCB: starts a conversion and schedules the read
        after the conversion time. */
    method UpdateTemperatureCB(busOk: bool)
      modifies this
      ensures !busOk ==> (result == Err(BusResetFailed(rom.serial))
        && commands == old(commands) && readTimerMs == old(readTimerMs))
      ensures busOk ==> (result == old(result) && commands == old(commands) + [ConvertT]
        && readTimerMs == Some(old(conversionTimeMs)))
      ensures conversionTimeMs == old(conversionTimeMs) && measTimerMs == old(measTimerMs)
      ensures notifications == old(notifications)
    {
      if !busOk {
        result := Err(BusResetFailed(rom.serial));
        return;
      }
      commands := commands + [ConvertT];
      readTimerMs := Some(conversionTimeMs);
    }

    /** ReadTemperatureCB: a good scratchpad becomes the reading and sets
        the conversion time; the notifier, when set, is told. */
    method ReadTemperatureCB(busOk: bool, b: seq<Byte>, hasNotifier: bool)
      requires |b| == 9
      modifies this
      ensures result == ReadScratchpad(rom.serial, busOk, b)
      ensures result.Ok? ==> (conversionTimeMs == ConversionTimeMs(result.value.cfg)
        && notifications == old(notifications) + (if hasNotifier then 1 else 0))
      ensures result.Err? ==> conversionTimeMs == old(conversionTimeMs) && notifications == old(notifications)
      ensures measTimerMs == old(measTimerMs) && readTimerMs == old(readTimerMs)
    {
      var spr := ReadScratchpadBytes(busOk, b);
      result := spr;
      if spr.Err? {
        return;
      }
      conversionTimeMs := ConversionTimeMs(spr.value.cfg);
      if hasNotifier {
        notifications := notifications + 1;
      }
    }
  }

  /** A measurement cycle on a healthy bus: the conversion is started, the
      read is scheduled after the conversion time, and a scratchpad sent
      intact is what the sensor then reports. */
  method MeasurementCycle(rom: Rom, sp: Scratchpad) returns (reading: Result<Scratchpad, Status>, wait: Option<int>)
    requires Int16(sp.temperature) && sp.crc == Crc8(ScratchpadData(sp))
    ensures reading == Ok(sp) && wait == Some(750)
  {
    var s := new TempSensorDs18xxx(rom);
    s.UpdateTemperatureCB(true);
    wait := s.readTimerMs;
    ScratchpadRoundTrip(rom.serial, sp);
    s.ReadTemperatureCB(true, ScratchpadData(sp) + [sp.crc], false);
    reading := s.GetTemperature();
  }
}
