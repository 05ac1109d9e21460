/** The BL0942 energy meter driver (src/BL0942/shelly_pm_bl0942.cpp): it
    talks to the chip over a UART, writing registers with 6-byte frames and
    reading the measurement packet back with a checksum. The UART is the
    environment: what it receives is a parameter, what is written to it is
    recorded. */
module Bl0942 {
  import opened Wrappers

  const BlRead := 0x58
  const BlWrite := 0xA8
  const BlAddr := 0x0

  const SoftResetReg := 0x1C
  const UsrWrProtReg := 0x1D
  const ModeReg := 0x19
  const TpsCtrlReg := 0x1B
  const IFastRmsCtrlReg := 0x10

  /** The register holding the full measurement packet, and the packet's
      size and header byte. */
  const PacketReg := 0xAA
  const PacketLen := 22
  const PacketHeader := 0x55

  const Baud := 9600

  /** The sum of some bytes, first to last. */
  function Sum(s: seq<int>): int
    decreases |s|
  {
    if |s| == 0 then 0 else Sum(s[..|s| - 1]) + s[|s| - 1]
  }

  /** The bitwise NOT of the low byte of the byte-sum. */
  function Checksum(s: seq<Byte>): Byte {
    255 - Sum(s) % 256
  }

  /** A frame whose bytes, checksum included, sum to 0xFF modulo 256. */
  predicate SumsToFF(s: seq<Byte>) {
    Sum(s) % 256 == 255
  }

  /** Adding a byte to a sum kept modulo 256. */
  lemma {:induction false} ModStep(a: int, b: int)
    ensures (a % 256 + b) % 256 == (a + b) % 256
  {
    var q := a / 256;
    assert a == 256 * q + a % 256;
    assert a + b == (a % 256 + b) + 256 * q;
  }

  /** The checksum completes the byte-sum to 0xFF, and it is the only byte
      that does. */
  lemma {:induction false} ChecksumCloses(s: seq<Byte>, c: Byte)
    ensures SumsToFF(s + [Checksum(s)])
    ensures SumsToFF(s + [c]) ==> c == Checksum(s)
  {
    SumSnoc(s, Checksum(s));
    SumSnoc(s, c);
    ModStep(Sum(s), Checksum(s));
    ModStep(Sum(s), c);
    var r := Sum(s) % 256;
    assert (r + Checksum(s)) % 256 == 255;
    if SumsToFF(s + [c]) {
      assert (r + c) % 256 == 255;
      assert 0 <= r + c < 512;
    }
  }

  /** The register write frame: command, register, the value's low 24 bits
      from the most significant byte, checksum. */
  function WriteFrame(reg: Byte, val: nat): seq<Byte>
    requires val < 0x1_0000_0000
  {
    var body: seq<Byte> := [BlWrite + BlAddr, reg, (val / 0x1_0000) % 256, (val / 256) % 256, val % 256];
    body + [Checksum(body)]
  }

  /** The value bytes of a frame read back. */
  function FrameValue(f: seq<Byte>): int
    requires |f| == 6
  {
    f[2] as int * 0x1_0000 + f[3] as int * 256 + f[4] as int
  }

  lemma {:induction false} Split24(val: nat)
    ensures ((val / 0x1_0000) % 256) * 0x1_0000 + ((val / 256) % 256) * 256 + val % 256 == val % 0x100_0000
  {
    var a := val / 0x1_0000;
    var b := val / 256;
    assert b == a * 256 + b % 256;
    assert val == b * 256 + val % 256;
    assert val == a * 0x1_0000 + (b % 256) * 256 + val % 256;
    assert a == (a / 256) * 256 + a % 256;
    assert val == (a / 256) * 0x100_0000 + (a % 256) * 0x1_0000 + (b % 256) * 256 + val % 256;
    assert 0 <= (a % 256) * 0x1_0000 + (b % 256) * 256 + val % 256 < 0x100_0000;
  }

  /** A write frame carries the write command, the register and the low 24
      bits of the value, and its bytes sum to 0xFF. */
  lemma {:induction false} WriteFrameSpec(reg: Byte, val: nat)
    requires val < 0x1_0000_0000
    ensures |WriteFrame(reg, val)| == 6
    ensures WriteFrame(reg, val)[0] == BlWrite && WriteFrame(reg, val)[1] == reg
    ensures FrameValue(WriteFrame(reg, val)) == val % 0x100_0000
    ensures SumsToFF(WriteFrame(reg, val))
  {
    var f := WriteFrame(reg, val);
    ChecksumCloses(f[..5], 0);
    assert f == f[..5] + [Checksum(f[..5])];
    Split24(val);
  }

  /** The five register writes Init sends, in order. */
  function InitFrames(): seq<seq<Byte>> {
    [WriteFrame(SoftResetReg, 0x5a5a5a), WriteFrame(UsrWrProtReg, 0x550000),
     WriteFrame(ModeReg, 0x001000), WriteFrame(TpsCtrlReg, 0xFF4700),
     WriteFrame(IFastRmsCtrlReg, 0x1C1800)]
  }

  /** Init unlocks the user registers right after the soft reset, and every
      frame it sends is well formed. */
  lemma {:induction false} InitFramesSpec()
    ensures |InitFrames()| == 5
    ensures forall i :: 0 <= i < 5 ==> |InitFrames()[i]| == 6 && SumsToFF(InitFrames()[i]) && InitFrames()[i][0] == BlWrite
    ensures InitFrames()[1][1] == UsrWrProtReg && FrameValue(InitFrames()[1]) == 0x550000
  {
    WriteFrameSpec(SoftResetReg, 0x5a5a5a);
    WriteFrameSpec(UsrWrProtReg, 0x550000);
    WriteFrameSpec(ModeReg, 0x001000);
    WriteFrameSpec(TpsCtrlReg, 0xFF4700);
    WriteFrameSpec(IFastRmsCtrlReg, 0x1C1800);
  }

  /** The read checksum as written: NOT of the sum of the command, the
      register and all `len` received bytes, the checksum byte included. */
  function ReadChecksumAsWritten(reg: Byte, rx: seq<Byte>): Byte {
    Checksum([BlRead + BlAddr, reg] + rx)
  }

  /** ReadReg's acceptance as written. */
  predicate ReadAcceptedAsWritten(reg: Byte, rx: seq<Byte>, len: nat)
    requires len >= 1
  {
    |rx| == len && rx[len - 1] == ReadChecksumAsWritten(reg, rx)
  }

  /** A correct response: `len` bytes whose last one is the checksum of the
      command, the register and the bytes before it. */
  predicate ReadAccepted(reg: Byte, rx: seq<Byte>, len: nat)
    requires len >= 1
  {
    |rx| == len && rx[len - 1] == Checksum([BlRead + BlAddr, reg] + rx[..len - 1])
  }

  lemma {:induction false} SumSnoc(s: seq<int>, x: int)
    ensures Sum(s + [x]) == Sum(s) + x
  {
    assert (s + [x])[..|s|] == s;
  }

  /** A correct response passes the check as written only when its
      checksum byte is 0, so nearly every correct packet is refused. */
  lemma {:induction false} ReadCheckRefusesCorrectFrames(reg: Byte, rx: seq<Byte>, len: nat)
    requires len >= 1 && ReadAccepted(reg, rx, len)
    ensures ReadAcceptedAsWritten(reg, rx, len) <==> rx[len - 1] == 0
  {
    var h := [BlRead + BlAddr, reg] + rx[..len - 1];
    assert rx == rx[..len - 1] + [rx[len - 1]];
    assert [BlRead + BlAddr, reg] + rx == h + [rx[len - 1]];
    SumSnoc(h, rx[len - 1]);
  }

  /** An all-zero measurement packet with the right header and checksum:
      it is correct but refused as written. */
  lemma {:induction false} ZeroPacketRefused()
    ensures var rx: seq<Byte> := [PacketHeader] + seq(20, _ => 0) + [168];
      && ReadAccepted(PacketReg, rx, PacketLen) && !ReadAcceptedAsWritten(PacketReg, rx, PacketLen)
  {
    var rx: seq<Byte> := [PacketHeader] + seq(20, _ => 0) + [168];
    var z: seq<Byte> := seq(20, _ => 0);
    ZerosSum(z);
    var h := [BlRead + BlAddr, PacketReg] + rx[..21];
    assert rx[..21] == [PacketHeader] + z;
    SumSnoc([], BlRead + BlAddr);
    assert [] + [BlRead + BlAddr] == [BlRead + BlAddr];
    SumSnoc([BlRead + BlAddr], PacketReg);
    assert [BlRead + BlAddr] + [PacketReg] == [BlRead + BlAddr, PacketReg];
    SumSnoc([BlRead + BlAddr, PacketReg], PacketHeader);
    assert [BlRead + BlAddr, PacketReg] + [PacketHeader] == [BlRead + BlAddr, PacketReg, PacketHeader];
    SumAppend([BlRead + BlAddr, PacketReg, PacketHeader], z);
    assert h == [BlRead + BlAddr, PacketReg, PacketHeader] + z;
    assert Sum(h) == 0x157;
    ReadCheckRefusesCorrectFrames(PacketReg, rx, PacketLen);
  }

  lemma {:induction false} ZerosSum(z: seq<int>)
    requires forall i :: 0 <= i < |z| ==> z[i] == 0
    ensures Sum(z) == 0
    decreases |z|
  {
    if |z| > 0 {
      ZerosSum(z[..|z| - 1]);
    }
  }

  lemma {:induction false} SumAppend(s: seq<int>, t: seq<int>)
    ensures Sum(s + t) == Sum(s) + Sum(t)
    decreases |t|
  {
    if |t| > 0 {
      var t' := t[..|t| - 1];
      assert s + t == (s + t') + [t[|t| - 1]];
      assert t == t' + [t[|t| - 1]];
      SumSnoc(s + t', t[|t| - 1]);
      SumSnoc(t', t[|t| - 1]);
      SumAppend(s, t');
    } else {
      assert s + t == s;
    }
  }

  /** ReadReg's wait before reading, as written: the transfer time is
      computed in whole seconds by integer division before rounding. */
  function ReadDelayAsWritten(len: nat): nat {
    (len * 8 / Baud) * 1000
  }

  /** The wait as intended: the transfer time of `len` bytes at 9600 baud,
      in milliseconds, rounded up. */
  function ReadDelayMs(len: nat): nat {
    (len * 8 * 1000 + Baud - 1) / Baud
  }

  /** As written the wait is zero for any frame shorter than 1200 bytes,
      the 22-byte packet included; the intended wait covers the transfer. */
  lemma {:induction false} ReadDelaySpec(len: nat)
    ensures len < 1200 ==> ReadDelayAsWritten(len) == 0
    ensures ReadDelayMs(len) * Baud >= len * 8 * 1000
    ensures (ReadDelayMs(len) - 1) * Baud < len * 8 * 1000
    ensures ReadDelayMs(PacketLen) == 19 && ReadDelayAsWritten(PacketLen) == 0
  {
  }

  class Bl0942PowerMeter {
    const txPin: int
    const rxPin: int
    const measTime: int
    /** Last active power (W) and accumulated energy (Wh). */
    var apa: real
    var aea: real
    /** The frames written to the UART, in order. */
    var sent: seq<seq<Byte>>
    /** The milliseconds slept, in order. */
    var sleeps: seq<nat>
    var rxEnabled: bool
    /** The measurement timer's period, once started. */
    var timerMs: Option<int>

    constructor (txPin: int, rxPin: int, measTime: int)
      ensures this.txPin == txPin && this.rxPin == rxPin && this.measTime == measTime
      ensures apa == 0.0 && aea == 0.0 && sent == [] && sleeps == [] && !rxEnabled && timerMs == None
    {
      this.txPin, this.rxPin, this.measTime := txPin, rxPin, measTime;
      apa, aea := 0.0, 0.0;
      sent, sleeps := [], [];
      rxEnabled, timerMs := false, None;
    }

    /** The byte-sum loop WriteReg and ReadReg share: a uint8_t
        accumulator, so the sum is kept modulo 256. */
    static method ByteSum(init: Byte, s: seq<Byte>) returns (sum: Byte)
      ensures sum == Sum([init] + s) % 256
    {
      sum := init;
      SumSnoc([], init);
      assert [] + [init] == [init];
      assert [init] + s[..0] == [init];
      var i := 0;
      while i < |s|
        invariant 0 <= i <= |s|
        invariant sum == Sum([init] + s[..i]) % 256
      {
        assert [init] + s[..i + 1] == ([init] + s[..i]) + [s[i]];
        SumSnoc([init] + s[..i], s[i]);
        ModStep(Sum([init] + s[..i]), s[i]);
        sum := (sum as int + s[i]) % 256;
        i := i + 1;
      }
      assert s[..i] == s;
    }

    /** WriteReg: builds the frame in a buffer whose last byte holds the
        NOT of the byte-sum of the first five, sends it and sleeps 1 ms. */
    method WriteReg(reg: Byte, val: nat) returns (ok: bool)
      requires val < 0x1_0000_0000
      modifies this
      ensures ok
      ensures sent == old(sent) + [WriteFrame(reg, val)] && sleeps == old(sleeps) + [1]
      ensures apa == old(apa) && aea == old(aea) && rxEnabled == old(rxEnabled) && timerMs == old(timerMs)
    {
      var tx: seq<Byte> := [BlWrite + BlAddr, reg, (val / 0x1_0000) % 256, (val / 256) % 256, val % 256, 0];
      var sum := ByteSum(tx[0], tx[1..5]);
      assert [tx[0]] + tx[1..5] == tx[..5];
      ghost var body: seq<Byte> := [BlWrite + BlAddr, reg, (val / 0x1_0000) % 256, (val / 256) % 256, val % 256];
      assert tx[..5] == body;
      tx := tx[5 := 255 - sum];
      assert tx == body + [Checksum(body)];
      sent := sent + [tx];
      sleeps := sleeps + [1];
      return true;
    }

    /** ReadReg with `rx` the bytes the UART delivered for a `len`-byte
        response: the checksum covers the command, the register and the
        bytes before the checksum byte. */
    method ReadReg(reg: Byte, rx: seq<Byte>, len: nat) returns (ok: bool)
      requires len >= 1
      modifies this
      ensures ok == ReadAccepted(reg, rx, len)
      ensures sent == old(sent) + [[BlRead + BlAddr, reg]] && sleeps == old(sleeps) + [ReadDelayMs(len)]
      ensures apa == old(apa) && aea == old(aea) && rxEnabled == old(rxEnabled) && timerMs == old(timerMs)
    {
      sent := sent + [[BlRead + BlAddr, reg]];
      sleeps := sleeps + [ReadDelayMs(len)];
      if |rx| != len {
        return false;
      }
      var sum := ByteSum(BlRead + BlAddr, [reg] + rx[..len - 1]);
      assert [BlRead + BlAddr] + ([reg] + rx[..len - 1]) == [BlRead + BlAddr, reg] + rx[..len - 1];
      return rx[len - 1] == 255 - sum;
    }

    /** Init with `uartOk` the UART driver's answer to the configuration. */
    method Init(uartOk: bool) returns (st: Status)
      modifies this
      ensures rxPin < 0 && txPin < 0 ==> st == StatusError(InvalidArgument, "no valid pins")
      ensures !(rxPin < 0 && txPin < 0) && !uartOk ==> st == StatusError(InvalidArgument, "Failed to configure UART")
      ensures !st.IsOk() ==> sent == old(sent) && sleeps == old(sleeps) && rxEnabled == old(rxEnabled) && timerMs == old(timerMs)
      ensures st.IsOk() <==> !(rxPin < 0 && txPin < 0) && uartOk
      ensures st.IsOk() ==> rxEnabled && timerMs == Some(measTime * 1000) && sent == old(sent) + InitFrames()
      ensures apa == old(apa) && aea == old(aea)
    {
      if rxPin < 0 && txPin < 0 {
        return StatusError(InvalidArgument, "no valid pins");
      }
      if !uartOk {
        return StatusError(InvalidArgument, "Failed to configure UART");
      }
      rxEnabled := true;
      timerMs := Some(measTime * 1000);
      var written := WriteReg(SoftResetReg, 0x5a5a5a);
      written := WriteReg(UsrWrProtReg, 0x550000);
      written := WriteReg(ModeReg, 0x001000);
      written := WriteReg(TpsCtrlReg, 0xFF4700);
      written := WriteReg(IFastRmsCtrlReg, 0x1C1800);
      return StatusOk;
    }

    /** MeasureTimerCB with `rx` the packet the UART delivered: a packet is
        taken only with a good checksum and the 0x55 header; its contents
        are not processed further, so the readings do not change. */
    method MeasureTimerCB(rx: seq<Byte>) returns (taken: bool)
      modifies this
      ensures taken <==> ReadAccepted(PacketReg, rx, PacketLen) && rx[0] == PacketHeader
      ensures sent == old(sent) + [[BlRead + BlAddr, PacketReg]]
      ensures apa == old(apa) && aea == old(aea)
    {
      var ok := ReadReg(PacketReg, rx, PacketLen);
      taken := ok && rx[0] == PacketHeader;
    }

    method GetPowerW() returns (w: real)
      ensures w == apa
    {
      return apa;
    }

    method GetEnergyWH() returns (wh: real)
      ensures wh == aea
    {
      return aea;
    }
  }
}
