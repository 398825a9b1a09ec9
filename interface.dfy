/** The SPI transport and the controller command sequences built on it
    (src/interface.rs). The bus and the pins are observed through an
    append-only event log. Whether an `spi.write` succeeds is decided by
    the device, modelled as a fixed oracle over the log position at
    which the write happens. */
module Interface {
  import opened Lib
  import opened Commands

  /** One observable action on the bus or the pins. */
  datatype Event =
    | Dc(high: bool)          // data/command select: low = command, high = data
    | Write(bytes: seq<bv8>)  // one `spi.write` of these bytes
    | ResetPin(high: bool)
    | DelayMs(ms: nat)
    | WaitBusyLow

  /** `Result<(), Error<E>>`. */
  datatype Status<E> = Ok | Err(error: Error<E>)

  /** What running a script produced: the events actually emitted and
      the final status. */
  datatype Run<E> = Run(events: seq<Event>, status: Status<E>)

  /** The device's answer to an `spi.write` emitted at log position n:
      None for success, Some(e) for a failure with error e. */
  type Device<!E> = nat -> Option<E>

  /** Performing `script` when the log already holds n events: the
      events are emitted in order until the first write the device
      refuses, which ends the run with `Comm` of the device's error
      (the `?` chains). */
  function Exec<E>(script: seq<Event>, spi: Device<E>, n: nat): Run<E>
    decreases |script|
  {
    if script == [] then Run([], Ok)
    else if script[0].Write? && spi(n).Some? then Run([script[0]], Err(Comm(spi(n).value)))
    else
      var rest := Exec(script[1..], spi, n + 1);
      Run([script[0]] + rest.events, rest.status)
  }

  /** Whether the device accepts every write of `script`, performed
      from log position n. */
  ghost predicate AllWritesAccepted<E>(script: seq<Event>, spi: Device<E>, n: nat)
  {
    forall k :: 0 <= k < |script| && script[k].Write? ==> spi(n + k).None?
  }

  /** A run succeeds exactly when the device accepts each of the
      script's writes, and a successful run emits the whole script. */
  lemma {:induction false} ExecSucceeds<E>(script: seq<Event>, spi: Device<E>, n: nat)
    ensures Exec(script, spi, n).status.Ok? <==> AllWritesAccepted(script, spi, n)
    ensures Exec(script, spi, n).status.Ok? ==> Exec(script, spi, n).events == script
    decreases |script|
  {
    if script != [] {
      if script[0].Write? && spi(n).Some? {
        assert script[0].Write? && spi(n + 0).None? ==> false;
      } else {
        ExecSucceeds(script[1..], spi, n + 1);
        if AllWritesAccepted(script, spi, n) {
          forall k | 0 <= k < |script[1..]| && script[1..][k].Write?
            ensures spi(n + 1 + k).None?
          {
            assert script[k + 1] == script[1..][k];
          }
        }
        if AllWritesAccepted(script[1..], spi, n + 1) {
          forall k | 0 <= k < |script| && script[k].Write?
            ensures spi(n + k).None?
          {
            if k > 0 {
              assert script[1..][k - 1] == script[k];
            }
          }
        }
      }
    }
  }

  /** An accepted (or non-write) first event followed by an accepted
      stretch of the rest is an accepted stretch. */
  lemma AcceptedCons<E>(script: seq<Event>, spi: Device<E>, n: nat, m: nat)
    requires 0 < m <= |script|
    requires !(script[0].Write? && spi(n).Some?)
    requires AllWritesAccepted(script[1..][..m - 1], spi, n + 1)
    ensures AllWritesAccepted(script[..m], spi, n)
  {
    forall k | 0 <= k < m && script[..m][k].Write?
      ensures spi(n + k).None?
    {
      if k > 0 {
        assert script[1..][..m - 1][k - 1] == script[k];
      }
    }
  }

  /** A failed run emits a non-empty prefix of the script that ends
      with the refused write, every earlier write having been accepted,
      and reports the device's error for that write. */
  lemma {:induction false} ExecAborts<E>(script: seq<Event>, spi: Device<E>, n: nat)
    requires Exec(script, spi, n).status.Err?
    ensures var r := Exec(script, spi, n);
      && 0 < |r.events| <= |script|
      && r.events == script[..|r.events|]
      && r.events[|r.events| - 1].Write?
      && spi(n + |r.events| - 1) == Some(r.status.error.cause)
      && AllWritesAccepted(script[..|r.events| - 1], spi, n)
    decreases |script|
  {
    if !(script[0].Write? && spi(n).Some?) {
      var rest := Exec(script[1..], spi, n + 1);
      ExecAborts(script[1..], spi, n + 1);
      var m := |rest.events|;
      assert script[..m + 1] == [script[0]] + script[1..][..m];
      AcceptedCons(script, spi, n, m);
    }
  }

  /** Performing `a + b` is performing `a` and, only if `a` succeeded,
      then `b` from the log position where `a` left off. */
  lemma {:induction false} ExecAppend<E>(a: seq<Event>, b: seq<Event>, spi: Device<E>, n: nat)
    ensures var ra := Exec(a, spi, n);
      var rb := Exec(b, spi, n + |a|);
      Exec(a + b, spi, n) == if ra.status.Err? then ra else Run(a + rb.events, rb.status)
    decreases |a|
  {
    if a == [] {
      assert a + b == b;
    } else {
      assert (a + b)[0] == a[0];
      assert (a + b)[1..] == a[1..] + b;
      if !(a[0].Write? && spi(n).Some?) {
        ExecAppend(a[1..], b, spi, n + 1);
        var tail := Exec(b, spi, n + |a|).events;
        assert [a[0]] + (a[1..] + tail) == a + tail by {
          assert [a[0]] + a[1..] == a;
        }
      }
    }
  }

  /** A script without writes cannot fail: it is emitted whole. */
  lemma {:induction false} NoWritesNoFailure<E>(script: seq<Event>, spi: Device<E>, n: nat)
    requires forall k :: 0 <= k < |script| ==> !script[k].Write?
    ensures Exec(script, spi, n) == Run(script, Ok)
    decreases |script|
  {
    if script != [] {
      NoWritesNoFailure(script[1..], spi, n + 1);
      assert [script[0]] + script[1..] == script;
    }
  }

  /** The log went from `log0` to `log1` by performing `script`, with
      outcome `r`. */
  ghost predicate Emits<E>(spi: Device<E>, log0: seq<Event>, log1: seq<Event>, script: seq<Event>, r: Status<E>)
  {
    var run := Exec(script, spi, |log0|);
    log1 == log0 + run.events && r == run.status
  }

  /** Sequencing with `?`: a successful `a` followed by `b` performs
      `a + b`, with `b`'s outcome. */
  lemma Then<E>(spi: Device<E>, log0: seq<Event>, log1: seq<Event>, a: seq<Event>, log2: seq<Event>, b: seq<Event>, r: Status<E>)
    requires Emits(spi, log0, log1, a, Ok) && Emits(spi, log1, log2, b, r)
    ensures Emits(spi, log0, log2, a + b, r)
  {
    var rb := Exec(b, spi, |log1|);
    assert Exec(a, spi, |log0|) == Run(a, Ok) by {
      ExecSucceeds(a, spi, |log0|);
    }
    assert Exec(a + b, spi, |log0|) == Run(a + rb.events, rb.status) by {
      ExecAppend(a, b, spi, |log0|);
    }
    assert log2 == log0 + (a + rb.events) by {
      assert log1 == log0 + a && log2 == log1 + rb.events;
    }
  }

  /** Sequencing with `?`: a failed `a` ends the sequence, whatever
      was to follow it. */
  lemma Stop<E>(spi: Device<E>, log0: seq<Event>, log1: seq<Event>, a: seq<Event>, r: Status<E>, b: seq<Event>)
    requires Emits(spi, log0, log1, a, r) && r.Err?
    ensures Emits(spi, log0, log1, a + b, r)
  {
    ExecAppend(a, b, spi, |log0|);
  }

  /* ---- The scripts each interface operation performs. ---- */

  /** `send_command`: DC low, then the one opcode byte. */
  function CommandScript(c: Command): seq<Event>
  {
    [Dc(false), Write([Opcode(c)])]
  }

  /** `send_data`: DC high, then the bytes as given. */
  function DataScript(bytes: seq<bv8>): seq<Event>
  {
    [Dc(true), Write(bytes)]
  }

  /** A controller register write: `send_command(c)?` followed by
      `send_data(bytes)`. */
  function RegisterScript(c: Command, bytes: seq<bv8>): seq<Event>
  {
    CommandScript(c) + DataScript(bytes)
  }

  /** The `u8` payload bytes the crate spells as integer expressions; the
      conversion is the proof obligation that each value fits in a byte. */
  function Byte(v: int): bv8
    requires 0 <= v < 0x100
  {
    v as bv8
  }

  /** `set_ram_address(x, y)`, with `(y + 7) / 8` computed in `u8` and
      required not to overflow. */
  function RamAddressScript(x: u8, y: u8): seq<Event>
    requires y + 7 < 0x100
  {
    RegisterScript(RamXCount, [Byte(x)]) + RegisterScript(RamYCount, [Byte(y), Byte((y + 7) / 8)])
  }

  /** `write_ram_frame_buffer(buffer, command)`. */
  function FrameScript(buffer: seq<bv8>, c: Command): seq<Event>
  {
    CommandScript(c) + DataScript(buffer)
  }

  /** `hardware_reset`: reset low, 10 ms, reset high. */
  function HardwareResetScript(): seq<Event>
  {
    [ResetPin(false), DelayMs(10), ResetPin(true)]
  }

  /** `software_reset`: the Reset opcode, then wait for the busy line. */
  function SoftwareResetScript(): seq<Event>
  {
    CommandScript(Reset) + [WaitBusyLow]
  }

  /** The configuration block of `power_up`: data entry mode, border
      waveform, VCOM, gate and source voltages, then the RAM counters
      at (1, 0). */
  function ConfigureScript(): seq<Event>
  {
    RegisterScript(DataMode, [0x03]) + RegisterScript(Border, [0x05]) + RegisterScript(Vcom, [0x36])
    + RegisterScript(GateVoltage, [0x17]) + RegisterScript(SourceVoltage, [0x41, 0x00, 0x32])
    + RamAddressScript(1, 0)
  }

  /** The RAM window and driver output control written at the end of
      `power_up`, with the payload bytes derived from the geometry. */
  function RamWindowScript(): seq<Event>
  {
    RegisterScript(RamXPos, [0x01, Byte((DISPLAY_HEIGHT + 7) / 8)])
    + RegisterScript(RamYPos, [0x00, 0x00, Byte(DISPLAY_WIDTH - 1), Byte((DISPLAY_WIDTH + 7) / 8)])
    + RegisterScript(Control, [Byte(DISPLAY_WIDTH - 1), Byte((DISPLAY_WIDTH + 7) / 8), 0x00])
  }

  /** `power_up`. */
  function PowerUpScript(): seq<Event>
  {
    HardwareResetScript() + SoftwareResetScript() + ConfigureScript() + RamWindowScript()
  }

  /** `power_down`: Sleep with payload 0x01. */
  function PowerDownScript(): seq<Event>
  {
    RegisterScript(Sleep, [0x01])
  }

  /** Loading one frame into controller RAM, as both drivers do per
      plane: RAM counters at (1, 0), the RAM-write opcode and the
      buffer, then a busy wait. */
  function LoadFrameScript(buffer: seq<bv8>, c: Command): seq<Event>
  {
    RamAddressScript(1, 0) + FrameScript(buffer, c) + [WaitBusyLow]
  }

  /** Triggering the refresh, as both drivers do: DispCtrl2 with 0xF4,
      MasterActivate, then a busy wait while the panel updates. */
  function ActivateScript(): seq<Event>
  {
    RegisterScript(DispCtrl2, [0xF4]) + CommandScript(MasterActivate) + [WaitBusyLow]
  }

  /** What each interface operation puts on the bus: `send_command` one
      opcode byte in command mode, `send_data` the payload unchanged in
      data mode, `set_ram_address` the two counters in order (the Y
      counter as [y, (y + 7) / 8]), and a frame write the opcode
      followed by the whole buffer in one data write. */
  lemma ScriptContents(c: Command, bytes: seq<bv8>, x: u8, y: u8)
    requires y + 7 < 0x100
    ensures RegisterScript(c, bytes) == [Dc(false), Write([Opcode(c)]), Dc(true), Write(bytes)]
    ensures FrameScript(bytes, c) == RegisterScript(c, bytes)
    ensures RamAddressScript(x, y) ==
      [Dc(false), Write([0x4E]), Dc(true), Write([x as bv8]),
       Dc(false), Write([0x4F]), Dc(true), Write([y as bv8, ((y + 7) / 8) as bv8])]
    ensures SoftwareResetScript() == [Dc(false), Write([0x12]), WaitBusyLow]
    ensures PowerDownScript() == [Dc(false), Write([0x10]), Dc(true), Write([0x01])]
    ensures ActivateScript() == [Dc(false), Write([0x22]), Dc(true), Write([0xF4]), Dc(false), Write([0x20]), WaitBusyLow]
  {
  }

  /** Loading a frame, byte for byte: the RAM counters (1, 0), the
      RAM-write opcode, the whole buffer as one data write, then a busy
      wait. */
  lemma LoadFrameContents(buffer: seq<bv8>, c: Command)
    ensures LoadFrameScript(buffer, c) ==
      [Dc(false), Write([0x4E]), Dc(true), Write([0x01]),
       Dc(false), Write([0x4F]), Dc(true), Write([0x00, 0x00]),
       Dc(false), Write([Opcode(c)]), Dc(true), Write(buffer), WaitBusyLow]
  {
    var zero: u8 := 0;
    ScriptContents(c, buffer, 1, zero);
  }

  /** The configuration block of `power_up`, byte for byte: DataMode
      [0x03], Border [0x05], Vcom [0x36], GateVoltage [0x17],
      SourceVoltage [0x41, 0x00, 0x32], then the RAM counters (1, 0). */
  lemma ConfigureContents()
    ensures ConfigureScript() ==
      [Dc(false), Write([0x11]), Dc(true), Write([0x03]),
       Dc(false), Write([0x3C]), Dc(true), Write([0x05]),
       Dc(false), Write([0x2C]), Dc(true), Write([0x36]),
       Dc(false), Write([0x03]), Dc(true), Write([0x17]),
       Dc(false), Write([0x04]), Dc(true), Write([0x41, 0x00, 0x32]),
       Dc(false), Write([0x4E]), Dc(true), Write([0x01]),
       Dc(false), Write([0x4F]), Dc(true), Write([0x00, 0x00])]
  {
    var zero: u8 := 0;
    ScriptContents(DataMode, [0x03], 1, zero);
  }

  /** The end of `power_up`, byte for byte: the RAM X window [1, 16]
      (16 = ceil(122 / 8)), the RAM Y window [0, 0, 249, 32] and the
      driver output control [249, 32, 0], where 249 = 250 - 1 and
      32 = (250 + 7) / 8. */
  lemma RamWindowContents()
    ensures RamWindowScript() ==
      [Dc(false), Write([0x44]), Dc(true), Write([0x01, 0x10]),
       Dc(false), Write([0x45]), Dc(true), Write([0x00, 0x00, 0xF9, 0x20]),
       Dc(false), Write([0x01]), Dc(true), Write([0xF9, 0x20, 0x00])]
  {
  }

  /** With a device that accepts every write, `power_up` runs to the
      end and emits its whole script. */
  lemma PowerUpAccepted<E>(spi: Device<E>, n: nat)
    requires forall k :: spi(k).None?
    ensures Exec(PowerUpScript(), spi, n) == Run(PowerUpScript(), Ok)
  {
    ExecSucceeds(PowerUpScript(), spi, n);
  }

  /** If the device refuses the software-reset opcode, `power_up` stops
      right there: after the hardware reset only DC low and the refused
      write are emitted, and the device's error is returned. */
  lemma PowerUpResetRefused<E>(spi: Device<E>, n: nat, e: E)
    requires spi(n + 4) == Some(e)
    ensures Exec(PowerUpScript(), spi, n) == Run(HardwareResetScript() + [Dc(false), Write([0x12])], Err(Comm(e)))
  {
    var hr, sr := HardwareResetScript(), SoftwareResetScript();
    var failed := Run(hr + [Dc(false), Write([0x12])], Err(Comm(e)));
    assert Exec(hr + sr, spi, n) == failed by {
      ExecAppend(hr, sr, spi, n);
      NoWritesNoFailure(hr, spi, n);
      assert sr == [Dc(false), Write([0x12]), WaitBusyLow];
    }
    ExecAppend(hr + sr, ConfigureScript(), spi, n);
    ExecAppend(hr + sr + ConfigureScript(), RamWindowScript(), spi, n);
  }

  /** `SpiInterface`: owns the SPI device and the DC, reset and busy
      pins. */
  class SpiInterface<E> {
    /** The device's answers to writes. */
    const spi: Device<E>
    /** Every action performed so far, oldest first. */
    var log: seq<Event>

    /** Since the log was `log0`, exactly what performing `script`
        emits was appended, and `r` is its outcome. */
    ghost predicate Performed(log0: seq<Event>, script: seq<Event>, r: Status<E>)
      reads this
    {
      Emits(spi, log0, log, script, r)
    }

    /** `SpiInterface::new`. */
    constructor (spi: Device<E>)
      ensures this.spi == spi && log == []
    {
      this.spi := spi;
      log := [];
    }

    /** Driving the DC pin; its error type is `Infallible`. */
    method SetDc(high: bool)
      modifies this
      ensures log == old(log) + [Dc(high)]
    {
      log := log + [Dc(high)];
    }

    /** One `spi.write`, failing with `Comm` when the device says so. */
    method SpiWrite(bytes: seq<bv8>) returns (r: Status<E>)
      modifies this
      ensures Performed(old(log), [Write(bytes)], r)
    {
      var answer := spi(|log|);
      r := if answer.Some? then Err(Comm(answer.value)) else Ok;
      log := log + [Write(bytes)];
      assert [Write(bytes)][1..] == [];
    }

    /** `send_command`. */
    method SendCommand(c: Command) returns (r: Status<E>)
      modifies this
      ensures Performed(old(log), CommandScript(c), r)
    {
      SetDc(false);
      r := SpiWrite([Opcode(c)]);
      assert CommandScript(c)[1..] == [Write([Opcode(c)])];
    }

    /** `send_data`. */
    method SendData(bytes: seq<bv8>) returns (r: Status<E>)
      modifies this
      ensures Performed(old(log), DataScript(bytes), r)
    {
      SetDc(true);
      r := SpiWrite(bytes);
      assert DataScript(bytes)[1..] == [Write(bytes)];
    }

    /** `send_command(c).await?; send_data(bytes).await`, the pattern
        every register write of the driver follows. */
    method WriteRegister(c: Command, bytes: seq<bv8>) returns (r: Status<E>)
      modifies this
      ensures Performed(old(log), RegisterScript(c, bytes), r)
    {
      ghost var l0 := log;
      r := SendCommand(c);
      if r.Err? {
        Stop(spi, l0, log, CommandScript(c), r, DataScript(bytes));
        return;
      }
      ghost var l1 := log;
      r := SendData(bytes);
      Then(spi, l0, l1, CommandScript(c), log, DataScript(bytes), r);
    }

    /** `set_ram_address`. */
    method SetRamAddress(x: u8, y: u8) returns (r: Status<E>)
      requires y + 7 < 0x100
      modifies this
      ensures Performed(old(log), RamAddressScript(x, y), r)
    {
      ghost var a, b := RegisterScript(RamXCount, [Byte(x)]), RegisterScript(RamYCount, [Byte(y), Byte((y + 7) / 8)]);
      ghost var l0 := log;
      r := WriteRegister(RamXCount, [Byte(x)]);
      if r.Err? {
        Stop(spi, l0, log, a, r, b);
        return;
      }
      ghost var l1 := log;
      r := WriteRegister(RamYCount, [Byte(y), Byte((y + 7) / 8)]);
      Then(spi, l0, l1, a, log, b, r);
    }

    /** `write_ram_frame_buffer`: the opcode, then DC high and the
        whole buffer in one write. */
    method WriteRamFrameBuffer(buffer: seq<bv8>, c: Command) returns (r: Status<E>)
      modifies this
      ensures Performed(old(log), FrameScript(buffer, c), r)
    {
      ghost var l0 := log;
      r := SendCommand(c);
      if r.Err? {
        Stop(spi, l0, log, CommandScript(c), r, DataScript(buffer));
        return;
      }
      ghost var l1 := log;
      SetDc(true);
      r := SpiWrite(buffer);
      assert DataScript(buffer)[1..] == [Write(buffer)];
      Then(spi, l0, l1, CommandScript(c), log, DataScript(buffer), r);
    }

    /** `hardware_reset`: pin and delay errors are discarded, so it
        always succeeds. */
    method HardwareReset() returns (r: Status<E>)
      modifies this
      ensures r == Ok && Performed(old(log), HardwareResetScript(), r)
    {
      NoWritesNoFailure(HardwareResetScript(), spi, |log|);
      log := log + [ResetPin(false)];
      log := log + [DelayMs(10)];
      log := log + [ResetPin(true)];
      r := Ok;
    }

    /** `busy_wait`: waits for the busy line to go low; the wait's error
        is discarded, so it always succeeds. */
    method BusyWait() returns (r: Status<E>)
      modifies this
      ensures r == Ok && Performed(old(log), [WaitBusyLow], r)
    {
      NoWritesNoFailure([WaitBusyLow], spi, |log|);
      log := log + [WaitBusyLow];
      r := Ok;
    }

    /** `software_reset`. */
    method SoftwareReset() returns (r: Status<E>)
      modifies this
      ensures Performed(old(log), SoftwareResetScript(), r)
    {
      ghost var l0 := log;
      r := SendCommand(Reset);
      if r.Err? {
        Stop(spi, l0, log, CommandScript(Reset), r, [WaitBusyLow]);
        return;
      }
      ghost var l1 := log;
      r := BusyWait();
      Then(spi, l0, l1, CommandScript(Reset), log, [WaitBusyLow], r);
    }

    /** The configuration block of `power_up`. */
    method Configure() returns (r: Status<E>)
      modifies this
      ensures Performed(old(log), ConfigureScript(), r)
    {
      ghost var a, b, c := RegisterScript(DataMode, [0x03]), RegisterScript(Border, [0x05]), RegisterScript(Vcom, [0x36]);
      ghost var d, e, f := RegisterScript(GateVoltage, [0x17]), RegisterScript(SourceVoltage, [0x41, 0x00, 0x32]), RamAddressScript(1, 0);
      ghost var l0 := log;
      r := WriteRegister(DataMode, [0x03]);
      if r.Err? {
        Stop(spi, l0, log, a, r, b);
        Stop(spi, l0, log, a + b, r, c);
        Stop(spi, l0, log, a + b + c, r, d);
        Stop(spi, l0, log, a + b + c + d, r, e);
        Stop(spi, l0, log, a + b + c + d + e, r, f);
        return;
      }
      ghost var l1 := log;
      r := WriteRegister(Border, [0x05]);
      Then(spi, l0, l1, a, log, b, r);
      if r.Err? {
        Stop(spi, l0, log, a + b, r, c);
        Stop(spi, l0, log, a + b + c, r, d);
        Stop(spi, l0, log, a + b + c + d, r, e);
        Stop(spi, l0, log, a + b + c + d + e, r, f);
        return;
      }
      ghost var l2 := log;
      r := WriteRegister(Vcom, [0x36]);
      Then(spi, l0, l2, a + b, log, c, r);
      if r.Err? {
        Stop(spi, l0, log, a + b + c, r, d);
        Stop(spi, l0, log, a + b + c + d, r, e);
        Stop(spi, l0, log, a + b + c + d + e, r, f);
        return;
      }
      ghost var l3 := log;
      r := WriteRegister(GateVoltage, [0x17]);
      Then(spi, l0, l3, a + b + c, log, d, r);
      if r.Err? {
        Stop(spi, l0, log, a + b + c + d, r, e);
        Stop(spi, l0, log, a + b + c + d + e, r, f);
        return;
      }
      ghost var l4 := log;
      r := WriteRegister(SourceVoltage, [0x41, 0x00, 0x32]);
      Then(spi, l0, l4, a + b + c + d, log, e, r);
      if r.Err? {
        Stop(spi, l0, log, a + b + c + d + e, r, f);
        return;
      }
      ghost var l5 := log;
      r := SetRamAddress(1, 0);
      Then(spi, l0, l5, a + b + c + d + e, log, f, r);
    }

    /** The RAM window and driver output control of `power_up`. */
    method SetRamWindow() returns (r: Status<E>)
      modifies this
      ensures Performed(old(log), RamWindowScript(), r)
    {
      ghost var a := RegisterScript(RamXPos, [0x01, Byte((DISPLAY_HEIGHT + 7) / 8)]);
      ghost var b := RegisterScript(RamYPos, [0x00, 0x00, Byte(DISPLAY_WIDTH - 1), Byte((DISPLAY_WIDTH + 7) / 8)]);
      ghost var c := RegisterScript(Control, [Byte(DISPLAY_WIDTH - 1), Byte((DISPLAY_WIDTH + 7) / 8), 0x00]);
      ghost var l0 := log;
      r := WriteRegister(RamXPos, [0x01, Byte((DISPLAY_HEIGHT + 7) / 8)]);
      if r.Err? {
        Stop(spi, l0, log, a, r, b);
        Stop(spi, l0, log, a + b, r, c);
        return;
      }
      ghost var l1 := log;
      r := WriteRegister(RamYPos, [0x00, 0x00, Byte(DISPLAY_WIDTH - 1), Byte((DISPLAY_WIDTH + 7) / 8)]);
      Then(spi, l0, l1, a, log, b, r);
      if r.Err? {
        Stop(spi, l0, log, a + b, r, c);
        return;
      }
      ghost var l2 := log;
      r := WriteRegister(Control, [Byte(DISPLAY_WIDTH - 1), Byte((DISPLAY_WIDTH + 7) / 8), 0x00]);
      Then(spi, l0, l2, a + b, log, c, r);
    }

    /** `power_up`. */
    method PowerUp() returns (r: Status<E>)
      modifies this
      ensures Performed(old(log), PowerUpScript(), r)
    {
      ghost var a, b, c, d := HardwareResetScript(), SoftwareResetScript(), ConfigureScript(), RamWindowScript();
      ghost var l0 := log;
      r := HardwareReset();
      ghost var l1 := log;
      r := SoftwareReset();
      Then(spi, l0, l1, a, log, b, r);
      if r.Err? {
        Stop(spi, l0, log, a + b, r, c);
        Stop(spi, l0, log, a + b + c, r, d);
        return;
      }
      ghost var l2 := log;
      r := Configure();
      Then(spi, l0, l2, a + b, log, c, r);
      if r.Err? {
        Stop(spi, l0, log, a + b + c, r, d);
        return;
      }
      ghost var l3 := log;
      r := SetRamWindow();
      Then(spi, l0, l3, a + b + c, log, d, r);
    }

    /** `power_down`. */
    method PowerDown() returns (r: Status<E>)
      modifies this
      ensures Performed(old(log), PowerDownScript(), r)
    {
      r := WriteRegister(Sleep, [0x01]);
    }

    /** Loading one frame into controller RAM: `set_ram_address(1, 0)?`,
        `write_ram_frame_buffer(buffer, c)?`, `busy_wait()`. */
    method LoadFrame(buffer: seq<bv8>, c: Command) returns (r: Status<E>)
      modifies this
      ensures Performed(old(log), LoadFrameScript(buffer, c), r)
    {
      ghost var a, b := RamAddressScript(1, 0), FrameScript(buffer, c);
      ghost var l0 := log;
      r := SetRamAddress(1, 0);
      if r.Err? {
        Stop(spi, l0, log, a, r, b);
        Stop(spi, l0, log, a + b, r, [WaitBusyLow]);
        return;
      }
      ghost var l1 := log;
      r := WriteRamFrameBuffer(buffer, c);
      Then(spi, l0, l1, a, log, b, r);
      if r.Err? {
        Stop(spi, l0, log, a + b, r, [WaitBusyLow]);
        return;
      }
      ghost var l2 := log;
      r := BusyWait();
      Then(spi, l0, l2, a + b, log, [WaitBusyLow], r);
    }

    /** Triggering the refresh: `send_command(DispCtrl2)?`,
        `send_data(&[0xF4])?`, `send_command(MasterActivate)?`,
        `busy_wait()`. */
    method ActivateUpdate() returns (r: Status<E>)
      modifies this
      ensures Performed(old(log), ActivateScript(), r)
    {
      ghost var a, b := RegisterScript(DispCtrl2, [0xF4]), CommandScript(MasterActivate);
      ghost var l0 := log;
      r := WriteRegister(DispCtrl2, [0xF4]);
      if r.Err? {
        Stop(spi, l0, log, a, r, b);
        Stop(spi, l0, log, a + b, r, [WaitBusyLow]);
        return;
      }
      ghost var l1 := log;
      r := SendCommand(MasterActivate);
      Then(spi, l0, l1, a, log, b, r);
      if r.Err? {
        Stop(spi, l0, log, a + b, r, [WaitBusyLow]);
        return;
      }
      ghost var l2 := log;
      r := BusyWait();
      Then(spi, l0, l2, a + b, log, [WaitBusyLow], r);
    }
  }
}
