/**
 * The parts of protocol/pjrc/main.c that drive the radio transmit path: the
 * four AT commands queued for the radio module at start-up, and the main loop
 * that runs one drain step after each keyboard task.
 */
module PjrcMain {

  import opened Bytes
  import opened Uart
  import opened UsbKeyboard

  /** `uint8_t buf[] = "AT+BLEHIDEN=1"`: the array holds the NUL as its 14th byte. */
  const HID_ENABLE: seq<uint8> := Ascii("AT+BLEHIDEN=1") + [0]

  const GATT_CLEAR: seq<uint8> := Ascii("AT+GATTCLEAR")

  // The two long commands are written in pieces so that facts about each
  // literal stay cheap to prove.

  const GATT_ADD_SERVICE: seq<uint8> :=
    Ascii("AT+GATTADDSERVICE=UUID128=") + Ascii("00-19-45-25-A8-50-24-54-") + Ascii("21-76-35-45-15-48-65-25")

  const GATT_ADD_CHAR: seq<uint8> :=
    Ascii("AT+GATTADDCHAR=UUID=0x0001,") + Ascii("PROPERTIES=0x08,") + Ascii("DESCRIPTION=PAYLOAD,DATATYPE=2")

  /** The four start-up commands, in the order they are queued. */
  const BRING_UP: seq<seq<uint8>> := [HID_ENABLE, GATT_CLEAR, GATT_ADD_SERVICE, GATT_ADD_CHAR]

  /** Commands as queued one after another, each followed by a carriage return. */
  function Joined(cmds: seq<seq<uint8>>): seq<uint8>
  {
    if cmds == [] then [] else cmds[0] + [CR] + Joined(cmds[1..])
  }

  /** Index of the first carriage return in `b`. */
  function FirstCr(b: seq<uint8>): (k: nat)
    requires CR in b
    ensures k < |b| && b[k] == CR && CR !in b[..k]
  {
    if b[0] == CR then 0 else 1 + FirstCr(b[1..])
  }

  /** The commands the radio module reads: the byte stream cut at each carriage return. */
  function Lines(b: seq<uint8>): seq<seq<uint8>>
    decreases |b|
  {
    if CR !in b then []
    else
      var k := FirstCr(b);
      [b[..k]] + Lines(b[k + 1..])
  }

  /** The radio module reads back exactly the commands queued, when none holds a carriage return. */
  lemma {:induction false} LinesJoined(cmds: seq<seq<uint8>>)
    requires forall i :: 0 <= i < |cmds| ==> CR !in cmds[i]
    ensures Lines(Joined(cmds)) == cmds
    decreases |cmds|
  {
    if cmds != [] {
      var b := Joined(cmds);
      var c := cmds[0];
      assert b == c + [CR] + Joined(cmds[1..]);
      assert b[|c|] == CR && b[..|c|] == c;
      var k := FirstCr(b);
      assert k == |c|;
      assert b[k + 1..] == Joined(cmds[1..]);
      LinesJoined(cmds[1..]);
      assert cmds == [c] + cmds[1..];
    }
  }

  /** Every byte queued at start-up, in order. */
  function BringUpBytes(): seq<uint8>
  {
    Joined(BRING_UP)
  }

  /** A string without a carriage return gives bytes without one. */
  lemma AsciiNoCr(s: string)
    requires forall c :: c in s ==> c as int < 128
    requires '\r' !in s
    ensures CR !in Ascii(s)
  {
  }

  /** `sizeof(buf)` keeps the NUL: the first command is 13 characters and a 0 byte. */
  lemma HidEnableWithNul()
    ensures |HID_ENABLE| == 14 && HID_ENABLE[13] == 0
    ensures 0 !in HID_ENABLE[..13]
  {
  }

  /** The start-up bytes, command by command. */
  lemma BringUpSplit()
    ensures BringUpBytes()
         == (HID_ENABLE + [CR]) + (GATT_CLEAR + [CR]) + (GATT_ADD_SERVICE + [CR]) + (GATT_ADD_CHAR + [CR])
  {
    JoinedFour(HID_ENABLE, GATT_CLEAR, GATT_ADD_SERVICE, GATT_ADD_CHAR);
  }

  /** Four commands queued one after another. */
  lemma JoinedFour(a: seq<uint8>, b: seq<uint8>, c: seq<uint8>, d: seq<uint8>)
    ensures Joined([a, b, c, d]) == (a + [CR]) + (b + [CR]) + (c + [CR]) + (d + [CR])
  {
    assert [d][1..] == [];
    assert Joined([d]) == d + [CR];
    assert [c, d][1..] == [d];
    assert Joined([c, d]) == (c + [CR]) + (d + [CR]);
    assert [b, c, d][1..] == [c, d];
    assert Joined([b, c, d]) == (b + [CR]) + ((c + [CR]) + (d + [CR]));
    assert [a, b, c, d][1..] == [b, c, d];
  }

  /**
   * Start-up queues 15 + 13 + 74 + 74 = 176 bytes, fewer than `BUFFER_LEN`,
   * and the first command carries its NUL byte before its carriage return.
   */
  lemma BringUpLength()
    ensures |BringUpBytes()| == 176 < BUFFER_LEN
    ensures BringUpBytes()[..15] == Ascii("AT+BLEHIDEN=1") + [0, CR]
  {
    BringUpSplit();
  }

  /** The radio module reads the four start-up commands back in order. */
  lemma BringUpLines()
    ensures Lines(BringUpBytes()) == BRING_UP
  {
    BringUpCrFree();
    LinesJoined(BRING_UP);
  }

  /** None of the start-up commands holds a carriage return of its own. */
  lemma BringUpCrFree()
    ensures forall i :: 0 <= i < |BRING_UP| ==> CR !in BRING_UP[i]
  {
    HidEnableCrFree();
    GattClearCrFree();
    GattAddServiceCrFree();
    GattAddCharCrFree();
  }

  // Each literal is shown free of carriage returns in a lemma of its own, so
  // that no proof has to look at more than one literal character by character.

  lemma HidEnableCrFree()
    ensures CR !in HID_ENABLE
  {
    AsciiNoCr("AT+BLEHIDEN=1");
  }

  lemma NoCrConcat(a: seq<uint8>, b: seq<uint8>, c: seq<uint8>)
    requires CR !in a && CR !in b && CR !in c
    ensures CR !in a + b + c
  {
  }

  lemma GattClearCrFree()
    ensures CR !in GATT_CLEAR
  {
    AsciiNoCr("AT+GATTCLEAR");
  }

  lemma GattAddServiceCrFree()
    ensures CR !in GATT_ADD_SERVICE
  {
    AddServicePieceCrFree();
    UuidHighCrFree();
    UuidLowCrFree();
    NoCrConcat(Ascii("AT+GATTADDSERVICE=UUID128="), Ascii("00-19-45-25-A8-50-24-54-"), Ascii("21-76-35-45-15-48-65-25"));
  }

  lemma AddServicePieceCrFree()
    ensures CR !in Ascii("AT+GATTADDSERVICE=UUID128=")
  {
    AsciiNoCr("AT+GATTADDSERVICE=UUID128=");
  }

  lemma UuidHighCrFree()
    ensures CR !in Ascii("00-19-45-25-A8-50-24-54-")
  {
    AsciiNoCr("00-19-45-25-A8-50-24-54-");
  }

  lemma UuidLowCrFree()
    ensures CR !in Ascii("21-76-35-45-15-48-65-25")
  {
    AsciiNoCr("21-76-35-45-15-48-65-25");
  }

  lemma GattAddCharCrFree()
    ensures CR !in GATT_ADD_CHAR
  {
    AddCharPieceCrFree();
    PropertiesCrFree();
    DescriptionCrFree();
    NoCrConcat(Ascii("AT+GATTADDCHAR=UUID=0x0001,"), Ascii("PROPERTIES=0x08,"), Ascii("DESCRIPTION=PAYLOAD,DATATYPE=2"));
  }

  lemma AddCharPieceCrFree()
    ensures CR !in Ascii("AT+GATTADDCHAR=UUID=0x0001,")
  {
    AsciiNoCr("AT+GATTADDCHAR=UUID=0x0001,");
  }

  lemma PropertiesCrFree()
    ensures CR !in Ascii("PROPERTIES=0x08,")
  {
    AsciiNoCr("PROPERTIES=0x08,");
  }

  lemma DescriptionCrFree()
    ensures CR !in Ascii("DESCRIPTION=PAYLOAD,DATATYPE=2")
  {
    AsciiNoCr("DESCRIPTION=PAYLOAD,DATATYPE=2");
  }

  /**
   * Nothing is drained before the main loop, so from a reset queue all 176
   * bytes are pending at once with none wrapped, and the first 176 loop
   * iterations with UDRE1 set and no report to send put exactly those bytes on
   * the wire, in order, leaving the queue at 0/0.
   */
  lemma BringUpDelivered(s: Tx)
    requires IsReset(s)
    ensures Inv(PushAll(s, BringUpBytes())) && Pending(PushAll(s, BringUpBytes())) == BringUpBytes()
    ensures PushAll(s, BringUpBytes()).tail == 176
    ensures Drain(PushAll(s, BringUpBytes()), 176).wire == s.wire + BringUpBytes()
    ensures IsEmpty(Drain(PushAll(s, BringUpBytes()), 176))
  {
    BringUpLength();
    FifoRoundTrip(s, BringUpBytes());
    PushAllEffect(s, BringUpBytes());
  }

  /**
   * `xmit_cmd`: the characters of `c`, then a carriage return. The call
   * passes no size to `uart_xmit_str`; the model sends every character.
   */
  method XmitCmd(uart: Transmitter, c: seq<uint8>)
    requires uart.Valid() && |c| < 256
    modifies uart`tail, uart.xmitBuf
    ensures uart.State() == PushAll(old(uart.State()), c + [CR])
  {
    ghost var s0 := uart.State();
    uart.XmitStr(c, |c| as uint8);
    assert c[..|c|] == c;
    uart.Xmit(CR);
    PushAllSnoc(s0, c, CR);
  }

  /**
   * Start-up as far as the transmit path goes: `uart_service_init` raises
   * CTS, then the four commands are queued; the first is sent with
   * `sizeof(buf)`, NUL included, and its own carriage return.
   */
  method Startup(uart: Transmitter)
    requires uart.Valid()
    modifies uart`cts, uart`tail, uart.xmitBuf
    ensures uart.State() == PushAll(old(uart.State()).(cts := true), BringUpBytes())
  {
    uart.ServiceInit();
    ghost var s1 := uart.State();
    uart.XmitStr(HID_ENABLE, |HID_ENABLE| as uint8);
    assert HID_ENABLE[..|HID_ENABLE|] == HID_ENABLE;
    uart.Xmit(CR);
    PushAllSnoc(s1, HID_ENABLE, CR);
    ghost var sent := HID_ENABLE + [CR];
    XmitCmd(uart, GATT_CLEAR);
    PushAllAppend(s1, sent, GATT_CLEAR + [CR]);
    sent := sent + (GATT_CLEAR + [CR]);
    XmitCmd(uart, GATT_ADD_SERVICE);
    PushAllAppend(s1, sent, GATT_ADD_SERVICE + [CR]);
    sent := sent + (GATT_ADD_SERVICE + [CR]);
    XmitCmd(uart, GATT_ADD_CHAR);
    PushAllAppend(s1, sent, GATT_ADD_CHAR + [CR]);
    sent := sent + (GATT_ADD_CHAR + [CR]);
    BringUpSplit();
    assert sent == BringUpBytes();
  }

  /**
   * What one call of `keyboard_task` hands to the transmit path, modelled as
   * at most one finished report, with the run-time NKRO flag and the result the wired
   * endpoint write would give; and the two input bits `send_xmit_buf` reads.
   */
  datatype Tick = Tick(report: Option<seq<uint8>>, keyboardNkro: bool, wiredResult: int8,
                       rtsHigh: bool, udre: bool)

  predicate ValidTick(tick: Tick) {
    tick.report.Some? ==> |tick.report.value| >= KBD_SIZE as int
  }

  /** The transmit state after `keyboard_task`: a report on the radio path is queued. */
  function AfterKeyboardTask(s: Tx, build: Build, tick: Tick): Tx
    requires Wf(s) && ValidTick(tick)
  {
    if tick.report.Some? && ReportPath(build, tick.keyboardNkro) == Ble
    then PushAll(s.(cts := true), ReportCommand(tick.report.value, 0, KBD_SIZE))
    else s
  }

  /** One main-loop iteration writes at most one byte, and only extends the wire. */
  lemma IterationOutput(s: Tx, build: Build, tick: Tick)
    requires Wf(s) && ValidTick(tick)
    ensures s.wire <= Pump(AfterKeyboardTask(s, build, tick), tick.rtsHigh, tick.udre).wire
    ensures |Pump(AfterKeyboardTask(s, build, tick), tick.rtsHigh, tick.udre).wire| <= |s.wire| + 1
  {
    var m := AfterKeyboardTask(s, build, tick);
    if tick.report.Some? && ReportPath(build, tick.keyboardNkro) == Ble {
      PushAllKeepsOutput(s.(cts := true), ReportCommand(tick.report.value, 0, KBD_SIZE));
    }
    PumpAtMostOne(m, tick.rtsHigh, tick.udre);
  }

  /** The body of the main `while (1)` loop: `keyboard_task`, then `send_xmit_buf`. */
  method MainLoopIteration(uart: Transmitter, kb: KeyboardDriver, build: Build, tick: Tick)
    requires uart.Valid() && ValidTick(tick)
    modifies uart, uart.xmitBuf, kb`idleCount
    ensures uart.State() == Pump(AfterKeyboardTask(old(uart.State()), build, tick), tick.rtsHigh, tick.udre)
    ensures old(uart.wire) <= uart.wire && |uart.wire| <= |old(uart.wire)| + 1
    ensures tick.report.None? ==> kb.idleCount == old(kb.idleCount)
    ensures tick.report.Some? && (ReportPath(build, tick.keyboardNkro) == Ble || tick.wiredResult == 0)
      ==> kb.idleCount == 0
    ensures tick.report.Some? && ReportPath(build, tick.keyboardNkro) != Ble && tick.wiredResult != 0
      ==> kb.idleCount == old(kb.idleCount)
  {
    ghost var s0 := uart.State();
    if tick.report.Some? {
      var _ := kb.SendReport(uart, tick.report.value, build, tick.keyboardNkro, tick.wiredResult);
    }
    uart.SendXmitBuf(tick.rtsHigh, tick.udre);
    IterationOutput(s0, build, tick);
  }
}
