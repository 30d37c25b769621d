/**
 * The radio report path of protocol/pjrc/usb_keyboard.c: a keyboard report
 * is rendered as the AT command `AT+BLEKEYBOARDCODE=` followed by one
 * lowercase two-digit hex pair per report byte, the pairs joined by `-`, and a
 * carriage return, all appended to the transmit queue; and the choice of path
 * made by `usb_keyboard_send_report`.
 */
module UsbKeyboard {

  import opened Bytes
  import opened Uart

  /** Carriage return, the AT-command terminator. */
  const CR: uint8 := 13

  /** The `-` between two hex pairs. */
  const DASH: uint8 := 45

  /** `gatt_cmd` without its NUL: `sizeof(gatt_cmd) - 1` bytes are sent. */
  const GATT_CMD: seq<uint8> := Ascii("AT+BLEKEYBOARDCODE=")

  /** Size of the keyboard report sent on the radio path (`KBD_SIZE`). */
  const KBD_SIZE: uint8 := 8

  /** The characters `%x` prints: '0'-'9' then 'a'-'f'. */
  predicate IsLowerHex(c: uint8) {
    48 <= c <= 57 || 97 <= c <= 102
  }

  /** The value of one lowercase hex digit. */
  function HexValue(c: uint8): (n: uint8)
    requires IsLowerHex(c)
    ensures n < 16
  {
    if c <= 57 then c - 48 else c - 87
  }

  /** The lowercase hex digit of a nibble. */
  function HexDigit(n: uint8): (c: uint8)
    requires n < 16
    ensures IsLowerHex(c) && HexValue(c) == n
  {
    if n < 10 then 48 + n else 87 + n
  }

  /**
   * What `sprintf(char_buf, "%02x", b)` leaves in the first two characters:
   * two lowercase digits, high nibble first, zero-padded.
   */
  function Hex2(b: uint8): (r: seq<uint8>)
    ensures |r| == 2 && IsLowerHex(r[0]) && IsLowerHex(r[1])
    ensures HexValue(r[0]) as int * 16 + HexValue(r[1]) as int == b as int
  {
    [HexDigit(b / 16), HexDigit(b % 16)]
  }

  /** What one loop iteration of `send_report_ble` appends for key `i`. */
  function Item(raw: seq<uint8>, i: nat, end: nat): seq<uint8>
    requires i < end && i < |raw|
  {
    Hex2(raw[i]) + (if i < end - 1 then [DASH] else [])
  }

  /** What the loop has appended once it has handled keys `lo` up to `hi - 1`. */
  function Items(raw: seq<uint8>, lo: nat, hi: nat, end: nat): seq<uint8>
    requires lo < hi ==> hi <= end && hi <= |raw|
    decreases hi
  {
    if hi <= lo then [] else Items(raw, lo, hi - 1, end) + Item(raw, hi - 1, end)
  }

  /** The whole command `send_report_ble` appends for `raw[keysStart..keysEnd)`. */
  function ReportCommand(raw: seq<uint8>, keysStart: uint8, keysEnd: uint8): seq<uint8>
    requires keysStart < keysEnd ==> keysEnd as int <= |raw|
  {
    GATT_CMD + Items(raw, keysStart as nat, keysEnd as nat, keysEnd as nat) + [CR]
  }

  /** The report bytes the command carries. */
  function KeyRange(raw: seq<uint8>, keysStart: uint8, keysEnd: uint8): seq<uint8>
    requires keysStart < keysEnd ==> keysEnd as int <= |raw|
  {
    if keysStart < keysEnd then raw[keysStart..keysEnd] else []
  }

  /**
   * What the peer module reads from a payload: hex pairs separated by single
   * dashes, with no dash after the last pair; anything else is rejected.
   */
  function ParsePayload(p: seq<uint8>): Option<seq<uint8>>
    decreases |p|
  {
    if p == [] then Some([])
    else if |p| < 2 || !IsLowerHex(p[0]) || !IsLowerHex(p[1]) then None
    else
      var b := (HexValue(p[0]) as int * 16 + HexValue(p[1]) as int) as uint8;
      if |p| == 2 then Some([b])
      else if |p| == 3 || p[2] != DASH then None
      else
        match ParsePayload(p[3..])
        case None => None
        case Some(rest) => Some([b] + rest)
  }

  /** What the peer module reads from a whole report command. */
  function ParseReportCommand(c: seq<uint8>): Option<seq<uint8>>
  {
    if |c| < |GATT_CMD| + 1 || c[..|GATT_CMD|] != GATT_CMD || c[|c| - 1] != CR then None
    else ParsePayload(c[|GATT_CMD|..|c| - 1])
  }

  /** The loop's output read from the front: the first key's item, then the rest. */
  lemma {:induction false} ItemsFront(raw: seq<uint8>, lo: nat, hi: nat, end: nat)
    requires lo < hi <= end <= |raw|
    ensures Items(raw, lo, hi, end) == Item(raw, lo, end) + Items(raw, lo + 1, hi, end)
    decreases hi
  {
    if hi > lo + 1 {
      ItemsFront(raw, lo, hi - 1, end);
    }
  }

  /** Three bytes inside `a` read the same once `b` is appended. */
  lemma AppendKeepsFront(a: seq<uint8>, b: seq<uint8>, k: nat)
    requires k + 3 <= |a|
    ensures (a + b)[k..k + 2] == a[k..k + 2] && (a + b)[k + 2] == a[k + 2]
  {
  }

  /** The first three bytes of `b` read back at the end of `a`. */
  lemma AppendShowsBack(a: seq<uint8>, b: seq<uint8>)
    requires 2 <= |b|
    ensures (a + b)[|a|..|a| + 2] == b[..2]
    ensures 2 < |b| ==> (a + b)[|a| + 2] == b[2]
  {
  }

  /**
   * Layout of the payload: key `i` of the range sits at offset `3 * (i - lo)`
   * as two hex digits, followed by a dash unless it is the last key; the
   * payload is three bytes per key, less the missing final dash.
   */
  lemma ItemsLayout(raw: seq<uint8>, lo: nat, hi: nat, end: nat)
    requires lo <= hi <= end <= |raw|
    ensures |Items(raw, lo, hi, end)| == 3 * (hi - lo) - (if lo < hi == end then 1 else 0)
    ensures forall i: nat :: lo <= i < hi ==>
      && Items(raw, lo, hi, end)[3 * (i - lo)..3 * (i - lo) + 2] == Hex2(raw[i])
      && (i < end - 1 ==> Items(raw, lo, hi, end)[3 * (i - lo) + 2] == DASH)
  {
    ItemsLength(raw, lo, hi, end);
    forall i: nat | lo <= i < hi
      ensures && Items(raw, lo, hi, end)[3 * (i - lo)..3 * (i - lo) + 2] == Hex2(raw[i])
              && (i < end - 1 ==> Items(raw, lo, hi, end)[3 * (i - lo) + 2] == DASH)
    {
      ItemAt(raw, lo, hi, end, i);
    }
  }

  /** The payload is three bytes per key, less the missing final dash. */
  lemma {:induction false} ItemsLength(raw: seq<uint8>, lo: nat, hi: nat, end: nat)
    requires lo <= hi <= end <= |raw|
    ensures |Items(raw, lo, hi, end)| == 3 * (hi - lo) - (if lo < hi == end then 1 else 0)
    decreases hi
  {
    if lo < hi {
      ItemsLength(raw, lo, hi - 1, end);
      ItemShape(raw, hi - 1, end);
    }
  }

  /** Key `i`'s hex pair sits at offset `3 * (i - lo)`, followed by a dash unless it is the last key. */
  lemma {:induction false} ItemAt(raw: seq<uint8>, lo: nat, hi: nat, end: nat, i: nat)
    requires lo <= i < hi <= end <= |raw|
    ensures 3 * (i - lo) + 2 <= |Items(raw, lo, hi, end)|
    ensures Items(raw, lo, hi, end)[3 * (i - lo)..3 * (i - lo) + 2] == Hex2(raw[i])
    ensures i < end - 1 ==>
      3 * (i - lo) + 2 < |Items(raw, lo, hi, end)| && Items(raw, lo, hi, end)[3 * (i - lo) + 2] == DASH
    decreases hi
  {
    var prev, item := Items(raw, lo, hi - 1, end), Item(raw, hi - 1, end);
    assert Items(raw, lo, hi, end) == prev + item;
    ItemsLength(raw, lo, hi - 1, end);
    ItemShape(raw, hi - 1, end);
    if i < hi - 1 {
      ItemAt(raw, lo, hi - 1, end, i);
      AppendKeepsFront(prev, item, 3 * (i - lo));
    } else {
      AppendShowsBack(prev, item);
    }
  }

  /** One key's item: its hex pair, then a dash exactly when it is not the last key. */
  lemma ItemShape(raw: seq<uint8>, i: nat, end: nat)
    requires i < end && i < |raw|
    ensures |Item(raw, i, end)| == if i < end - 1 then 3 else 2
    ensures Item(raw, i, end)[..2] == Hex2(raw[i])
    ensures i < end - 1 ==> Item(raw, i, end)[2] == DASH
  {
  }

  /**
   * Layout of `send_report_ble`'s output: exactly the 19 bytes
   * `AT+BLEKEYBOARDCODE=`, then `raw[i]` as two lowercase digits at offset
   * `19 + 3 * (i - keysStart)`, each pair but the last followed by a dash,
   * then a carriage return as the last byte; 20 bytes for an empty range and
   * `3 * n + 19` for `n >= 1` keys.
   */
  lemma ReportCommandLayout(raw: seq<uint8>, keysStart: uint8, keysEnd: uint8)
    requires keysStart < keysEnd ==> keysEnd as int <= |raw|
    ensures keysEnd <= keysStart ==> |ReportCommand(raw, keysStart, keysEnd)| == 20
    ensures keysStart < keysEnd ==>
      |ReportCommand(raw, keysStart, keysEnd)| == 3 * (keysEnd as int - keysStart as int) + 19
    ensures |GATT_CMD| == 19 && ReportCommand(raw, keysStart, keysEnd)[..19] == GATT_CMD
    ensures ReportCommand(raw, keysStart, keysEnd)[|ReportCommand(raw, keysStart, keysEnd)| - 1] == CR
    ensures forall i :: keysStart as int <= i < keysEnd as int ==>
      && ReportCommand(raw, keysStart, keysEnd)[19 + 3 * (i - keysStart as int)..21 + 3 * (i - keysStart as int)]
         == Hex2(raw[i])
      && (i < keysEnd as int - 1 ==> ReportCommand(raw, keysStart, keysEnd)[21 + 3 * (i - keysStart as int)] == DASH)
  {
    var lo, end := keysStart as nat, keysEnd as nat;
    var c := ReportCommand(raw, keysStart, keysEnd);
    var p := Items(raw, lo, end, end);
    assert c == GATT_CMD + p + [CR];
    if lo < end {
      ItemsLayout(raw, lo, end, end);
      forall i | lo <= i < end
        ensures c[19 + 3 * (i - lo)..21 + 3 * (i - lo)] == Hex2(raw[i])
        ensures i < end - 1 ==> c[21 + 3 * (i - lo)] == DASH
      {
        assert c[19 + 3 * (i - lo)..21 + 3 * (i - lo)] == p[3 * (i - lo)..3 * (i - lo) + 2];
        if i < end - 1 {
          assert c[21 + 3 * (i - lo)] == p[3 * (i - lo) + 2];
        }
      }
    }
  }

  /** Parsing the loop's output over `[lo, end)` gives back `raw[lo..end)`. */
  lemma {:induction false} ParseItems(raw: seq<uint8>, lo: nat, end: nat)
    requires lo < end <= |raw|
    ensures ParsePayload(Items(raw, lo, end, end)) == Some(raw[lo..end])
    decreases end - lo
  {
    var p := Items(raw, lo, end, end);
    ItemsFront(raw, lo, end, end);
    var h := Hex2(raw[lo]);
    assert p[..2] == h;
    if lo + 1 == end {
      assert p == h;
      assert raw[lo..end] == [raw[lo]];
    } else {
      ParseItems(raw, lo + 1, end);
      assert p[2] == DASH;
      assert p[3..] == Items(raw, lo + 1, end, end);
      assert raw[lo..end] == [raw[lo]] + raw[lo + 1..end];
    }
  }

  /**
   * Round trip: the peer module, parsing the command, recovers exactly the
   * report bytes `raw[keysStart..keysEnd)`.
   */
  lemma ReportRoundTrip(raw: seq<uint8>, keysStart: uint8, keysEnd: uint8)
    requires keysStart < keysEnd ==> keysEnd as int <= |raw|
    ensures ParseReportCommand(ReportCommand(raw, keysStart, keysEnd)) == Some(KeyRange(raw, keysStart, keysEnd))
  {
    var c := ReportCommand(raw, keysStart, keysEnd);
    var p := Items(raw, keysStart as nat, keysEnd as nat, keysEnd as nat);
    assert c[..|GATT_CMD|] == GATT_CMD;
    assert c[|GATT_CMD|..|c| - 1] == p;
    if keysStart < keysEnd {
      ParseItems(raw, keysStart as nat, keysEnd as nat);
    }
  }

  /** The report `[0x0a, 0xff]` over `[0, 2)` is sent as `AT+BLEKEYBOARDCODE=0a-ff` and CR. */
  lemma ReportExample()
    ensures ReportCommand([0x0a, 0xff], 0, 2) == Ascii("AT+BLEKEYBOARDCODE=0a-ff\r")
  {
    assert Items([0x0a, 0xff], 0, 2, 2) == [48, 97, DASH, 102, 102];
  }

  /** `sizeof(gatt_cmd) - 1` leaves the NUL out: the prefix is 19 characters, none of them 0. */
  lemma PrefixWithoutNul()
    ensures |GATT_CMD| == 19 && 0 !in GATT_CMD
    ensures GATT_CMD[18] == '=' as int as uint8
  {
  }

  /** The path `usb_keyboard_send_report` takes for one report. */
  datatype Path =
    | Nkro   // wired, on the NKRO endpoint
    | Ble    // radio, through the transmit queue
    | Wired  // wired, on the keyboard endpoint

  /** Build-time switches `NKRO_ENABLE` and `BLUETOOTH_ENABLE`. */
  datatype Build = Build(nkroEnable: bool, bluetoothEnable: bool)

  /**
   * The path is NKRO exactly when NKRO is built in and on; otherwise radio
   * exactly when Bluetooth is built in; otherwise the wired keyboard endpoint.
   */
  function ReportPath(build: Build, keyboardNkro: bool): (p: Path)
    ensures p == Nkro <==> build.nkroEnable && keyboardNkro
    ensures p == Ble <==> build.bluetoothEnable && !(build.nkroEnable && keyboardNkro)
  {
    if build.nkroEnable && keyboardNkro then Nkro
    else if build.bluetoothEnable then Ble
    else Wired
  }

  /** Appending key `i`'s item after a prefix and keys `lo` to `i - 1` is appending up to key `i`. */
  lemma PushNextKey(s: Tx, prefix: seq<uint8>, raw: seq<uint8>, lo: nat, i: nat, end: nat)
    requires Wf(s) && lo <= i < end <= |raw|
    ensures PushAll(PushAll(s, prefix + Items(raw, lo, i, end)), Item(raw, i, end))
         == PushAll(s, prefix + Items(raw, lo, i + 1, end))
  {
    PushAllAppend(s, prefix + Items(raw, lo, i, end), Item(raw, i, end));
    assert prefix + Items(raw, lo, i, end) + Item(raw, i, end) == prefix + Items(raw, lo, i + 1, end);
  }

  /** One iteration of `send_report_ble`'s loop: the hex pair of `raw[i]`, then a dash unless `i` is the last key. */
  method XmitKey(uart: Transmitter, raw: seq<uint8>, i: uint8, keysEnd: uint8)
    requires uart.Valid() && i < keysEnd && keysEnd as int <= |raw|
    modifies uart`tail, uart.xmitBuf
    ensures uart.State() == PushAll(old(uart.State()), Item(raw, i as nat, keysEnd as nat))
  {
    ghost var s0 := uart.State();
    var pair := Hex2(raw[i]);
    uart.Xmit(pair[0]);
    PushAllSnoc(s0, [], pair[0]);
    assert uart.State() == PushAll(s0, [pair[0]]);
    uart.Xmit(pair[1]);
    PushAllSnoc(s0, [pair[0]], pair[1]);
    assert [pair[0]] + [pair[1]] == pair;
    assert uart.State() == PushAll(s0, pair);
    if (i as int) < keysEnd as int - 1 {
      uart.Xmit(DASH);
      PushAllSnoc(s0, pair, DASH);
      assert Item(raw, i as nat, keysEnd as nat) == pair + [DASH];
    } else {
      assert Item(raw, i as nat, keysEnd as nat) == pair;
    }
  }

  /** `send_report_ble`: render `raw[keysStart..keysEnd)` onto the transmit queue. */
  method SendReportBle(uart: Transmitter, raw: seq<uint8>, keysStart: uint8, keysEnd: uint8)
    returns (result: int8)
    requires uart.Valid()
    requires keysStart < keysEnd ==> keysEnd as int <= |raw|
    modifies uart`cts, uart`tail, uart.xmitBuf
    ensures result == 0
    ensures uart.State() == PushAll(old(uart.State()).(cts := true), ReportCommand(raw, keysStart, keysEnd))
  {
    uart.ServiceInit();
    ghost var s1 := uart.State();
    uart.XmitStr(GATT_CMD, |GATT_CMD| as uint8);
    assert GATT_CMD[..|GATT_CMD|] == GATT_CMD + [];
    var i := keysStart;
    while i < keysEnd
      invariant keysStart <= i && (keysStart < keysEnd ==> i <= keysEnd)
      invariant keysEnd <= keysStart ==> i == keysStart
      invariant uart.State() == PushAll(s1, GATT_CMD + Items(raw, keysStart as nat, i as nat, keysEnd as nat))
    {
      XmitKey(uart, raw, i, keysEnd);
      PushNextKey(s1, GATT_CMD, raw, keysStart as nat, i as nat, keysEnd as nat);
      i := i + 1;
    }
    ghost var body := GATT_CMD + Items(raw, keysStart as nat, i as nat, keysEnd as nat);
    assert body + [CR] == ReportCommand(raw, keysStart, keysEnd);
    uart.Xmit(CR);
    PushAllSnoc(s1, body, CR);
    result := 0;
  }

  /** The global `usb_keyboard_idle_count`, updated in place. */
  class KeyboardDriver {
    var idleCount: uint8

    constructor ()
      ensures idleCount == 0
    {
      idleCount := 0;
    }

    /**
     * `usb_keyboard_send_report`: send `raw` on the chosen path. The wired
     * endpoint write is not modelled; `wiredResult` stands for what it
     * returns. A non-zero result is passed back and leaves the idle count
     * alone; zero resets the idle count.
     */
    method SendReport(uart: Transmitter, raw: seq<uint8>, build: Build, keyboardNkro: bool, wiredResult: int8)
      returns (result: int8)
      requires uart.Valid() && |raw| >= KBD_SIZE as int
      modifies this`idleCount, uart`cts, uart`tail, uart.xmitBuf
      ensures ReportPath(build, keyboardNkro) == Ble ==>
        result == 0 && uart.State() == PushAll(old(uart.State()).(cts := true), ReportCommand(raw, 0, KBD_SIZE))
      ensures ReportPath(build, keyboardNkro) != Ble ==>
        result == wiredResult && uart.State() == old(uart.State())
      ensures result != 0 ==> idleCount == old(idleCount)
      ensures result == 0 ==> idleCount == 0
    {
      var path := ReportPath(build, keyboardNkro);
      if path == Ble {
        result := SendReportBle(uart, raw, 0, KBD_SIZE);
      } else {
        result := wiredResult;
      }
      if result != 0 {
        return;
      }
      idleCount := 0;
    }
  }
}
