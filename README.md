# Radio transmit path of the tmk_core PJRC keyboard firmware

This project models the path that sends keyboard reports and AT commands to a
Bluefruit LE module over UART1. The path has three parts.

- **The transmit queue** (common/uart.c, common/uart.h) is a 256-byte buffer,
  `xmit_buf`, with `uint8_t` head and tail indices. The producers
  `uart_xmit` and `uart_xmit_str` append bytes to it. The pump
  `send_xmit_buf` moves at most one byte per call into the UART data
  register and drives the CTS line.
- **The report encoder** (protocol/pjrc/usb_keyboard.c) is `send_report_ble`.
  It renders report bytes as `AT+BLEKEYBOARDCODE=` followed by lowercase
  two-digit hex pairs joined by `-` and a carriage return, and queues the
  result. `usb_keyboard_send_report` chooses between the NKRO endpoint, the
  radio and the wired keyboard endpoint, and resets the idle count on success.
- **Start-up and the main loop** (protocol/pjrc/main.c) queue four bring-up
  AT commands and then alternate `keyboard_task` with one `send_xmit_buf`.

The Dafny files mirror the C sources:

- `bytes.dfy` (module `Bytes`) holds the byte types and ASCII literals.
- `uart.dfy` (module `Uart`) holds the queue, in two forms:
  - a pure state machine `Tx` with the functions `Push`, `PushAll`, `Pump` and `Drain`, and lemmas about them;
  - a class `Transmitter` over an `array<uint8>`, whose methods update the indices and CTS in place.
    Each method is proved to move the state exactly as the pure function does.
- `usb_keyboard.dfy` (module `UsbKeyboard`) holds the report encoder and path selection.
  The hex rendering is the function `ReportCommand`. `ParseReportCommand` is its inverse.
- `main.dfy` (module `PjrcMain`) holds the bring-up sequence and one main-loop iteration.

Hardware inputs are boolean parameters: the UDRE1 "data register empty" bit and
the PINB7 RTS bit. Writes to UDR1 extend a ghost `wire` sequence, and the CTS
pin (PORTD bit 5) is a boolean field.

The model keeps the following behaviours of the code as written:

- `BUFFER_LEN` is 256 but the indices are `uint8_t`. The guard
  `tail == BUFFER_LEN` in `uart_xmit`, commented "Buffer full, do nothing"
  (common/uart.c:54-57), is meant to refuse bytes once the buffer is full.
  It can never hold, so the tail wraps from 255 to 0 (`Uart.PushWraps`).
  The effect depends on `head` at the moment of the wrap:
  - If `head` is above 0, the two indices behave as a 256-slot ring. From
    any non-empty state, the ready pumps send the bytes from `head` round to
    `tail` in order and reset both indices when they meet (`Uart.RingWraps`,
    `Uart.RingDrains`).
  - If 256 bytes are pending with `head` at 0, `tail` lands on 0 too. The
    queue then reads as empty and none of those bytes is ever sent
    (`Uart.PushWraps`, `Uart.WrapLosesAll`). `head` can also be back at 0
    through its own wrap, so this needs 256 pending bytes, not 256 bytes
    since the last reset.
  - If 256 bytes are pending with `head` above 0, `tail` comes round to
    `head`. Nothing is lost yet: the state does not read as empty, and 256
    ready pumps send all 256 slots in order, from `head` round to
    `head - 1`, then reset both indices (`Uart.FullRingDrains`).
  - One more `uart_xmit` on such a full ring overwrites slot `head` and
    moves `tail` to `head + 1`. The next ready pump sends only that new
    byte and resets both indices, so the other 255 pending bytes are lost
    (`Uart.OverflowLosesPending`).
  The model follows the code.
- The queue counts as empty only when `head == 0 && tail == 0`.
- CTS is driven low after every byte sent. It is not held until the queue
  empties.
- The RTS test has its `return` commented out, so RTS never changes what
  the pump does.
- `AT+BLEHIDEN=1` is queued with `sizeof(buf)`, so its NUL byte goes
  out. The report prefix is queued with `sizeof - 1`, so it sends 19 bytes.

## Model

| member | source | states |
|---|---|---|
| Uart.Inc8 | common/uart.c:61 | incrementing a `uint8_t` index gives (x + 1) mod 256 |
| Uart.Pending | common/uart.c:16-17 | the queued bytes are the `tail - head` slots from head |
| Uart.IsEmpty | common/uart.c:84-87 | defined as both indices 0, the test `send_xmit_buf` makes; its meaning is stated by EmptyTest |
| Uart.EmptyTest | common/uart.c:84-87 | under head <= tail the both-zero test holds exactly when nothing is pending; any state whose equal indices are not 0 does not count as empty |
| Uart.Push | common/uart.c:53-62 | `uart_xmit` on the pure state keeps the 256-slot buffer; its effect is stated by PushAppends and PushWraps |
| Uart.PushAll | common/uart.c:63-67 | `uart_xmit_str` as successive `uart_xmit` calls, in order; keeps the 256-slot buffer |
| Uart.Pump | common/uart.c:77-109 | `send_xmit_buf` on the pure state keeps the 256-slot buffer; its cases are stated by PumpIdle, PumpNotReady, PumpSends and PumpIgnoresRts |
| Uart.Drain | common/uart.h:27-31 | n pump calls with the data register always ready keep the 256-slot buffer; their effect is stated by DrainDelivers |
| Uart.PushAppends | common/uart.c:53-62 | below slot 255, the byte lands at `xmit_buf[tail]` and tail grows by one; head, CTS, the output and every other slot are unchanged; the pending bytes gain `data` at the end |
| Uart.PushWraps | common/uart.c:56-61 | at tail 255 the full guard does not fire: the byte is stored in slot 255 and tail wraps to 0; when head is 0 the queue then reads as empty |
| Uart.PushAllEffect | common/uart.c:63-67 | `size` appends write `data` into slots tail..tail+size-1, leave the other slots alone, and advance tail by size mod 256 |
| Uart.PushAllSnoc | common/uart.c:63-67 | appending a string and then one byte equals appending the longer string |
| Uart.PushAllKeepsOutput | common/uart.h:19-22 | appending never writes to the line, never moves head and never touches CTS |
| Uart.PushAllAppend | common/uart.h:19-22 | appending `a` and then `b` equals appending `a + b` |
| Uart.PushAllPending | common/uart.h:19-22 | without reaching slot 256, the pending bytes become the old pending bytes followed by `data`, and the queue invariant is kept |
| Uart.WrapLosesAll | common/uart.c:56-61 | 256 bytes appended from the reset state fill the buffer, yet the queue then reads as empty, and the pump sends nothing |
| Uart.RingWraps | common/uart.c:56-61 | with head 254 and tail 255, two more bytes go to slots 255 and 0, tail wraps to 1, and three ready pumps send slots 254, 255 and 0 in order and leave the queue empty |
| Uart.PumpIdle | common/uart.c:84-87 | with head and tail both 0 the pump changes nothing: no index, no CTS, no output |
| Uart.PumpNotReady | common/uart.c:89-96 | with bytes queued but UDRE1 clear, only CTS changes, to high; nothing is written |
| Uart.PumpSends | common/uart.c:98-108 | with bytes queued and UDRE1 set, exactly the first pending byte is written; the rest stay pending; both indices return to 0 when that was the last byte; CTS ends low |
| Uart.PumpIgnoresRts | common/uart.c:78-82 | the RTS bit never changes the outcome |
| Uart.PumpAtMostOne | common/uart.h:27-31 | one pump call extends the output by at most one byte, and only at its end |
| Uart.RingDist | common/uart.c:85-105 | read as a ring, the number of ready pumps until head meets tail lies between 1 and 256 (256 when the indices are equal) |
| Uart.RingBytes | common/uart.c:99-105 | the n bytes read going round the 256-slot buffer from slot h, slot (h + j) mod 256 at position j |
| Uart.RingSteps | common/uart.c:99-105 | fewer ready pumps than the ring distance move head round by that many slots mod 256, keep tail and the buffer, send the ring bytes from head in order and leave the queue non-empty |
| Uart.RingDrains | common/uart.c:85-105 | from any non-empty state, ring-distance ready pumps send every byte from head round to tail in order and leave the queue empty |
| Uart.FullRingDrains | common/uart.c:85-105 | with head == tail above 0 the queue is not empty, and 256 ready pumps send slots head..255 then 0..head-1 and reset both indices |
| Uart.OverflowLosesPending | common/uart.c:56-105 | on a full ring one more byte overwrites slot head and sets tail to head + 1; the next ready pump sends only that byte and leaves the queue empty |
| Uart.DrainDelivers | common/uart.c:99-105 | n ready pumps write the first n pending bytes in order, leave the rest pending and keep head <= tail |
| Uart.FifoRoundTrip | common/uart.c:60-61 | fewer than 256 bytes queued from reset and drained come out exactly in order; the queue ends at head == tail == 0, and head <= tail holds after every step |
| Uart.Transmitter.constructor | common/uart.c:11-17 | the buffer starts with 256 zero slots, both indices 0 and nothing sent |
| Uart.Transmitter.ServiceInit | common/uart.c:28-29 | the CTS pin is set high; nothing else changes |
| Uart.Transmitter.CtsEnable | common/uart.c:111-113 | CTS goes high; nothing else changes |
| Uart.Transmitter.CtsDisable | common/uart.c:115-117 | CTS goes low; nothing else changes |
| Uart.Transmitter.Xmit | common/uart.c:53-62 | the object's state moves exactly as Push, head and every other slot of the array are unchanged |
| Uart.Transmitter.XmitStr | common/uart.c:63-67 | the object's state moves exactly as appending `data[0..size)` one byte at a time |
| Uart.Transmitter.SendXmitBuf | common/uart.c:77-109 | the object's state moves exactly as one Pump step |
| UsbKeyboard.HexValue | protocol/pjrc/usb_keyboard.c:143 | a lowercase hex digit has a value below 16 |
| UsbKeyboard.HexDigit | protocol/pjrc/usb_keyboard.c:143 | a nibble is printed as a lowercase hex digit that reads back as the same nibble |
| UsbKeyboard.Hex2 | protocol/pjrc/usb_keyboard.c:143 | `%02x` gives exactly two lowercase hex digits whose value is the byte |
| UsbKeyboard.Item | protocol/pjrc/usb_keyboard.c:143-148 | defined as the hex pair of `raw[i]` followed by a dash unless `i` is the last key; its layout is stated by ItemsLayout |
| UsbKeyboard.Items | protocol/pjrc/usb_keyboard.c:141-149 | defined as the items of keys lo to hi - 1 in increasing order; its properties are stated by ItemsFront, ItemsLayout and ParseItems |
| UsbKeyboard.ReportCommand | protocol/pjrc/usb_keyboard.c:138-151 | defined as the 19-byte prefix, the items of the key range and CR; its properties are stated by ReportCommandLayout and ReportRoundTrip |
| UsbKeyboard.PrefixWithoutNul | protocol/pjrc/usb_keyboard.c:51 | `gatt_cmd` sent with `sizeof - 1` gives 19 bytes ending in `=`, with no NUL among them |
| UsbKeyboard.ParsePayload | protocol/pjrc/usb_keyboard.c:141-149 | the reading side: dash-joined lowercase hex pairs decoded to bytes, failing on anything else; its agreement with the encoder is stated by ParseItems |
| UsbKeyboard.ParseReportCommand | protocol/pjrc/usb_keyboard.c:138-151 | the reading side: strips the prefix and the final CR and decodes the pairs; its agreement with the encoder is stated by ReportRoundTrip |
| UsbKeyboard.ItemsFront | protocol/pjrc/usb_keyboard.c:141-149 | the keys are rendered in increasing index order |
| UsbKeyboard.ItemsLayout | protocol/pjrc/usb_keyboard.c:141-149 | n keys render to 3n bytes, minus one when the range ends at the last key; key i's pair sits at offset 3(i - lo), and a dash follows every key but the last |
| UsbKeyboard.ItemsLength | protocol/pjrc/usb_keyboard.c:141-149 | n keys render to 3n bytes, minus one when the range ends at the last key |
| UsbKeyboard.ItemAt | protocol/pjrc/usb_keyboard.c:141-149 | key i's hex pair sits at offset 3(i - lo), followed by a dash unless i is the last key |
| UsbKeyboard.ItemShape | protocol/pjrc/usb_keyboard.c:143-148 | one loop iteration appends the key's hex pair, and a dash exactly when it is not the last key |
| UsbKeyboard.ReportCommandLayout | protocol/pjrc/usb_keyboard.c:138-151 | the command is 20 bytes for an empty range and 3n + 19 for n keys; it starts with the 19 prefix bytes, ends in 0x0D, and places each key's hex pair and dash |
| UsbKeyboard.ParseItems | protocol/pjrc/usb_keyboard.c:141-149 | decoding the dash-joined hex pairs recovers the key bytes |
| UsbKeyboard.ReportRoundTrip | protocol/pjrc/usb_keyboard.c:138-151 | decoding a rendered command recovers `raw[keys_start..keys_end)` |
| UsbKeyboard.ReportExample | protocol/pjrc/usb_keyboard.c:138-151 | report bytes 0x0a, 0xff render as `AT+BLEKEYBOARDCODE=0a-ff` and a carriage return |
| UsbKeyboard.ReportPath | protocol/pjrc/usb_keyboard.c:61-73 | NKRO exactly when NKRO is built in and on; otherwise the radio exactly when Bluetooth is built in; otherwise the wired endpoint |
| UsbKeyboard.PushNextKey | protocol/pjrc/usb_keyboard.c:141-149 | queuing one more key's item after the earlier keys equals queuing the longer rendering |
| UsbKeyboard.XmitKey | protocol/pjrc/usb_keyboard.c:143-148 | one loop iteration queues the key's hex pair and, unless it is the last key, a dash |
| UsbKeyboard.SendReportBle | protocol/pjrc/usb_keyboard.c:124-154 | raises CTS, queues exactly the rendered command for `raw[keys_start..keys_end)`, and returns 0 |
| UsbKeyboard.KeyboardDriver.constructor | protocol/pjrc/usb_keyboard.c:46 | the idle count starts at 0 |
| UsbKeyboard.KeyboardDriver.SendReport | protocol/pjrc/usb_keyboard.c:57-78 | the radio path queues the rendering of bytes 0..KBD_SIZE and returns 0; the other paths return the wired result and queue nothing; a non-zero result leaves the idle count alone; zero resets it |
| PjrcMain.FirstCr | protocol/pjrc/main.c:100-103 | the first carriage return in a byte string, with none before it |
| PjrcMain.Joined | protocol/pjrc/main.c:100-103 | defined as each command followed by 13, in order, as successive `xmit_cmd` calls queue them; its inverse is stated by LinesJoined |
| PjrcMain.Lines | protocol/pjrc/main.c:100-103 | the reading side: bytes split at each 13 into commands; its agreement with Joined is stated by LinesJoined |
| PjrcMain.BringUpBytes | protocol/pjrc/main.c:73-82 | defined as the four start-up commands joined; its properties are stated by BringUpSplit, BringUpLength, BringUpLines and BringUpDelivered |
| PjrcMain.HidEnableWithNul | protocol/pjrc/main.c:73-74 | `buf` sent with `sizeof(buf)` gives 14 bytes: 13 characters without a NUL, then a 0 byte |
| PjrcMain.LinesJoined | protocol/pjrc/main.c:100-103 | CR-terminated commands without an inner CR split back into exactly those commands |
| PjrcMain.JoinedFour | protocol/pjrc/main.c:73-82 | four commands each followed by 13 are their concatenation in order |
| PjrcMain.BringUpSplit | protocol/pjrc/main.c:73-82 | the bring-up bytes are HIDEN, GATTCLEAR, GATTADDSERVICE and GATTADDCHAR in this order, each followed by 13 |
| PjrcMain.BringUpLength | protocol/pjrc/main.c:73-75 | the bring-up is 176 bytes, under the 256-byte buffer; its first 15 bytes are `AT+BLEHIDEN=1`, a 0x00 and 13 |
| PjrcMain.BringUpLines | protocol/pjrc/main.c:73-82 | split at carriage returns, the bring-up bytes give back the four commands in order |
| PjrcMain.BringUpCrFree | protocol/pjrc/main.c:73-82 | none of the four commands contains byte 13 |
| PjrcMain.HidEnableCrFree | protocol/pjrc/main.c:73 | the HIDEN command with its NUL has no byte 13 |
| PjrcMain.GattClearCrFree | protocol/pjrc/main.c:78 | GATTCLEAR has no byte 13 |
| PjrcMain.GattAddServiceCrFree | protocol/pjrc/main.c:80 | GATTADDSERVICE has no byte 13 |
| PjrcMain.GattAddCharCrFree | protocol/pjrc/main.c:82 | GATTADDCHAR has no byte 13 |
| PjrcMain.BringUpDelivered | protocol/pjrc/main.c:72-84 | from reset, all 176 bring-up bytes are pending at once with tail 176; 176 ready pumps write exactly them in order and leave the queue empty |
| PjrcMain.XmitCmd | protocol/pjrc/main.c:100-103 | the command's characters are queued, then 13 |
| PjrcMain.Startup | protocol/pjrc/main.c:51-82 | CTS is raised and exactly the four bring-up commands, each ending in 13, are queued in order |
| PjrcMain.IterationOutput | protocol/pjrc/main.c:84-96 | one loop iteration only extends the output, by at most one byte |
| PjrcMain.AfterKeyboardTask | protocol/pjrc/main.c:93 | defined as the queue state after the reports `keyboard_task` hands over: a report on the radio path is queued as ReportCommand after CTS goes high; its output effect is stated by IterationOutput |
| PjrcMain.MainLoopIteration | protocol/pjrc/main.c:84-96 | one iteration queues the radio report if there is one, then runs exactly one pump step, so at most one byte leaves; the idle count is reset when a report's path result is 0 and unchanged otherwise |

## Left out

- `send_report`, the wired USB endpoint write with its interrupt masking and frame-counter timeout, is hardware register work. Its return value is the `wiredResult` parameter of `UsbKeyboard.KeyboardDriver.SendReport`.
- `uart_putc` busy-waits on a hardware register and is never called on this path.
- `uart_service_init`'s DDR, UBRR and UCSR register setup depends on `F_CPU`, which is not visible. Only its effect on the queue state is modelled: CTS set high (`Uart.Transmitter.ServiceInit`).
- `uart_receive` and the unused `receiv_buf` are left out: a blocking poll with debug output.
- `usb_keyboard_print_report` and `print_set_sendchar` are debug printing.
- `_delay_ms` affects timing only. Bytes leave only in the main loop, so the delays do not change the output.
- `keyboard_setup`, `keyboard_init`, `keyboard_task`, `ble_init`, `usb_init`, `usb_configured`, `host_set_driver` and `pjrc_driver` are not part of this model. What `keyboard_task` hands to the path is the `Tick` parameter of `PjrcMain.MainLoopIteration`.
- PjrcMain.MainLoopIteration: as a modelling choice, it takes at most one report per iteration. `keyboard_task` is not visible and may send several. Further reports would only add more appends, which `Uart.PushAllKeepsOutput` shows never reach the wire. So the at-most-one-byte bound would still hold, but the model does not state it for several reports.
- `sprintf("%02x")` is replaced by `UsbKeyboard.Hex2`. The NUL that `sprintf` writes into `char_buf[2]` is never sent.
- The endless `while (1)` loop is one call of `PjrcMain.MainLoopIteration`. The effect of many iterations is stated by `Uart.DrainDelivers`, `Uart.FifoRoundTrip` and `PjrcMain.BringUpDelivered`.
- `KBD_SIZE` is defined in usb_keyboard.h, which is not part of this model. It is taken as 8, the boot keyboard report size.
- PjrcMain.XmitCmd: `xmit_cmd` calls `uart_xmit_str(c)` without the size argument the prototype demands. The model queues all characters of `c` and requires fewer than 256 of them, the range a `uint8_t` size can express.
- The `endpoint` argument of `send_report_ble` is unused and is not modelled.
- The wired path, whose result stands in as a parameter, does not touch the transmit queue in the model.
- The `report_keyboard_t` layout of mods and keys is not modelled. A report is its `raw` byte array.
