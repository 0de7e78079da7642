# FEFE fridge protocol core — a Dafny model

This project models the protocol core of an ESP32 firmware that monitors a
BLE compressor fridge ("WT-0001") speaking the "FE FE" framing. It covers:

- the additive frame checksum (`calculateChecksum`);
- the single-zone query-response decoder (`decodeFridgeQuerySingleZone`)
  with its rejection ladder, and the `FridgeStatus_t` field layout;
- the two fixed outbound commands (`buildQueryCommand`, `buildBindCommand`);
- the session logic held in globals: the `doConnect` and `connected`
  flags, the write-characteristic handle, the 60 000 ms query timer on a
  wrapping 32-bit clock, and the single-slot notification buffer with its
  "new data" flag;
- the labels `loop()` prints for a decoded status.

Everything is pure: bytes are `int`s in `0..255`, `int8_t` and the 16- and
32-bit unsigned types are bounded subset types, and every wrap-around is an
explicit `%`. Transport events are inputs of a step function
(`Session.Step`); a command handed to the write characteristic is an output
frame. Files: `results.dfy` (Option/Result), `bytes.dfy` (fixed-width
arithmetic), `checksum.dfy`, `frame_codec.dfy`, `as_written.dfy` (the
decoder with its 16-bit offset, see Findings), `presenter.dfy`,
`session.dfy`.

Points about the code's behaviour that the model makes explicit:

- The outbound query is `FE FE 03 01 02 00`. Its last two bytes `02 00` are
  the big-endian additive checksum of `FE FE 03 01`
  (`FrameCodec.BuildQueryCommand` proves it satisfies the same framing
  invariant as a response). The bind frame is the query plus `FF`.
- `onDisconnect` only clears `connected`; the write-characteristic handle is
  not reset (`Session.OnDisconnect`).
- The decoder returns a bare `false` on every failure. `DecodeError` names
  the four return sites (too short, bad sync, other command, checksum).
- The declared-length byte is read but never checked. It is still part of
  the checksummed bytes, so corrupting it is detected.
- The session state is the `doConnect`, `connected` and write-handle
  globals, the timer and the notification buffer with its flag
  (`Session.State`).
- The second `length < 24` test (line 113) can never fire after the first;
  the ladder has one length rung.
- `loop()` reads the clock twice: inside `connectToServer` (timer rewind)
  and before the query gate. These are two parameters of a loop pass.

## Model

| member | source | states |
|---|---|---|
| Bytes.ToInt8 | src/main.cpp:129-139 | `(int8_t)b` is the two's-complement reading: congruent to the byte mod 256, negative exactly for bytes 0x80 and above |
| Bytes.Int8RoundTrip | src/main.cpp:129-139 | reinterpreting a byte as int8 and storing it back gives the same byte |
| Bytes.BigEndian16 | src/main.cpp:115 | `(hi << 8) \| lo` is the 16-bit value whose high byte is `hi` and low byte is `lo` |
| Bytes.WrapSub32 | src/main.cpp:340 | `now - lastQueryMillis` on unsigned long is the difference modulo 2^32, adding 2^32 when the clock has rolled over |
| Bytes.ElapsedAcrossWrap | src/main.cpp:339-340 | for true times less than 2^32 ms apart, the wrapped difference of the clock readings equals the true elapsed time |
| Checksum.Accumulate | src/main.cpp:88-91 | the 32-bit accumulator after the loop equals the byte sum modulo 2^32 |
| Checksum.FrameChecksum | src/main.cpp:87-93 | the checksum is the byte sum modulo 65536, and 0 for an empty range |
| Checksum.CalculateChecksum | src/main.cpp:87-93 | the loop with a wrapping 32-bit accumulator, masked to 16 bits, returns the byte sum of the first `len` bytes modulo 65536 |
| Checksum.SingleByteChangeDetected | src/main.cpp:116-117 | changing any one byte of a checksummed range always changes its checksum |
| FrameCodec.StatusOfPayload | src/main.cpp:122-142 | payload bytes 0..17 map onto the 18 fields: flags true iff the byte is 1, signed fields stored in two's complement, unsigned fields copied |
| FrameCodec.CanonicalPayloadRoundTrip | src/main.cpp:125-142 | a payload whose flag bytes are 0 or 1 is recovered exactly from the status it decodes to |
| FrameCodec.PayloadRoundTrip | src/main.cpp:125-142 | every status is recovered from its canonical payload |
| FrameCodec.HeaderError | src/main.cpp:102-110 | no header error exactly when length is at least 24, both sync bytes are FE and the command is 01 |
| FrameCodec.Decode | src/main.cpp:100-145 | each rejection happens exactly under its condition, checked in the firmware's order; success iff the header passes and the last two bytes are the checksum of all bytes before them; on success the status is the mapping of bytes 4..21 |
| FrameCodec.DecodeFridgeQuerySingleZone | src/main.cpp:100-145 | the by-reference status is untouched on every rejection and set to the decoded status on success |
| FrameCodec.EncodeResponse | src/main.cpp:96-98 | the reference encoder yields a 24-byte frame that passes the header checks, carries the canonical payload and satisfies the checksum invariant |
| FrameCodec.DecodeEncodeRoundTrip | src/main.cpp:100-145 | decoding the encoding of any status, with any declared-length byte, returns that status |
| FrameCodec.AcceptedFrameIsEncoding | src/main.cpp:100-145 | an accepted 24-byte frame with 0/1 flag bytes is exactly the encoding of its decoded status |
| FrameCodec.CorruptionDetected | src/main.cpp:112-120 | changing the declared-length byte or any byte between the command and the stored checksum of an accepted frame makes decoding fail with a checksum mismatch |
| FrameCodec.DecodeReadsOnlyPayload | src/main.cpp:105-142 | two accepted frames with the same payload bytes decode to the same status; the declared length plays no part |
| FrameCodec.BuildQueryCommand | src/main.cpp:151-160 | the query is six bytes: sync FE FE, length 03, the query command 01, then the big-endian checksum of those four bytes |
| FrameCodec.BuildBindCommand | src/main.cpp:166-176 | the bind is the query followed by FF |
| FrameCodec.BuildersIgnorePriorContents | src/main.cpp:151-176 | both builders clear the buffer: the result does not depend on its previous contents |
| FrameCodec.CommandLiterals | src/main.cpp:151-176 | the wire bytes are exactly FE FE 03 01 02 00 and FE FE 03 01 02 00 FF |
| FrameCodec.CommandsNeverDecode | src/main.cpp:102 | an echoed query or bind is rejected as too short, never mistaken for a status |
| AsWritten.ChecksumOffset16 | src/main.cpp:114 | the offset as computed in 16 bits equals `length - 2` below 65538 and wraps above |
| AsWritten.DecodeAsWritten | src/main.cpp:100-145 | the decoder with the 16-bit offset: same header rejections, checksum compared at the wrapped offset |
| AsWritten.AsWrittenAgreesBelowWrap | src/main.cpp:114 | below 65538 bytes the decoder as written and the corrected decoder agree on every input |
| AsWritten.EntryPointAgreesBelowWrap | src/main.cpp:100-145 | below 65538 bytes the by-reference entry point returns true exactly when the decoder as written accepts, and stores the status it decodes |
| AsWritten.AsWrittenIgnoresTailPastWrap | src/main.cpp:114-116 | as written, a 24-byte frame followed by any 65536 bytes decodes exactly as the 24-byte frame alone |
| AsWritten.TruncatedOffsetAcceptsBadFrame | src/main.cpp:114-120 | a concrete 65560-byte frame is accepted as written but rejected by the corrected decoder |
| Presenter.RunModeLabel | src/main.cpp:377-380 | MAX iff code 0, ECO iff code 1, UNKNOWN iff any other code |
| Presenter.BatSaverLabel | src/main.cpp:384-388 | Low, Mid, High iff code 0, 1, 2; Unknown iff any other code |
| Presenter.UnitLabel | src/main.cpp:392-393 | °C iff unit 0, °F for every other unit code |
| Presenter.VoltageTenths | src/main.cpp:407-408 | the voltage in tenths splits back into the whole volts and the tenths byte when the tenths byte is below 10; a larger tenths byte carries into the volts |
| Presenter.Present | src/main.cpp:367-411 | the printed view: YES iff locked and NO otherwise, ON iff powered and OFF otherwise, the three labels, both temperatures, battery percent and voltage |
| Presenter.LabelsDetermineKnownCodes | src/main.cpp:377-388 | distinct known run-mode and battery-saver codes have distinct labels |
| Presenter.VoltageExample | src/main.cpp:407-411 | 12 volts and 8 tenths read as 12.8 V |
| Session.OnResult | src/main.cpp:205-215 | a scan result requests a connection iff it advertises the name WT-0001; nothing else changes |
| Session.Scan | src/main.cpp:324-329 | after a scan a connection is requested iff one was before or some result advertised WT-0001 |
| Session.OnDisconnect | src/main.cpp:225-228 | a disconnect clears `connected` and changes nothing else, the write handle included |
| Session.NotifyCallback | src/main.cpp:189-198 | after a notification the buffer is exactly the new bytes and the flag is set; nothing else changes |
| Session.LatestNotificationWins | src/main.cpp:189-198 | two notifications without a drain leave the same state as the second alone |
| Session.ConnectToServer | src/main.cpp:239-302 | only a complete connect sets `connected`, sends exactly the bind frame and rewinds the timer to `now - 60000` mod 2^32; each earlier failure leaves the globals as the code leaves them |
| Session.Render | src/main.cpp:357-366 | a drained buffer is shown decoded iff it decodes, otherwise as its raw bytes; for every buffer a BLE attribute value can carry, decoded iff the decoder as written accepts it, with the view of the status it stores |
| Session.LoopPass | src/main.cpp:323-416 | bind is sent iff a connect is attempted and completes; a query is sent only when connected with a write handle and then sets the timer to now, and without a query the timer is the one connectToServer leaves (or the old one when no connect is attempted); after a connect attempt the write handle is the one connectToServer leaves; with a connect attempt a query is sent iff the interval has elapsed on the state the connect leaves; without one a query is sent iff a full interval has elapsed and the write handle is unchanged; only bind and query frames are sent, and two frames are bind then query; the flag is always cleared and a report is shown iff it was set |
| Session.Step | src/main.cpp:183-228 | a notification or disconnect event changes the state as its callback does and sends nothing |
| Session.RunKeepsWellFormed | src/main.cpp:183-348 | from power-on, every run keeps the invariant: no connect request outlives a loop pass, a connection always has its write handle, and the buffer holds at most one 512-byte attribute value |
| Session.ReachableReportsMatchFirmware | src/main.cpp:352-366 | in every state reachable from power-on, a loop pass shows a decoded status iff the decoder as written accepts the buffer, and shows the status it decodes |
| Session.RewoundTimerIsDue | src/main.cpp:298-299 | after the rewind, the wrapped elapsed time at any later reading is one full interval more than the time since connect |
| Session.FirstContact | src/main.cpp:288-348 | an idle session that finds the fridge and connects sends exactly bind then query in the same loop pass |
| Session.QueryGateMatchesTrueTime | src/main.cpp:338-341 | with a 32-bit millisecond clock, the gate opens iff at least 60000 ms of true time have passed, across a rollover, for gaps under 2^32 ms |
| Session.EachNotificationShownAtMostOnce | src/main.cpp:352-358 | over any run, reports shown plus a pending buffer never exceed the notifications received plus one pending at start |
| Session.ReportsComeFromArrivals | src/main.cpp:352-358 | every report in a run renders the initial buffer or some notified payload |
| Session.PassDrains | src/main.cpp:352-353 | a loop pass shows the buffer iff the flag was set and always clears the flag |
| Session.SecondNotificationOverwritesFirst | src/main.cpp:189-198 | two notifications then two loop passes: the first pass shows only the second payload, the second pass shows nothing |

## Findings

| source | as written | input that shows it | evidently intended | confidence | as-written member | corrected member |
|---|---|---|---|---|---|---|
| src/main.cpp:114-116 | `uint16_t offsetSum = length - 2` narrows the checksum offset to 16 bits, so for frames of 65538 bytes or more the checksum is read from the wrong place and most of the frame is never checked | `FE FE 14 01`, 18 zero bytes, `02 11`, then 65536 zero bytes (65560 bytes): accepted, although its last two bytes `00 00` are not the checksum `0x0224` of the bytes before them | compare the last two bytes with the checksum of every byte before them, whatever the length | low: not executed; a BLE notification value is at most 512 bytes, so such a frame cannot reach the callback over the air | AsWritten.TruncatedOffsetAcceptsBadFrame | FrameCodec.Decode |

The session model (`Session.Render`) uses the corrected `FrameCodec.Decode`.
`AsWritten.AsWrittenAgreesBelowWrap` shows the two agree on every frame
shorter than 65538 bytes, which includes every frame BLE can deliver.

## Left out

- BLE scanning, client creation, service and characteristic lookup, notify registration and `writeValue`: foreign library calls. A connect attempt is an abstract `ConnectOutcome`, a scan is the list of advertisements it delivers, and a write is an output frame.
- Whether the notify characteristic can notify (`canNotify`): it only decides whether notifications will arrive, which the model expresses by which `Notification` events occur.
- The disconnect that `pClient->disconnect()` triggers after a failed lookup: it reaches the session as a separate `LinkLost` event, if the library raises one.
- `pServerAddress` and its heap allocation, and which of several matching advertisements is connected to: the address is never inspected by the core.
- All `Serial` output, `delay(100)` and the hex dump of a rejected buffer: I/O. The dump is represented by `Report.Undecodable` carrying the raw bytes.
- FrameCodec.DecodeFridgeQuerySingleZone: uses the corrected `FrameCodec.Decode`; `AsWritten.EntryPointAgreesBelowWrap` shows it returns and stores exactly what the code as written does for every input shorter than 65538 bytes, which covers every BLE notification. Longer inputs are covered only by `AsWritten.DecodeAsWritten`.
- Session.Render: decodes with the corrected `FrameCodec.Decode`; its contract states agreement with the decoder as written for inputs shorter than 65538 bytes, and `Notification` payloads are bounded by the 512-byte attribute value limit of the Bluetooth Core Specification (Vol 3, Part F, section 3.2.9), so the difference never arises in a run.
- Presenter.VoltageTenths: models the voltage as exact integer tenths instead of the `float` sum `batVolInt + batVolDec / 10.0f` printed with two decimals, to avoid floating point.
- Concurrency between the BLE callbacks and `loop()`: `Notification` and `LinkLost` are discrete events interleaved with loop passes (`Tick`), never arriving in the middle of one. In the firmware `onDisconnect` (src/main.cpp:225-228) can also run between `connected = true` and the query gate, so bind is sent without a query, or between the gate and `writeValue`, so a query is written on a dropped link; `Session.LoopPass` does not model either interleaving.
- The 32-bit accumulator of `calculateChecksum` wraps only after more than 16 million bytes; it is modelled, but no frame of that size is considered.
