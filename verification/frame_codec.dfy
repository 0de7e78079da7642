/**
 * The "FE FE" frame codec of the fridge protocol: decoding a single-zone
 * query response into a FridgeStatus, the reference encoder that the
 * round-trip is stated against, and the two fixed outbound command frames.
 *
 * Wire shape of a response:
 *   FE FE <declared length> 01 <18 payload bytes> ... <checksum hi> <checksum lo>
 * where the checksum is the additive checksum of every byte before it.
 */
module FrameCodec {
  import opened Bytes
  import opened Results
  import opened Checksum

  const FRAME_SYNC: Byte := 0xFE
  /** Command code of the outbound query request (and of the bind request it prefixes). */
  const CMD_QUERY: Byte := 0x01
  /** Command code of the inbound frame carrying a status report. */
  const CMD_QUERY_RESPONSE: Byte := 0x01
  const MIN_FRAME_LEN: nat := 24
  const PAYLOAD_START: nat := 4
  const PAYLOAD_LEN: nat := 18
  const BIND_MARKER: Byte := 0xFF

  /** Decoded status of a single-zone fridge (FridgeStatus_t). */
  datatype FridgeStatus = FridgeStatus(
    locked: bool,
    poweredOn: bool,
    runMode: Byte,       // 0 = MAX, 1 = ECO
    batSaver: Byte,      // 0 = Low, 1 = Mid, 2 = High
    leftTarget: Int8,
    tempMax: Int8,
    tempMin: Int8,
    leftRetDiff: Byte,
    startDelay: Byte,
    unit: Byte,          // 0 = Celsius, otherwise Fahrenheit
    leftTCHot: Int8,
    leftTCMid: Int8,
    leftTCCold: Int8,
    leftTCHalt: Int8,
    leftCurrent: Int8,
    batPercent: Byte,
    batVolInt: Byte,
    batVolDec: Byte)

  /**
   * Why a frame was rejected. The firmware returns a bare `false`; each
   * kind names one of its return sites.
   */
  datatype DecodeError = TooShort | BadSync | UnsupportedCommand | ChecksumMismatch

  // ---------------------------------------------------------------------------
  // Payload layout
  // ---------------------------------------------------------------------------

  /** The field mapping of a single-zone payload: bytes 0..17 onto the 18 fields. */
  function StatusOfPayload(p: seq<Byte>): (st: FridgeStatus)
    requires |p| == PAYLOAD_LEN
    ensures st.locked <==> p[0] == 1
    ensures st.poweredOn <==> p[1] == 1
    ensures st.runMode == p[2] && st.batSaver == p[3]
    ensures FromInt8(st.leftTarget) == p[4]
    ensures FromInt8(st.tempMax) == p[5] && FromInt8(st.tempMin) == p[6]
    ensures st.leftRetDiff == p[7] && st.startDelay == p[8] && st.unit == p[9]
    ensures FromInt8(st.leftTCHot) == p[10] && FromInt8(st.leftTCMid) == p[11]
    ensures FromInt8(st.leftTCCold) == p[12] && FromInt8(st.leftTCHalt) == p[13]
    ensures FromInt8(st.leftCurrent) == p[14]
    ensures st.batPercent == p[15] && st.batVolInt == p[16] && st.batVolDec == p[17]
  {
    FridgeStatus(
      p[0] == 1, p[1] == 1, p[2], p[3],
      ToInt8(p[4]), ToInt8(p[5]), ToInt8(p[6]),
      p[7], p[8], p[9],
      ToInt8(p[10]), ToInt8(p[11]), ToInt8(p[12]), ToInt8(p[13]), ToInt8(p[14]),
      p[15], p[16], p[17])
  }

  /** The canonical payload carrying `st`: flags as 0/1, signed fields in two's complement. */
  function PayloadOf(st: FridgeStatus): (p: seq<Byte>)
    ensures |p| == PAYLOAD_LEN
  {
    [ if st.locked then 1 else 0, if st.poweredOn then 1 else 0, st.runMode, st.batSaver,
      FromInt8(st.leftTarget), FromInt8(st.tempMax), FromInt8(st.tempMin),
      st.leftRetDiff, st.startDelay, st.unit,
      FromInt8(st.leftTCHot), FromInt8(st.leftTCMid), FromInt8(st.leftTCCold),
      FromInt8(st.leftTCHalt), FromInt8(st.leftCurrent),
      st.batPercent, st.batVolInt, st.batVolDec ]
  }

  lemma PayloadRoundTrip(st: FridgeStatus)
    ensures StatusOfPayload(PayloadOf(st)) == st
  {
  }

  /** A payload whose two flag bytes are 0 or 1 is exactly the canonical payload of its status. */
  lemma CanonicalPayloadRoundTrip(p: seq<Byte>)
    requires |p| == PAYLOAD_LEN
    requires p[0] <= 1 && p[1] <= 1
    ensures PayloadOf(StatusOfPayload(p)) == p
  {
  }

  // ---------------------------------------------------------------------------
  // Frame predicates
  // ---------------------------------------------------------------------------

  /** Length, sync and command pass: the first three rungs of the rejection ladder. */
  predicate HeaderAccepted(data: seq<Byte>)
  {
    && |data| >= MIN_FRAME_LEN
    && data[0] == FRAME_SYNC && data[1] == FRAME_SYNC
    && data[3] == CMD_QUERY_RESPONSE
  }

  /** The checksum stored big-endian in the last two bytes of `frame`. */
  function TrailingChecksum(frame: seq<Byte>): U16
    requires |frame| >= 2
  {
    BigEndian16(frame[|frame| - 2], frame[|frame| - 1])
  }

  /** The framing invariant: the last two bytes are the checksum of everything before them. */
  predicate ChecksumHolds(frame: seq<Byte>)
    requires |frame| >= 2
  {
    FrameChecksum(frame[..|frame| - 2]) == TrailingChecksum(frame)
  }

  // ---------------------------------------------------------------------------
  // Decoding (decodeFridgeQuerySingleZone)
  // ---------------------------------------------------------------------------

  /** The rejection of the first three rungs, if any, in the order the firmware tests them. */
  function HeaderError(data: seq<Byte>): (e: Option<DecodeError>)
    ensures e.None? <==> HeaderAccepted(data)
  {
    if |data| < MIN_FRAME_LEN then Some(TooShort)
    else if data[0] != FRAME_SYNC || data[1] != FRAME_SYNC then Some(BadSync)
    else if data[3] != CMD_QUERY_RESPONSE then Some(UnsupportedCommand)
    else None
  }

  /**
   * The last rung and the field mapping: the checksum stored at `offset` is
   * compared with the checksum of the `offset` bytes before it.
   */
  function CheckAndMap(data: seq<Byte>, offset: nat): Result<FridgeStatus, DecodeError>
    requires PAYLOAD_START + PAYLOAD_LEN <= |data|
    requires offset + 2 <= |data|
  {
    if FrameChecksum(data[..offset]) != BigEndian16(data[offset], data[offset + 1]) then
      Failure(ChecksumMismatch)
    else
      Success(StatusOfPayload(data[PAYLOAD_START..PAYLOAD_START + PAYLOAD_LEN]))
  }

  /**
   * Decodes a single-zone query response. The checksum is read from the last
   * two bytes of the frame, however long it is.
   */
  function Decode(data: seq<Byte>): (r: Result<FridgeStatus, DecodeError>)
    ensures r == Failure(TooShort) <==> |data| < MIN_FRAME_LEN
    ensures r == Failure(BadSync) <==>
      |data| >= MIN_FRAME_LEN && (data[0] != FRAME_SYNC || data[1] != FRAME_SYNC)
    ensures r == Failure(UnsupportedCommand) <==>
      |data| >= MIN_FRAME_LEN && data[0] == FRAME_SYNC && data[1] == FRAME_SYNC
      && data[3] != CMD_QUERY_RESPONSE
    ensures r == Failure(ChecksumMismatch) <==> HeaderAccepted(data) && !ChecksumHolds(data)
    ensures r.Success? <==> HeaderAccepted(data) && ChecksumHolds(data)
    ensures r.Success? ==> r.value == StatusOfPayload(data[PAYLOAD_START..PAYLOAD_START + PAYLOAD_LEN])
  {
    match HeaderError(data)
    case Some(e) => Failure(e)
    case None => CheckAndMap(data, |data| - 2)
  }

  /**
   * The firmware's calling convention: a success flag and a status passed by
   * reference, written only once every check has passed.
   */
  function DecodeFridgeQuerySingleZone(data: seq<Byte>, status: FridgeStatus): (res: (bool, FridgeStatus))
    ensures res.0 <==> HeaderAccepted(data) && ChecksumHolds(data)
    ensures !res.0 ==> res.1 == status
    ensures res.0 ==> res.1 == StatusOfPayload(data[PAYLOAD_START..PAYLOAD_START + PAYLOAD_LEN])
  {
    match Decode(data)
    case Success(st) => (true, st)
    case Failure(_) => (false, status)
  }

  // ---------------------------------------------------------------------------
  // Reference encoder and the properties of Decode
  // ---------------------------------------------------------------------------

  /** The 24-byte response frame carrying `st` with the given declared-length byte. */
  function EncodeResponse(st: FridgeStatus, declaredLen: Byte): (f: seq<Byte>)
    ensures |f| == MIN_FRAME_LEN
    ensures HeaderAccepted(f) && f[2] == declaredLen
    ensures f[PAYLOAD_START..PAYLOAD_START + PAYLOAD_LEN] == PayloadOf(st)
    ensures ChecksumHolds(f)
  {
    var body := [FRAME_SYNC, FRAME_SYNC, declaredLen, CMD_QUERY_RESPONSE] + PayloadOf(st);
    var sum := FrameChecksum(body);
    var f := body + [HighByte(sum), LowByte(sum)];
    assert f[..|f| - 2] == body;
    BigEndianRoundTrip(sum);
    f
  }

  /** Every status survives encoding and decoding, whatever the declared length. */
  lemma DecodeEncodeRoundTrip(st: FridgeStatus, declaredLen: Byte)
    ensures Decode(EncodeResponse(st, declaredLen)) == Success(st)
  {
  }

  /**
   * Conversely, an accepted 24-byte frame whose flag bytes are 0 or 1 is
   * exactly the encoding of what it decodes to.
   */
  lemma {:induction false} AcceptedFrameIsEncoding(f: seq<Byte>)
    requires |f| == MIN_FRAME_LEN
    requires Decode(f).Success?
    requires f[4] <= 1 && f[5] <= 1
    ensures f == EncodeResponse(Decode(f).value, f[2])
  {
    var p := f[PAYLOAD_START..PAYLOAD_START + PAYLOAD_LEN];
    CanonicalPayloadRoundTrip(p);
    var e := EncodeResponse(Decode(f).value, f[2]);
    assert f[..22] == e[..22];
    BigEndianInjective(f[22], f[23], FrameChecksum(f[..22]));
    assert f == f[..22] + [f[22], f[23]];
  }

  /**
   * Single-byte corruption of the declared-length byte or of anything between
   * the command byte and the stored checksum is always reported as a checksum
   * mismatch; a corrupted frame never yields a status.
   */
  lemma {:induction false} CorruptionDetected(f: seq<Byte>, i: nat, v: Byte)
    requires Decode(f).Success?
    requires i == 2 || PAYLOAD_START <= i < |f| - 2
    requires v != f[i]
    ensures Decode(f[i := v]) == Failure(ChecksumMismatch)
  {
    var g := f[i := v];
    assert g[..|g| - 2] == f[..|f| - 2][i := v];
    SingleByteChangeDetected(f[..|f| - 2], i, v);
  }

  /**
   * The declared-length byte is never checked: two accepted frames that agree
   * on the payload decode to the same status, whatever else differs.
   */
  lemma DecodeReadsOnlyPayload(a: seq<Byte>, b: seq<Byte>)
    requires Decode(a).Success? && Decode(b).Success?
    requires a[PAYLOAD_START..PAYLOAD_START + PAYLOAD_LEN] == b[PAYLOAD_START..PAYLOAD_START + PAYLOAD_LEN]
    ensures Decode(a) == Decode(b)
  {
  }

  // ---------------------------------------------------------------------------
  // Outbound commands (buildQueryCommand, buildBindCommand)
  // ---------------------------------------------------------------------------

  /**
   * The query command. `packet` is the caller's buffer; its previous
   * contents are discarded. The frame is the header FE FE 03 01 followed by
   * its own additive checksum, so it satisfies the framing invariant.
   */
  function BuildQueryCommand(packet: seq<Byte>): (r: seq<Byte>)
    ensures |r| == 6
    ensures r[0] == FRAME_SYNC && r[1] == FRAME_SYNC && r[2] == 3 && r[3] == CMD_QUERY
    ensures ChecksumHolds(r)
  {
    var r: seq<Byte> := [0xFE, 0xFE, 0x03, 0x01, 0x02, 0x00];
    var h1: seq<Byte>, h2: seq<Byte>, h3: seq<Byte> := [0xFE], [0xFE, 0xFE], [0xFE, 0xFE, 0x03];
    assert h1[..0] == [] && h2[..1] == h1 && h3[..2] == h2 && r[..4][..3] == h3;
    assert Sum(r[..4]) == 0x200;
    r
  }

  /** The bind command: the query frame followed by the 0xFF marker. */
  function BuildBindCommand(packet: seq<Byte>): (r: seq<Byte>)
    ensures |r| == 7
    ensures r[..6] == BuildQueryCommand([]) && r[6] == BIND_MARKER
  {
    [0xFE, 0xFE, 0x03, 0x01, 0x02, 0x00, 0xFF]
  }

  /** Both builders discard whatever the buffer held. */
  lemma BuildersIgnorePriorContents(p: seq<Byte>, q: seq<Byte>)
    ensures BuildQueryCommand(p) == BuildQueryCommand(q)
    ensures BuildBindCommand(p) == BuildBindCommand(q)
  {
  }

  /** The literal wire bytes of the two commands. */
  lemma CommandLiterals(packet: seq<Byte>)
    ensures BuildQueryCommand(packet) == [0xFE, 0xFE, 0x03, 0x01, 0x02, 0x00]
    ensures BuildBindCommand(packet) == [0xFE, 0xFE, 0x03, 0x01, 0x02, 0x00, 0xFF]
  {
  }

  /** An echoed command is never mistaken for a status: both are far too short. */
  lemma CommandsNeverDecode(packet: seq<Byte>)
    ensures Decode(BuildQueryCommand(packet)) == Failure(TooShort)
    ensures Decode(BuildBindCommand(packet)) == Failure(TooShort)
  {
  }
}
