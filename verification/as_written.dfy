/**
 * decodeFridgeQuerySingleZone exactly as written, including the narrowing of
 * the checksum offset to 16 bits (`uint16_t offsetSum = length - 2`), and the
 * evidence that this narrowing lets frames of 65 538 bytes or more be checked
 * against the wrong two bytes. The rest of the model uses FrameCodec.Decode,
 * which reads the checksum from the real end of the frame.
 */
module AsWritten {
  import opened Bytes
  import opened Results
  import opened Checksum
  import opened FrameCodec

  /** `(uint16_t)(length - 2)`: the offset of the stored checksum as the firmware computes it. */
  function ChecksumOffset16(length: nat): (offset: U16)
    requires length >= 2
    ensures offset <= length - 2
    ensures length < TWO16 + 2 ==> offset == length - 2
    ensures offset == (length - 2) % TWO16
  {
    (length - 2) % TWO16
  }

  /** The decoder with the truncated offset. */
  function DecodeAsWritten(data: seq<Byte>): (r: Result<FridgeStatus, DecodeError>)
    ensures HeaderError(data).Some? ==> r == Failure(HeaderError(data).value)
    ensures r.Success? ==> r.value == StatusOfPayload(data[PAYLOAD_START..PAYLOAD_START + PAYLOAD_LEN])
    ensures r.Success? <==>
      && HeaderAccepted(data)
      && FrameChecksum(data[..ChecksumOffset16(|data|)])
         == BigEndian16(data[ChecksumOffset16(|data|)], data[ChecksumOffset16(|data|) + 1])
  {
    match HeaderError(data)
    case Some(e) => Failure(e)
    case None => CheckAndMap(data, ChecksumOffset16(|data|))
  }

  /** Below 65 538 bytes the truncation is invisible: both decoders agree on every input. */
  lemma AsWrittenAgreesBelowWrap(data: seq<Byte>)
    requires |data| < TWO16 + 2
    ensures DecodeAsWritten(data) == Decode(data)
  {
  }

  /**
   * The firmware-shaped entry point of FrameCodec, built on the corrected
   * decoder, returns what the decoder as written returns on every frame
   * shorter than 65 538 bytes.
   */
  lemma EntryPointAgreesBelowWrap(data: seq<Byte>, status: FridgeStatus)
    requires |data| < TWO16 + 2
    ensures DecodeFridgeQuerySingleZone(data, status).0 <==> DecodeAsWritten(data).Success?
    ensures DecodeAsWritten(data).Success? ==>
      DecodeFridgeQuerySingleZone(data, status).1 == DecodeAsWritten(data).value
  {
    AsWrittenAgreesBelowWrap(data);
  }

  /**
   * Past the wrap the decoder as written does not look at the appended
   * 65 536 bytes at all: a 24-byte frame decodes the same with any tail.
   */
  lemma {:induction false} AsWrittenIgnoresTailPastWrap(f: seq<Byte>, tail: seq<Byte>)
    requires |f| == MIN_FRAME_LEN && |tail| == TWO16
    ensures DecodeAsWritten(f + tail) == DecodeAsWritten(f)
  {
    var g := f + tail;
    assert ChecksumOffset16(|g|) == 22;
    assert g[..22] == f[..22];
    assert g[PAYLOAD_START..PAYLOAD_START + PAYLOAD_LEN] == f[PAYLOAD_START..PAYLOAD_START + PAYLOAD_LEN];
  }

  function Zeros(n: nat): (z: seq<Byte>)
    ensures |z| == n && forall i :: 0 <= i < n ==> z[i] == 0
  {
    seq(n, _ => 0)
  }

  /**
   * The counterexample: an all-zero status frame (checksum 0x0211) followed
   * by 65 536 zero bytes. The decoder as written accepts it, although its last
   * two bytes (00 00) are not the checksum (0x0224) of the bytes before them;
   * the corrected decoder rejects it.
   */
  lemma {:induction false} TruncatedOffsetAcceptsBadFrame()
    ensures var g := ([0xFE, 0xFE, 0x14, 0x01] + Zeros(PAYLOAD_LEN) + [0x02, 0x11]) + Zeros(TWO16);
      && DecodeAsWritten(g).Success?
      && Decode(g) == Failure(ChecksumMismatch)
  {
    var head: seq<Byte> := [0xFE, 0xFE, 0x14, 0x01];
    var body := head + Zeros(PAYLOAD_LEN);
    var f := body + [0x02, 0x11];
    var g := f + Zeros(TWO16);
    var h1: seq<Byte>, h2: seq<Byte>, h3: seq<Byte> := [0xFE], [0xFE, 0xFE], [0xFE, 0xFE, 0x14];
    assert h1[..0] == [] && h2[..1] == h1 && h3[..2] == h2 && head[..3] == h3;
    assert Sum(head) == 0x211;
    SumAppend(head, Zeros(PAYLOAD_LEN));
    SumOfZeros(Zeros(PAYLOAD_LEN));
    assert Sum(body) == 0x211;
    // As written: the checksum is taken at offset 22, inside the original frame.
    assert ChecksumOffset16(|g|) == 22;
    assert g[..22] == body;
    assert g[22] == 0x02 && g[23] == 0x11;
    assert DecodeAsWritten(g).Success?;
    // Corrected: the checksum of everything before the final 00 00.
    var prefix := g[..|g| - 2];
    assert prefix == f + Zeros(TWO16 - 2);
    SumAppend(f, Zeros(TWO16 - 2));
    SumOfZeros(Zeros(TWO16 - 2));
    SumAppend(body, [0x02, 0x11]);
    var two: seq<Byte> := [0x02, 0x11];
    assert two[..1] == [0x02] && [0x02][..0] == [];
    assert Sum(prefix) == 0x224;
    assert TrailingChecksum(g) == 0;
  }
}
