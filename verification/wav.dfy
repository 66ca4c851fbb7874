/** `convert_to_wav`: a 44-byte canonical PCM RIFF/WAVE header (format tag 1,
    one channel, a 16-byte `fmt ` chunk and a `data` chunk) followed by the
    raw samples unchanged, together with a decoder for that layout. */
module Wav {
  import opened Results
  import opened Bytes
  import AudioMime

  const HEADER_SIZE: nat := 44
  const FMT_CHUNK_SIZE: nat := 16
  const PCM_FORMAT_TAG: nat := 1
  const NUM_CHANNELS: nat := 1

  const RIFF_ID: bytes := Ascii("RIFF")
  const WAVE_ID: bytes := Ascii("WAVE")
  const FMT_ID: bytes := Ascii("fmt ")
  const DATA_ID: bytes := Ascii("data")

  /** The numeric header fields, in the order `convert_to_wav` packs them. */
  datatype HeaderFields = HeaderFields(
    chunkSize: nat, sampleRate: nat, byteRate: nat,
    blockAlign: nat, bitsPerSample: nat, dataSize: nat)

  /** The arithmetic of `convert_to_wav` before packing: a single channel,
      whole bytes per sample by floor division, and a RIFF size counting the
      36 header bytes after the size field plus the samples. */
  function ComputeFields(params: AudioMime.AudioParams, dataSize: nat): HeaderFields
  {
    var bytesPerSample := params.bitsPerSample / 8;
    var blockAlign := NUM_CHANNELS * bytesPerSample;
    HeaderFields(
      chunkSize := 36 + dataSize,
      sampleRate := params.rate,
      byteRate := params.rate * blockAlign,
      blockAlign := blockAlign,
      bitsPerSample := params.bitsPerSample,
      dataSize := dataSize)
  }

  /** A field `struct.pack` range-checks, named after its variable. */
  datatype Field = ChunkSize | SampleRate | ByteRate | BlockAlign | BitsPerSample | DataSize

  /** The `struct.error` raised when a field does not fit its format code. */
  datatype PackError = OutOfRange(field: Field)

  /** The position of each field among the range-checked fields of the
      format `<4sI4s4sIHHIIHH4sI`; `struct.pack` checks them in this order. */
  function PackPosition(f: Field): nat
  {
    match f
    case ChunkSize => 0
    case SampleRate => 1
    case ByteRate => 2
    case BlockAlign => 3
    case BitsPerSample => 4
    case DataSize => 5
  }

  function ValueOf(h: HeaderFields, f: Field): nat
  {
    match f
    case ChunkSize => h.chunkSize
    case SampleRate => h.sampleRate
    case ByteRate => h.byteRate
    case BlockAlign => h.blockAlign
    case BitsPerSample => h.bitsPerSample
    case DataSize => h.dataSize
  }

  /** `H` fields hold 16 bits and `I` fields 32 bits. */
  function LimitOf(f: Field): nat
  {
    if f == BlockAlign || f == Field.BitsPerSample then UINT16_LIMIT else UINT32_LIMIT
  }

  predicate Fits(h: HeaderFields, f: Field)
  {
    ValueOf(h, f) < LimitOf(f)
  }

  /** Every field fits its unsigned width. */
  predicate Packable(h: HeaderFields)
  {
    forall f :: Fits(h, f)
  }

  /** The 44 header bytes in the order of the format `<4sI4s4sIHHIIHH4sI`:
      the RIFF descriptor, the `fmt ` chunk and the `data` chunk header. */
  function HeaderBytes(h: HeaderFields): bytes
    requires Packable(h)
  {
    assert Fits(h, ChunkSize) && Fits(h, SampleRate) && Fits(h, ByteRate);
    assert Fits(h, BlockAlign) && Fits(h, Field.BitsPerSample) && Fits(h, DataSize);
    RIFF_ID + U32(h.chunkSize) + WAVE_ID
    + FMT_ID + U32(FMT_CHUNK_SIZE) + U16(PCM_FORMAT_TAG) + U16(NUM_CHANNELS)
    + U32(h.sampleRate) + U32(h.byteRate) + U16(h.blockAlign) + U16(h.bitsPerSample)
    + DATA_ID + U32(h.dataSize)
  }

  /** What the bytes of a header say at each offset: the four tags, the
      constants 16, 1 and 1, and the six numeric fields, little-endian. */
  ghost predicate HeaderSays(b: bytes, h: HeaderFields)
    requires |b| >= HEADER_SIZE
  {
    var hd := b[..HEADER_SIZE];
    && hd[0..4] == RIFF_ID
    && ReadU32(hd[4..8]) == h.chunkSize
    && hd[8..12] == WAVE_ID
    && hd[12..16] == FMT_ID
    && ReadU32(hd[16..20]) == FMT_CHUNK_SIZE
    && ReadU16(hd[20..22]) == PCM_FORMAT_TAG
    && ReadU16(hd[22..24]) == NUM_CHANNELS
    && ReadU32(hd[24..28]) == h.sampleRate
    && ReadU32(hd[28..32]) == h.byteRate
    && ReadU16(hd[32..34]) == h.blockAlign
    && ReadU16(hd[34..36]) == h.bitsPerSample
    && hd[36..40] == DATA_ID
    && ReadU32(hd[40..44]) == h.dataSize
  }

  /** `struct.pack("<4sI4s4sIHHIIHH4sI", ...)`: the 44 header bytes, or the
      error for the first field, in packing order, that does not fit. */
  function PackHeader(h: HeaderFields): (r: Result<bytes, PackError>)
    ensures r.Ok? <==> Packable(h)
    ensures r.Ok? ==> |r.value| == HEADER_SIZE && HeaderSays(r.value, h)
    ensures r.Err? ==> !Fits(h, r.error.field)
    ensures r.Err? ==> forall f :: PackPosition(f) < PackPosition(r.error.field) ==> Fits(h, f)
  {
    if !Fits(h, ChunkSize) then Err(OutOfRange(ChunkSize))
    else if !Fits(h, SampleRate) then Err(OutOfRange(SampleRate))
    else if !Fits(h, ByteRate) then Err(OutOfRange(ByteRate))
    else if !Fits(h, BlockAlign) then Err(OutOfRange(BlockAlign))
    else if !Fits(h, Field.BitsPerSample) then Err(OutOfRange(Field.BitsPerSample))
    else if !Fits(h, DataSize) then Err(OutOfRange(DataSize))
    else
      HeaderLayout(h);
      Ok(HeaderBytes(h))
  }

  /** If `b` starts with `x + y`, it starts with `x` and `y` follows it. */
  lemma PrefixPieces(b: bytes, x: bytes, y: bytes)
    requires |x| + |y| <= |b| && b[..|x| + |y|] == x + y
    ensures b[..|x|] == x
    ensures b[|x|..|x| + |y|] == y
  {
    assert forall i :: 0 <= i < |x| ==> b[i] == (x + y)[i];
    assert forall i :: |x| <= i < |x| + |y| ==> b[i] == (x + y)[i];
  }

  /** The concatenated pieces put each field at its offset. */
  lemma HeaderLayout(h: HeaderFields)
    requires Packable(h)
    ensures |HeaderBytes(h)| == HEADER_SIZE
    ensures HeaderSays(HeaderBytes(h), h)
  {
    var b := HeaderBytes(h);
    assert b[..HEADER_SIZE] == b;
    assert Fits(h, ChunkSize) && Fits(h, SampleRate) && Fits(h, ByteRate);
    assert Fits(h, BlockAlign) && Fits(h, Field.BitsPerSample) && Fits(h, DataSize);
    var a1 := RIFF_ID;
    var a2 := a1 + U32(h.chunkSize);
    var a3 := a2 + WAVE_ID;
    var a4 := a3 + FMT_ID;
    var a5 := a4 + U32(FMT_CHUNK_SIZE);
    var a6 := a5 + U16(PCM_FORMAT_TAG);
    var a7 := a6 + U16(NUM_CHANNELS);
    var a8 := a7 + U32(h.sampleRate);
    var a9 := a8 + U32(h.byteRate);
    var a10 := a9 + U16(h.blockAlign);
    var a11 := a10 + U16(h.bitsPerSample);
    var a12 := a11 + DATA_ID;
    assert b == a12 + U32(h.dataSize);
    PrefixPieces(b, a12, U32(h.dataSize));
    PrefixPieces(b, a11, DATA_ID);
    PrefixPieces(b, a10, U16(h.bitsPerSample));
    PrefixPieces(b, a9, U16(h.blockAlign));
    PrefixPieces(b, a8, U32(h.byteRate));
    PrefixPieces(b, a7, U32(h.sampleRate));
    PrefixPieces(b, a6, U16(NUM_CHANNELS));
    PrefixPieces(b, a5, U16(PCM_FORMAT_TAG));
    PrefixPieces(b, a4, U32(FMT_CHUNK_SIZE));
    PrefixPieces(b, a3, FMT_ID);
    PrefixPieces(b, a2, WAVE_ID);
    PrefixPieces(b, a1, U32(h.chunkSize));
  }

  /** The header for `params` and `|audio|` sample bytes, then the samples. */
  function EncodeWav(params: AudioMime.AudioParams, audio: bytes): (r: Result<bytes, PackError>)
    ensures r.Ok? <==> Packable(ComputeFields(params, |audio|))
    ensures r.Ok? ==> |r.value| == HEADER_SIZE + |audio|
    ensures r.Ok? ==> r.value[HEADER_SIZE..] == audio
    ensures r.Ok? ==> HeaderSays(r.value, ComputeFields(params, |audio|))
  {
    match PackHeader(ComputeFields(params, |audio|))
    case Err(e) => Err(e)
    case Ok(header) =>
      HeaderSaysExtended(header, audio, ComputeFields(params, |audio|));
      Ok(header + audio)
  }

  /** What a header says is unchanged by the samples that follow it. */
  lemma HeaderSaysExtended(header: bytes, audio: bytes, h: HeaderFields)
    requires |header| == HEADER_SIZE && HeaderSays(header, h)
    ensures HeaderSays(header + audio, h)
    ensures (header + audio)[HEADER_SIZE..] == audio
  {
    assert (header + audio)[..HEADER_SIZE] == header[..HEADER_SIZE];
  }

  /** `convert_to_wav(audio_data, mime_type)`: succeeds exactly when the
      rate, the byte rate and the RIFF size fit 32 bits and the bit depth
      fits 16, and then writes the parsed format and the sample count at
      their offsets, ahead of the unchanged samples. */
  function ConvertToWav(audio: bytes, mime: string): (r: Result<bytes, PackError>)
    ensures var p := AudioMime.ParseAudioMimeType(mime);
      r.Ok? <==> (&& p.rate < UINT32_LIMIT
                  && p.rate * (p.bitsPerSample / 8) < UINT32_LIMIT
                  && 36 + |audio| < UINT32_LIMIT
                  && p.bitsPerSample < UINT16_LIMIT)
    ensures r.Ok? ==> |r.value| == HEADER_SIZE + |audio| && r.value[HEADER_SIZE..] == audio
    ensures r.Ok? ==>
      var p, b := AudioMime.ParseAudioMimeType(mime), r.value;
      && b[0..4] == RIFF_ID
      && ReadU32(b[4..8]) == 36 + |audio|
      && b[8..12] == WAVE_ID
      && b[12..16] == FMT_ID
      && ReadU32(b[16..20]) == 16
      && ReadU16(b[20..22]) == 1
      && ReadU16(b[22..24]) == 1
      && ReadU32(b[24..28]) == p.rate
      && ReadU32(b[28..32]) == p.rate * (p.bitsPerSample / 8)
      && ReadU16(b[32..34]) == p.bitsPerSample / 8
      && ReadU16(b[34..36]) == p.bitsPerSample
      && b[36..40] == DATA_ID
      && ReadU32(b[40..44]) == |audio|
  {
    var p := AudioMime.ParseAudioMimeType(mime);
    var r := EncodeWav(p, audio);
    PackableWhenInRange(p, |audio|);
    if r.Ok? then HeaderSaysDirectly(r.value, ComputeFields(p, |audio|)); r else r
  }

  /** The header fields of `params` and `n` sample bytes fit their widths
      exactly when the rate, byte rate and RIFF size fit 32 bits and the
      bit depth fits 16 (the block alignment then fits as well). */
  lemma PackableWhenInRange(params: AudioMime.AudioParams, n: nat)
    ensures Packable(ComputeFields(params, n)) <==>
      (&& params.rate < UINT32_LIMIT
       && params.rate * (params.bitsPerSample / 8) < UINT32_LIMIT
       && 36 + n < UINT32_LIMIT
       && params.bitsPerSample < UINT16_LIMIT)
  {
    var h := ComputeFields(params, n);
    if Packable(h) {
      assert Fits(h, ChunkSize) && Fits(h, SampleRate) && Fits(h, ByteRate) && Fits(h, Field.BitsPerSample);
    }
  }

  /** `HeaderSays`, read on the whole byte string rather than its first 44 bytes. */
  lemma HeaderSaysDirectly(b: bytes, h: HeaderFields)
    requires |b| >= HEADER_SIZE && HeaderSays(b, h)
    ensures && b[0..4] == RIFF_ID
            && ReadU32(b[4..8]) == h.chunkSize
            && b[8..12] == WAVE_ID
            && b[12..16] == FMT_ID
            && ReadU32(b[16..20]) == FMT_CHUNK_SIZE
            && ReadU16(b[20..22]) == PCM_FORMAT_TAG
            && ReadU16(b[22..24]) == NUM_CHANNELS
            && ReadU32(b[24..28]) == h.sampleRate
            && ReadU32(b[28..32]) == h.byteRate
            && ReadU16(b[32..34]) == h.blockAlign
            && ReadU16(b[34..36]) == h.bitsPerSample
            && b[36..40] == DATA_ID
            && ReadU32(b[40..44]) == h.dataSize
  {
    var hd := b[..HEADER_SIZE];
    assert forall lo, hi :: 0 <= lo <= hi <= HEADER_SIZE ==> b[lo..hi] == hd[lo..hi];
  }

  // ---------------------------------------------------------------------
  // The matching decoder

  /** A decoded container: the format it declares and its samples. */
  datatype Decoded = Decoded(params: AudioMime.AudioParams, audio: bytes)

  /** Why a byte string is not a header `convert_to_wav` can produce. */
  datatype DecodeError = TooShort | BadTag | BadSize | NotMonoPcm | InconsistentRates

  /** Reads a canonical 44-byte-header PCM WAVE file back into its format and
      samples, rejecting every header `convert_to_wav` would not write. */
  function DecodeWav(b: bytes): Result<Decoded, DecodeError>
  {
    if |b| < HEADER_SIZE then Err(TooShort)
    else
      var hd := b[..HEADER_SIZE];
      if hd[0..4] != RIFF_ID || hd[8..12] != WAVE_ID || hd[12..16] != FMT_ID || hd[36..40] != DATA_ID then
        Err(BadTag)
      else if ReadU32(hd[4..8]) != |b| - 8 || ReadU32(hd[16..20]) != FMT_CHUNK_SIZE
           || ReadU32(hd[40..44]) != |b| - HEADER_SIZE then
        Err(BadSize)
      else if ReadU16(hd[20..22]) != PCM_FORMAT_TAG || ReadU16(hd[22..24]) != NUM_CHANNELS then
        Err(NotMonoPcm)
      else
        var rate, byteRate := ReadU32(hd[24..28]), ReadU32(hd[28..32]);
        var blockAlign, bits := ReadU16(hd[32..34]), ReadU16(hd[34..36]);
        if blockAlign != bits / 8 || byteRate != rate * blockAlign then Err(InconsistentRates)
        else Ok(Decoded(AudioMime.AudioParams(bits, rate), b[HEADER_SIZE..]))
  }

  /** Decoding what `EncodeWav` wrote returns the format and the samples. */
  lemma DecodeEncode(params: AudioMime.AudioParams, audio: bytes)
    requires EncodeWav(params, audio).Ok?
    ensures DecodeWav(EncodeWav(params, audio).value) == Ok(Decoded(params, audio))
  {
  }

  /** Every file the decoder accepts is exactly what `EncodeWav` writes for
      the format and samples it decodes to. */
  lemma EncodeDecode(b: bytes)
    requires DecodeWav(b).Ok?
    ensures EncodeWav(DecodeWav(b).value.params, DecodeWav(b).value.audio) == Ok(b)
  {
    var d := DecodeWav(b).value;
    var h := ComputeFields(d.params, |d.audio|);
    assert Fits(h, BlockAlign) by {
      assert h.blockAlign == ReadU16(b[..HEADER_SIZE][32..34]);
    }
    assert Fits(h, ByteRate) by {
      assert h.byteRate == ReadU32(b[..HEADER_SIZE][28..32]);
    }
    assert Packable(h);
    var e := EncodeWav(d.params, d.audio).value;
    assert |e| == |b|;
    SameHeader(e, b, h);
    assert e == e[..HEADER_SIZE] + e[HEADER_SIZE..];
    assert b == b[..HEADER_SIZE] + b[HEADER_SIZE..];
  }

  /** Two sequences that agree on a slice agree at each index in it. */
  lemma AgreeOn(a: bytes, b: bytes, lo: nat, hi: nat)
    requires lo <= hi <= |a| && hi <= |b| && a[lo..hi] == b[lo..hi]
    ensures forall i :: lo <= i < hi ==> a[i] == b[i]
  {
    assert forall i :: lo <= i < hi ==> a[i] == a[lo..hi][i - lo] && b[i] == b[lo..hi][i - lo];
  }

  /** A header is determined by what it says. */
  lemma SameHeader(a: bytes, b: bytes, h: HeaderFields)
    requires |a| >= HEADER_SIZE && |b| >= HEADER_SIZE
    requires HeaderSays(a, h) && HeaderSays(b, h)
    ensures a[..HEADER_SIZE] == b[..HEADER_SIZE]
  {
    var ha, hb := a[..HEADER_SIZE], b[..HEADER_SIZE];
    U32OfRead(ha[4..8]); U32OfRead(hb[4..8]);
    U32OfRead(ha[16..20]); U32OfRead(hb[16..20]);
    U16OfRead(ha[20..22]); U16OfRead(hb[20..22]);
    U16OfRead(ha[22..24]); U16OfRead(hb[22..24]);
    U32OfRead(ha[24..28]); U32OfRead(hb[24..28]);
    U32OfRead(ha[28..32]); U32OfRead(hb[28..32]);
    U16OfRead(ha[32..34]); U16OfRead(hb[32..34]);
    U16OfRead(ha[34..36]); U16OfRead(hb[34..36]);
    U32OfRead(ha[40..44]); U32OfRead(hb[40..44]);
    AgreeOn(ha, hb, 0, 4);
    AgreeOn(ha, hb, 4, 8);
    AgreeOn(ha, hb, 8, 12);
    AgreeOn(ha, hb, 12, 16);
    AgreeOn(ha, hb, 16, 20);
    AgreeOn(ha, hb, 20, 22);
    AgreeOn(ha, hb, 22, 24);
    AgreeOn(ha, hb, 24, 28);
    AgreeOn(ha, hb, 28, 32);
    AgreeOn(ha, hb, 32, 34);
    AgreeOn(ha, hb, 34, 36);
    AgreeOn(ha, hb, 36, 40);
    AgreeOn(ha, hb, 40, 44);
  }
}
