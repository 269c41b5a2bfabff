/** Byte-level format of one archive segment: block frames, compressed footer,
    fixed 32-byte trailer. zstd, msgpack and CRC-32 are the fields of a
    `Codec`; `Sound` states what is relied on about them. */
module SegmentFormat {
  import opened Prelude

  /** A sha256 digest, as a free constructor: digests are equal exactly when the hashed bytes are.
      Hex text and raw bytes are the same value here. */
  datatype Digest = Sha256(preimage: Bytes)

  datatype BlockEntry = BlockEntry(offset: nat, length: nat, rawLength: nat)

  datatype RecordEntry = RecordEntry(sha256: Digest, blockNo: nat, offset: nat, length: nat)

  datatype Footer = Footer(version: int, blocks: seq<BlockEntry>, records: seq<RecordEntry>)

  datatype BlobLocation = BlobLocation(sha256: Digest, segmentId: nat, blockNo: nat, offset: nat, length: nat)

  /** What msgpack makes of a byte string: garbage, a document of another shape, or a footer. */
  datatype Unpacked = NotADocument | WrongShape | Document(footer: Footer)

  /** `CorruptSegment` is the archive's own exception; the others escape uncaught. */
  datatype ReadError = FileNotFound | CorruptSegment | BlockIndexError | BadFrame | BadFooterShape

  datatype Codec = Codec(
    compress: Bytes -> Bytes,
    decompress: Bytes -> Option<Bytes>,
    pack: Footer -> Bytes,
    unpack: Bytes -> Unpacked,
    crc32: Bytes -> nat)

  ghost predicate Sound(c: Codec) {
    && (forall x: Bytes :: c.decompress(c.compress(x)) == Some(x))
    && (forall f: Footer :: c.unpack(c.pack(f)) == Document(f))
    && (forall x: Bytes :: c.crc32(x) < U32)
  }

  const MAGIC: Bytes := [0x52, 0x53, 0x53, 0x45, 0x47, 0x31, 0, 0]
  const TRAILER_SIZE: nat := 32
  const FOOTER_VERSION := 1
  const U32: nat := 0x1_0000_0000
  const U64: nat := 0x1_0000_0000_0000_0000

  // ------------------------------------------------------------ little endian

  function Pow256(w: nat): nat {
    if w == 0 then 1 else 256 * Pow256(w - 1)
  }

  function ToLE(n: nat, w: nat): (bs: Bytes)
    ensures |bs| == w
  {
    if w == 0 then [] else [(n % 256) as Byte] + ToLE(n / 256, w - 1)
  }

  function FromLE(bs: Bytes): nat {
    if bs == [] then 0 else bs[0] as int + 256 * FromLE(bs[1..])
  }

  lemma {:induction false} FromToLE(n: nat, w: nat)
    requires n < Pow256(w)
    ensures FromLE(ToLE(n, w)) == n
  {
    if w > 0 {
      assert n / 256 < Pow256(w - 1);
      FromToLE(n / 256, w - 1);
      assert ToLE(n, w)[1..] == ToLE(n / 256, w - 1);
    }
  }

  lemma {:induction false} ToFromLE(bs: Bytes)
    ensures ToLE(FromLE(bs), |bs|) == bs
    ensures FromLE(bs) < Pow256(|bs|)
  {
    if bs != [] {
      ToFromLE(bs[1..]);
      assert FromLE(bs) % 256 == bs[0] as int && FromLE(bs) / 256 == FromLE(bs[1..]);
    }
  }

  lemma Widths()
    ensures Pow256(4) == U32 && Pow256(8) == U64
  {
    assert Pow256(4) == U32;
    assert Pow256(8) == 256 * (256 * (256 * (256 * Pow256(4))));
  }

  // ------------------------------------------------------------------ trailer

  datatype Trailer = Trailer(footerOffset: nat, footerLength: nat, footerCrc: nat)

  predicate FitsTrailer(t: Trailer) {
    t.footerOffset < U64 && t.footerLength < U64 && t.footerCrc < U32
  }

  /** struct.pack("<8sQQI4s"), which refuses values outside the field widths. */
  function EncodeTrailer(t: Trailer): (bs: Bytes)
    requires FitsTrailer(t)
    ensures |bs| == TRAILER_SIZE
  {
    MAGIC + ToLE(t.footerOffset, 8) + ToLE(t.footerLength, 8) + ToLE(t.footerCrc, 4) + [0, 0, 0, 0]
  }

  function DecodeTrailer(data: Bytes): Result<Trailer, ReadError> {
    if |data| != TRAILER_SIZE then Err(CorruptSegment)
    else if data[..8] != MAGIC then Err(CorruptSegment)
    else Ok(Trailer(FromLE(data[8..16]), FromLE(data[16..24]), FromLE(data[24..28])))
  }

  lemma TrailerRoundTrip(t: Trailer)
    requires FitsTrailer(t)
    ensures DecodeTrailer(EncodeTrailer(t)) == Ok(t)
  {
    Widths();
    EncodedFields(t);
    FromToLE(t.footerOffset, 8);
    FromToLE(t.footerLength, 8);
    FromToLE(t.footerCrc, 4);
  }

  /** The bytes of a trailer that carry information; the last four are reserved and ignored. */
  function TrailerFields(data: Bytes): (Bytes, Bytes, Bytes, Bytes)
    requires |data| == TRAILER_SIZE
  {
    (data[..8], data[8..16], data[16..24], data[24..28])
  }

  lemma EncodedFields(t: Trailer)
    requires FitsTrailer(t)
    ensures TrailerFields(EncodeTrailer(t)) ==
            (MAGIC, ToLE(t.footerOffset, 8), ToLE(t.footerLength, 8), ToLE(t.footerCrc, 4))
  {
    var bs := EncodeTrailer(t);
    assert bs[..8] == MAGIC;
    assert bs[8..16] == ToLE(t.footerOffset, 8);
    assert bs[16..24] == ToLE(t.footerLength, 8);
    assert bs[24..28] == ToLE(t.footerCrc, 4);
  }

  /** Encoding then decoding is the identity; decoding then encoding is the identity on every
      field the format reads, so the decoder accepts exactly the encoder's outputs. */
  lemma TrailerAccepted(data: Bytes)
    requires DecodeTrailer(data).Ok?
    ensures var t := DecodeTrailer(data).value;
            FitsTrailer(t) && TrailerFields(EncodeTrailer(t)) == TrailerFields(data)
  {
    var t := DecodeTrailer(data).value;
    Widths();
    ToFromLE(data[8..16]);
    ToFromLE(data[16..24]);
    ToFromLE(data[24..28]);
    EncodedFields(t);
  }

  lemma LEStep(n: nat, w: nat, rest: Bytes)
    requires w >= 1 && ToLE(n / 256, w - 1) == rest
    ensures ToLE(n, w) == [(n % 256) as Byte] + rest
  {
  }

  lemma {:induction false} LEZero(w: nat)
    ensures ToLE(0, w) == seq(w, _ => 0 as Byte)
  {
    if w > 0 {
      LEZero(w - 1);
      LEStep(0, w, seq(w - 1, _ => 0 as Byte));
    }
  }

  lemma OffsetLooks()
    ensures ToLE(1, 8) == [1, 0, 0, 0, 0, 0, 0, 0]
  {
    LEZero(7);
    LEStep(1, 8, [0, 0, 0, 0, 0, 0, 0]);
  }

  lemma LengthLooks()
    ensures ToLE(258, 8) == [2, 1, 0, 0, 0, 0, 0, 0]
  {
    LEZero(6);
    LEStep(1, 7, [0, 0, 0, 0, 0, 0]);
    LEStep(258, 8, [1, 0, 0, 0, 0, 0, 0]);
  }

  lemma ChecksumLooks()
    ensures ToLE(3, 4) == [3, 0, 0, 0]
  {
    LEZero(3);
    LEStep(3, 4, [0, 0, 0]);
  }

  /** A trailer byte by byte: magic, two 8-byte fields and a 4-byte one, low byte first, four spare. */
  lemma TrailerLooks()
    ensures EncodeTrailer(Trailer(1, 258, 3)) ==
            [0x52, 0x53, 0x53, 0x45, 0x47, 0x31, 0, 0]
            + [1, 0, 0, 0, 0, 0, 0, 0]
            + [2, 1, 0, 0, 0, 0, 0, 0]
            + [3, 0, 0, 0]
            + [0, 0, 0, 0]
  {
    OffsetLooks();
    LengthLooks();
    ChecksumLooks();
  }

  // ------------------------------------------------------------------- footer

  function EncodeFooter(c: Codec, blocks: seq<BlockEntry>, records: seq<RecordEntry>): Bytes {
    c.compress(c.pack(Footer(FOOTER_VERSION, blocks, records)))
  }

  function DecodeFooter(c: Codec, compressed: Bytes): Result<Footer, ReadError> {
    match c.decompress(compressed)
    case None => Err(CorruptSegment)
    case Some(raw) =>
      match c.unpack(raw)
      case NotADocument => Err(CorruptSegment)
      case WrongShape => Err(BadFooterShape)
      case Document(footer) => Ok(footer)
  }

  // ------------------------------------------------ uncached reads of one file

  /** What `SegmentReader._footer_for` computes on a cache miss. */
  function FooterOf(c: Codec, file: Bytes): Result<Footer, ReadError> {
    if |file| < TRAILER_SIZE then Err(CorruptSegment)
    else
      match DecodeTrailer(file[|file| - TRAILER_SIZE..])
      case Err(e) => Err(e)
      case Ok(t) =>
        if t.footerOffset + t.footerLength + TRAILER_SIZE > |file| then Err(CorruptSegment)
        else
          var compressed := file[t.footerOffset..t.footerOffset + t.footerLength];
          if c.crc32(compressed) != t.footerCrc then Err(CorruptSegment)
          else DecodeFooter(c, compressed)
  }

  /** The end of the file is a trailer whose footer lies in front of it with the recorded checksum. */
  predicate Framed(c: Codec, file: Bytes) {
    |file| >= 32 &&
    var t := file[|file| - 32..];
    var offset, length := FromLE(t[8..16]), FromLE(t[16..24]);
    && t[..8] == [0x52, 0x53, 0x53, 0x45, 0x47, 0x31, 0, 0]
    && offset + length <= |file| - 32
    && c.crc32(file[offset..offset + length]) == FromLE(t[24..28])
  }

  /** The stored footer, still compressed. */
  function FooterSlice(c: Codec, file: Bytes): Bytes
    requires Framed(c, file)
  {
    var t := file[|file| - 32..];
    file[FromLE(t[8..16])..FromLE(t[8..16]) + FromLE(t[16..24])]
  }

  /** A file that is short, unmarked, out of bounds or off its checksum is corrupt; past that, what fails to
      decompress or unpack is corrupt, and only a document of another shape escapes. */
  lemma FooterOfIff(c: Codec, file: Bytes)
    ensures !Framed(c, file) ==> FooterOf(c, file) == Err(CorruptSegment)
    ensures Framed(c, file) ==>
              var raw := c.decompress(FooterSlice(c, file));
              && (FooterOf(c, file) == Err(CorruptSegment) <==> raw.None? || c.unpack(raw.value).NotADocument?)
              && (FooterOf(c, file) == Err(BadFooterShape) <==> raw.Some? && c.unpack(raw.value).WrongShape?)
              && (FooterOf(c, file).Ok? ==> raw.Some? && c.unpack(raw.value) == Document(FooterOf(c, file).value))
  {
  }

  /** What `SegmentReader._block_bytes` computes on a cache miss. */
  function BlockOf(c: Codec, file: Bytes, blockNo: nat): Result<Bytes, ReadError> {
    match FooterOf(c, file)
    case Err(e) => Err(e)
    case Ok(footer) =>
      if blockNo >= |footer.blocks| then Err(BlockIndexError)
      else
        var entry := footer.blocks[blockNo];
        match c.decompress(Slice(file, entry.offset, entry.length))
        case None => Err(BadFrame)
        case Some(data) => Ok(data)
  }

  type Files = map<nat, Bytes>

  function BlockIn(c: Codec, files: Files, segmentId: nat, blockNo: nat): Result<Bytes, ReadError> {
    if segmentId !in files then Err(FileNotFound) else BlockOf(c, files[segmentId], blockNo)
  }

  /** `SegmentReader.read` without its caches. */
  function ReadAt(c: Codec, files: Files, loc: BlobLocation): (r: Result<Bytes, ReadError>)
    ensures r.Ok? ==> Sha256(r.value) == loc.sha256
  {
    match BlockIn(c, files, loc.segmentId, loc.blockNo)
    case Err(e) => Err(e)
    case Ok(block) =>
      var data := Slice(block, loc.offset, loc.length);
      if Sha256(data) == loc.sha256 then Ok(data) else Err(CorruptSegment)
  }
}
