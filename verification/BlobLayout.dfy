/** The section-addressable dependency blob: fixed header, table of contents holding absolute offsets that depend on
    the table's own encoded length, then the sections. Digests, gzip and the table's message bytes are parameters; the
    length of the encoded table is computed as the wire format of Protocol Buffers lays it out. */
module BlobLayout {
  import opened Prelude
  import opened Framing

  const LAYOUT_VERSION: nat := 1
  const HEADER_SIZE: nat := 28
  const DIGEST_SIZE: nat := 32
  const SECTION_LIMIT: nat := 84
  const MAGIC: seq<Byte> := [75, 73, 68, 69, 74, 86, 77, 49]

  datatype LayoutError =
    | InvalidHeader
    | UnsupportedVersion(version: nat)
    | BadMessage
    | MissingSection
    | ChecksumMismatch
    | UnsupportedCompression
    | BadGzip

  /** A section as handed to the encoder. */
  datatype Stored = Stored(kind: nat, bytes: seq<Byte>, compression: nat, first: nat, past: nat)

  /** A section's line in the table of contents. */
  datatype Section =
    Section(kind: nat, offset: nat, length: nat, sha: seq<Byte>, compression: nat, first: nat, past: nat)

  datatype Toc = Toc(version: nat, sections: seq<Section>)

  datatype Layout = Layout(bytes: seq<Byte>, toc: Toc)

  /** The libraries the layout relies on. */
  datatype Wire = Wire(
    encode: Toc -> seq<Byte>,
    decode: seq<Byte> -> Result<Toc, LayoutError>,
    digest: seq<Byte> -> seq<Byte>,
    gzip: seq<Byte> -> seq<Byte>,
    gunzip: seq<Byte> -> Result<seq<Byte>, LayoutError>)

  ghost predicate Lawful(wire: Wire) {
    && (forall toc :: WireSized(toc) ==>
          wire.decode(wire.encode(toc)) == Ok(toc) && |wire.encode(toc)| == TocLength(toc))
    && (forall bytes :: |wire.digest(bytes)| == DIGEST_SIZE)
    && (forall bytes :: wire.gunzip(wire.gzip(bytes)) == Ok(bytes))
  }

  // Encoded lengths.

  /** A scalar field is left out at its default; every field number here takes a one-byte tag. */
  function FieldLength(value: nat): nat {
    if value == 0 then 0 else 1 + VarintLength(value)
  }

  function BytesLength(size: nat): nat {
    if size == 0 then 0 else 1 + VarintLength(size) + size
  }

  function SectionLength(s: Section): nat {
    FieldLength(s.kind) + FieldLength(s.offset) + FieldLength(s.length) + BytesLength(|s.sha|)
    + FieldLength(s.compression) + FieldLength(s.first) + FieldLength(s.past)
  }

  function SectionsLength(sections: seq<Section>): nat {
    if sections == [] then 0
    else 1 + VarintLength(SectionLength(sections[0])) + SectionLength(sections[0]) + SectionsLength(sections[1..])
  }

  function TocLength(toc: Toc): nat {
    FieldLength(toc.version) + SectionsLength(toc.sections)
  }

  predicate SectionSized(s: Section) {
    && s.kind < 128 && s.compression < 128 && s.offset < U64_LIMIT && s.length < U64_LIMIT
    && s.first < U32_LIMIT && s.past < U32_LIMIT && |s.sha| == DIGEST_SIZE
  }

  predicate WireSized(toc: Toc) {
    && toc.version < U32_LIMIT
    && (forall i :: 0 <= i < |toc.sections| ==> SectionSized(toc.sections[i]))
  }

  lemma {:induction false} VarintLengthMonotone(m: nat, n: nat)
    requires m <= n
    ensures VarintLength(m) <= VarintLength(n)
    decreases n
  {
    if m >= 128 {
      VarintLengthMonotone(m / 128, n / 128);
    }
  }

  lemma FieldLengthBound(value: nat)
    requires value < U64_LIMIT
    ensures FieldLength(value) <= 11
    ensures value < 128 ==> FieldLength(value) <= 2
  {
    LengthsFit(value);
    VarintSize(value);
  }

  /** No section's line takes more than the limit below, whatever its offset. */
  lemma SectionLengthBound(s: Section)
    requires SectionSized(s)
    ensures SectionLength(s) < 128
    ensures 1 + VarintLength(SectionLength(s)) + SectionLength(s) <= SECTION_LIMIT
  {
    FieldLengthBound(s.kind);
    FieldLengthBound(s.offset);
    FieldLengthBound(s.length);
    FieldLengthBound(s.compression);
    FieldLengthBound(s.first);
    FieldLengthBound(s.past);
    assert BytesLength(|s.sha|) == 34;
  }

  // The fixpoint.

  function Total(stored: seq<Stored>): nat {
    if stored == [] then 0 else |stored[0].bytes| + Total(stored[1..])
  }

  predicate StoredSized(s: Stored) {
    0 < s.kind < 128 && s.compression < 128 && s.first < U32_LIMIT && s.past < U32_LIMIT
  }

  /** What the encoder's integer widths demand: the finished blob's size fits 64 bits. */
  predicate Encodable(stored: seq<Stored>) {
    && (forall i :: 0 <= i < |stored| ==> StoredSized(stored[i]))
    && HEADER_SIZE + 2 + SECTION_LIMIT * |stored| + Total(stored) < U64_LIMIT
  }

  /** The table lines of sections laid one after the other from an offset on. */
  function Placed(stored: seq<Stored>, offset: nat, wire: Wire): (r: seq<Section>)
    ensures |r| == |stored|
  {
    if stored == [] then []
    else
      var s := stored[0];
      [Section(s.kind, offset, |s.bytes|, wire.digest(s.bytes), s.compression, s.first, s.past)]
      + Placed(stored[1..], offset + |s.bytes|, wire)
  }

  function TocAt(stored: seq<Stored>, offset: nat, wire: Wire): Toc {
    Toc(LAYOUT_VERSION, Placed(stored, offset, wire))
  }

  /** Where the sections must start when the table's offsets start at `offset`. */
  function Pushed(stored: seq<Stored>, offset: nat, wire: Wire): nat {
    HEADER_SIZE + TocLength(TocAt(stored, offset, wire))
  }

  lemma {:induction false} LengthsMonotone(stored: seq<Stored>, low: nat, high: nat, wire: Wire)
    requires low <= high
    ensures SectionsLength(Placed(stored, low, wire)) <= SectionsLength(Placed(stored, high, wire))
  {
    if stored != [] {
      var size := |stored[0].bytes|;
      LengthsMonotone(stored[1..], low + size, high + size, wire);
      var a, b := Placed(stored, low, wire), Placed(stored, high, wire);
      assert a[1..] == Placed(stored[1..], low + size, wire) && b[1..] == Placed(stored[1..], high + size, wire);
      assert b[0] == a[0].(offset := high);
      LineMonotone(a[0], high);
    }
  }

  lemma LineMonotone(s: Section, higher: nat)
    requires s.offset <= higher
    ensures SectionLength(s) <= SectionLength(s.(offset := higher))
    ensures VarintLength(SectionLength(s)) <= VarintLength(SectionLength(s.(offset := higher)))
  {
    VarintLengthMonotone(s.offset, higher);
    VarintLengthMonotone(SectionLength(s), SectionLength(s.(offset := higher)));
  }

  lemma PushedMonotone(stored: seq<Stored>, low: nat, high: nat, wire: Wire)
    requires low <= high
    ensures Pushed(stored, low, wire) <= Pushed(stored, high, wire)
  {
    LengthsMonotone(stored, low, high, wire);
  }

  lemma {:induction false} PlacedAt(stored: seq<Stored>, offset: nat, wire: Wire, i: nat)
    requires i < |stored|
    ensures var s := stored[i];
      Placed(stored, offset, wire)[i] ==
        Section(s.kind, offset + Total(stored[..i]), |s.bytes|, wire.digest(s.bytes), s.compression, s.first, s.past)
  {
    if i > 0 {
      PlacedAt(stored[1..], offset + |stored[0].bytes|, wire, i - 1);
      assert stored[..i][1..] == stored[1..][..i - 1];
    }
  }

  lemma {:induction false} TotalSplit(stored: seq<Stored>, i: nat)
    requires i <= |stored|
    ensures Total(stored[..i]) + Total(stored[i..]) == Total(stored)
  {
    if i == 0 {
      assert stored[i..] == stored;
    } else {
      TotalSplit(stored[1..], i - 1);
      assert stored[..i][1..] == stored[1..][..i - 1] && stored[1..][i - 1..] == stored[i..];
    }
  }

  lemma PlacedSized(stored: seq<Stored>, offset: nat, wire: Wire)
    requires Lawful(wire) && (forall i :: 0 <= i < |stored| ==> StoredSized(stored[i]))
    requires offset + Total(stored) < U64_LIMIT
    ensures WireSized(TocAt(stored, offset, wire))
  {
    var sections := Placed(stored, offset, wire);
    forall i | 0 <= i < |sections| ensures SectionSized(sections[i]) {
      PlacedAt(stored, offset, wire, i);
      TotalSplit(stored, i);
      assert StoredSized(stored[i]);
      assert |stored[i].bytes| <= Total(stored[i..]);
    }
  }

  lemma {:induction false} SectionsLengthBound(sections: seq<Section>)
    requires forall i :: 0 <= i < |sections| ==> SectionSized(sections[i])
    ensures SectionsLength(sections) <= SECTION_LIMIT * |sections|
  {
    if sections != [] {
      SectionLengthBound(sections[0]);
      SectionsLengthBound(sections[1..]);
    }
  }

  function Ceiling(stored: seq<Stored>): nat {
    HEADER_SIZE + 2 + SECTION_LIMIT * |stored|
  }

  lemma PushedBound(stored: seq<Stored>, offset: nat, wire: Wire)
    requires Lawful(wire) && Encodable(stored) && offset <= Ceiling(stored)
    ensures Pushed(stored, offset, wire) <= Ceiling(stored)
    ensures WireSized(TocAt(stored, offset, wire))
  {
    PlacedSized(stored, offset, wire);
    SectionsLengthBound(Placed(stored, offset, wire));
  }

  /** Solves for the table: offsets from the least start that the encoded table itself pushes the sections to. */
  method SolveToc(stored: seq<Stored>, wire: Wire) returns (toc: Toc, ghost start: nat)
    requires Lawful(wire) && Encodable(stored)
    ensures toc == TocAt(stored, start, wire) && WireSized(toc)
    ensures start == HEADER_SIZE + TocLength(toc) <= Ceiling(stored)
    ensures forall other: nat :: Pushed(stored, other, wire) == other ==> start <= other
  {
    hide Lawful, TocLength, Placed, WireSized;
    toc := Toc(LAYOUT_VERSION, []);
    start := 0;
    EmptyToc(toc);
    forall other: nat ensures Pushed(stored, other, wire) >= HEADER_SIZE + 2 {
      PushedAtLeast(stored, other, wire);
    }
    while true
      invariant toc.version == LAYOUT_VERSION && WireSized(toc)
      invariant if start == 0 then toc.sections == [] else toc == TocAt(stored, start, wire)
      invariant start <= HEADER_SIZE + TocLength(toc) <= Ceiling(stored)
      invariant forall other: nat :: Pushed(stored, other, wire) == other ==> HEADER_SIZE + TocLength(toc) <= other
      decreases Ceiling(stored) - start
    {
      var offset: nat := HEADER_SIZE + TocLength(toc);
      var next := Placed(stored, offset, wire);
      PushedBound(stored, offset, wire);
      PushedAtLeast(stored, offset, wire);
      if next == toc.sections {
        start := offset;
        return;
      }
      PushedMonotone(stored, start, offset, wire);
      forall other: nat | Pushed(stored, other, wire) == other ensures Pushed(stored, offset, wire) <= other {
        PushedMonotone(stored, offset, other, wire);
      }
      toc := toc.(sections := next);
      start := offset;
    }
  }

  lemma EmptyToc(toc: Toc)
    requires toc == Toc(LAYOUT_VERSION, [])
    ensures TocLength(toc) == 2 && WireSized(toc)
  {
  }

  lemma PushedAtLeast(stored: seq<Stored>, offset: nat, wire: Wire)
    ensures Pushed(stored, offset, wire) >= HEADER_SIZE + 2
  {
  }

  // The blob.

  function LittleEndian(n: nat, width: nat): (r: seq<Byte>)
    ensures |r| == width
  {
    if width == 0 then [] else [n % 256] + LittleEndian(n / 256, width - 1)
  }

  function FromLittleEndian(bytes: seq<Byte>): nat {
    if bytes == [] then 0 else bytes[0] + 256 * FromLittleEndian(bytes[1..])
  }

  lemma {:induction false} LittleEndianRoundTrip(n: nat, width: nat)
    requires n < Pow2(8 * width)
    ensures FromLittleEndian(LittleEndian(n, width)) == n
  {
    if width > 0 {
      var w := 8 * (width - 1);
      assert Pow2(w + 8) == 2 * Pow2(w + 7);
      Pow2Seven(w);
      assert n / 256 < Pow2(w);
      LittleEndianRoundTrip(n / 256, width - 1);
      assert LittleEndian(n, width)[1..] == LittleEndian(n / 256, width - 1);
    }
  }

  function Bodies(stored: seq<Stored>): (r: seq<Byte>)
    ensures |r| == Total(stored)
  {
    if stored == [] then [] else stored[0].bytes + Bodies(stored[1..])
  }

  lemma {:induction false} BodyAt(stored: seq<Stored>, i: nat)
    requires i < |stored|
    ensures var from := Total(stored[..i]);
      from + |stored[i].bytes| <= Total(stored) && Bodies(stored)[from..from + |stored[i].bytes|] == stored[i].bytes
  {
    var body := Bodies(stored);
    if i > 0 {
      BodyAt(stored[1..], i - 1);
      assert stored[..i][1..] == stored[1..][..i - 1];
      var inner, size := Total(stored[1..][..i - 1]), |stored[0].bytes|;
      Stretch(stored[0].bytes, Bodies(stored[1..]), inner, |stored[i].bytes|);
    }
  }

  /** A stretch behind a prefix is that stretch of what follows the prefix. */
  lemma Stretch(prefix: seq<Byte>, rest: seq<Byte>, from: nat, count: nat)
    requires from + count <= |rest|
    ensures (prefix + rest)[|prefix| + from..|prefix| + from + count] == rest[from..from + count]
  {
  }

  function Header(tocLength: nat): (r: seq<Byte>)
    ensures |r| == HEADER_SIZE
  {
    MAGIC + LittleEndian(LAYOUT_VERSION, 4) + LittleEndian(HEADER_SIZE, 8) + LittleEndian(tocLength, 8)
  }

  /** A blob of these sections: the table names its own end as the first section's start. */
  ghost predicate IsEncoding(stored: seq<Stored>, layout: Layout, wire: Wire) {
    && layout.toc == TocAt(stored, HEADER_SIZE + TocLength(layout.toc), wire)
    && WireSized(layout.toc)
    && layout.bytes == Header(TocLength(layout.toc)) + wire.encode(layout.toc) + Bodies(stored)
  }

  method Encode(stored: seq<Stored>, wire: Wire) returns (layout: Layout)
    requires Lawful(wire) && Encodable(stored)
    ensures IsEncoding(stored, layout, wire)
    ensures HEADER_SIZE + TocLength(layout.toc) <= Ceiling(stored) && |layout.bytes| < U64_LIMIT
    ensures forall other: nat :: Pushed(stored, other, wire) == other ==> HEADER_SIZE + TocLength(layout.toc) <= other
  {
    var toc, start := SolveToc(stored, wire);
    var tocBytes := wire.encode(toc);
    var bytes := MAGIC;
    bytes := bytes + LittleEndian(LAYOUT_VERSION, 4);
    bytes := bytes + LittleEndian(HEADER_SIZE, 8);
    bytes := bytes + LittleEndian(|tocBytes|, 8);
    bytes := bytes + tocBytes;
    bytes := bytes + Bodies(stored);
    layout := Layout(bytes, toc);
  }

  /** Reads the header: the table's length. */
  function TocLocation(header: seq<Byte>): Result<nat, LayoutError> {
    if |header| != HEADER_SIZE || header[..8] != MAGIC then Err(InvalidHeader)
    else if FromLittleEndian(header[8..12]) != LAYOUT_VERSION then
      Err(UnsupportedVersion(FromLittleEndian(header[8..12])))
    else if FromLittleEndian(header[12..20]) != HEADER_SIZE then Err(InvalidHeader)
    else Ok(FromLittleEndian(header[20..28]))
  }

  predicate InBounds(s: Section, tocEnd: nat, size: nat) {
    tocEnd <= s.offset && s.offset + s.length <= size && |s.sha| == DIGEST_SIZE
  }

  function ParseToc(tocLength: nat, size: nat, tocBytes: seq<Byte>, wire: Wire): Result<Toc, LayoutError> {
    var tocEnd := HEADER_SIZE + tocLength;
    if |tocBytes| != tocLength || tocEnd > size then Err(InvalidHeader)
    else
      match wire.decode(tocBytes)
      case Err(e) => Err(e)
      case Ok(toc) =>
        if toc.version != LAYOUT_VERSION then Err(UnsupportedVersion(toc.version))
        else if forall i :: 0 <= i < |toc.sections| ==> InBounds(toc.sections[i], tocEnd, size) then Ok(toc)
        else Err(InvalidHeader)
  }

  function Validated(bytes: seq<Byte>, wire: Wire): Result<Layout, LayoutError> {
    if |bytes| < HEADER_SIZE then Err(InvalidHeader)
    else
      match TocLocation(bytes[..HEADER_SIZE])
      case Err(e) => Err(e)
      case Ok(length) =>
        if HEADER_SIZE + length > |bytes| then Err(InvalidHeader)
        else
          match ParseToc(length, |bytes|, bytes[HEADER_SIZE..HEADER_SIZE + length], wire)
          case Err(e) => Err(e)
          case Ok(toc) => Ok(Layout(bytes, toc))
  }

  // Lookups.

  type Wanted = (nat, nat, nat) -> bool

  predicate IsDetailFor(ordinal: nat, kind: nat, first: nat, past: nat) {
    kind == SymbolDetailBlock && first <= ordinal < past
  }

  const SymbolDictionary: nat := 1
  const GraphFacts: nat := 2
  const SymbolPostings: nat := 3
  const HierarchyPostings: nat := 4
  const QualifiedSymbolDirectory: nat := 5
  const SymbolDetailBlock: nat := 6

  function OfKind(kind: nat): Wanted {
    (k: nat, first: nat, past: nat) => k == kind
  }

  function CoveringBlock(ordinal: nat): Wanted {
    (kind: nat, first: nat, past: nat) => IsDetailFor(ordinal, kind, first, past)
  }

  function Locate(sections: seq<Section>, wanted: Wanted): (r: Option<nat>)
    ensures r.Some? ==> r.value < |sections|
  {
    if sections == [] then None
    else if wanted(sections[0].kind, sections[0].first, sections[0].past) then Some(0)
    else
      match Locate(sections[1..], wanted)
      case None => None
      case Some(i) => Some(i + 1)
  }

  function LocateStored(stored: seq<Stored>, wanted: Wanted): (r: Option<nat>)
    ensures r.Some? ==> r.value < |stored|
  {
    if stored == [] then None
    else if wanted(stored[0].kind, stored[0].first, stored[0].past) then Some(0)
    else
      match LocateStored(stored[1..], wanted)
      case None => None
      case Some(i) => Some(i + 1)
  }

  lemma {:induction false} LocatePlaced(stored: seq<Stored>, offset: nat, wire: Wire, wanted: Wanted)
    ensures Locate(Placed(stored, offset, wire), wanted) == LocateStored(stored, wanted)
  {
    if stored != [] {
      LocatePlaced(stored[1..], offset + |stored[0].bytes|, wire, wanted);
      assert Placed(stored, offset, wire)[1..] == Placed(stored[1..], offset + |stored[0].bytes|, wire);
    }
  }

  /** Every line points inside its blob. */
  ghost predicate Sound(layout: Layout) {
    forall i :: 0 <= i < |layout.toc.sections| ==> InBounds(layout.toc.sections[i], HEADER_SIZE, |layout.bytes|)
  }

  /** The stored bytes of the first section wanted, checked against their digest. */
  function SectionBytes(layout: Layout, wanted: Wanted, wire: Wire): Result<seq<Byte>, LayoutError>
    requires Sound(layout)
  {
    match Locate(layout.toc.sections, wanted)
    case None => Err(MissingSection)
    case Some(i) =>
      var s := layout.toc.sections[i];
      assert InBounds(s, HEADER_SIZE, |layout.bytes|);
      var bytes := layout.bytes[s.offset..s.offset + s.length];
      if s.sha != wire.digest(bytes) then Err(ChecksumMismatch) else Ok(bytes)
  }

  function Decompress(bytes: seq<Byte>, compression: nat, wire: Wire): Result<seq<Byte>, LayoutError> {
    if compression == 0 then Ok(bytes)
    else if compression == 1 then wire.gunzip(bytes)
    else Err(UnsupportedCompression)
  }

  /** The content of the first section wanted. */
  function ReadSection(layout: Layout, wanted: Wanted, wire: Wire): Result<seq<Byte>, LayoutError>
    requires Sound(layout)
  {
    match SectionBytes(layout, wanted, wire)
    case Err(e) => Err(e)
    case Ok(bytes) =>
      Decompress(bytes, layout.toc.sections[Locate(layout.toc.sections, wanted).value].compression, wire)
  }

  // Main results.

  /** Whatever the bytes, an accepted blob's lines point past the table and inside the blob. */
  lemma AcceptedIsSound(bytes: seq<Byte>, wire: Wire)
    requires Validated(bytes, wire).Ok?
    ensures Validated(bytes, wire).value.bytes == bytes && Sound(Validated(bytes, wire).value)
  {
  }

  lemma HeaderReads(length: nat)
    requires length < U64_LIMIT
    ensures TocLocation(Header(length)) == Ok(length)
  {
    Pow2Limits();
    LittleEndianRoundTrip(length, 8);
    EightBytes(HEADER_SIZE);
    LittleEndianRoundTrip(HEADER_SIZE, 8);
    Pow2Monotone(1, 32);
    LittleEndianRoundTrip(LAYOUT_VERSION, 4);
    var h := Header(length);
    assert h[..8] == MAGIC;
    assert h[8..12] == LittleEndian(LAYOUT_VERSION, 4);
    assert h[12..20] == LittleEndian(HEADER_SIZE, 8);
    assert h[20..28] == LittleEndian(length, 8);
  }

  lemma EightBytes(n: nat)
    requires n < U64_LIMIT
    ensures n < Pow2(8 * 8)
  {
    Pow2Limits();
  }

  /** Section by section, the blob's lines name consecutive stretches that hold exactly the stored bytes. */
  lemma EncodingPlaces(stored: seq<Stored>, layout: Layout, wire: Wire, i: nat)
    requires Lawful(wire) && IsEncoding(stored, layout, wire) && i < |stored|
    ensures |layout.toc.sections| == |stored|
    ensures var s := layout.toc.sections[i];
      && s.offset == HEADER_SIZE + TocLength(layout.toc) + Total(stored[..i])
      && s.length == |stored[i].bytes|
      && InBounds(s, HEADER_SIZE + TocLength(layout.toc), |layout.bytes|)
      && layout.bytes[s.offset..s.offset + s.length] == stored[i].bytes
      && s.sha == wire.digest(stored[i].bytes)
      && s.compression == stored[i].compression && s.first == stored[i].first && s.past == stored[i].past
  {
    hide Total, Bodies, Placed, TocLength, WireSized, Header;
    PlacedAt(stored, HEADER_SIZE + TocLength(layout.toc), wire, i);
    BodyAt(stored, i);
    assert |wire.encode(layout.toc)| == TocLength(layout.toc);
    Stretch(Header(TocLength(layout.toc)) + wire.encode(layout.toc), Bodies(stored), Total(stored[..i]),
            |stored[i].bytes|);
  }

  /** The encoder's output is accepted, and its table read back. */
  lemma EncodingValidates(stored: seq<Stored>, layout: Layout, wire: Wire)
    requires Lawful(wire) && IsEncoding(stored, layout, wire) && |layout.bytes| < U64_LIMIT
    ensures Validated(layout.bytes, wire) == Ok(layout) && Sound(layout)
  {
    var length := TocLength(layout.toc);
    HeaderReads(length);
    assert layout.bytes[..HEADER_SIZE] == Header(length);
    assert layout.bytes[HEADER_SIZE..HEADER_SIZE + length] == wire.encode(layout.toc);
    forall i | 0 <= i < |layout.toc.sections|
      ensures InBounds(layout.toc.sections[i], HEADER_SIZE + length, |layout.bytes|)
    {
      EncodingPlaces(stored, layout, wire, i);
    }
  }

  /** Asking an encoded blob for a section gives back the content of the first section stored under that description. */
  lemma SectionServed(stored: seq<Stored>, layout: Layout, wire: Wire, wanted: Wanted)
    requires Lawful(wire) && IsEncoding(stored, layout, wire) && Sound(layout)
    ensures match LocateStored(stored, wanted)
      case None => SectionBytes(layout, wanted, wire) == Err(MissingSection)
      case Some(i) =>
        && SectionBytes(layout, wanted, wire) == Ok(stored[i].bytes)
        && ReadSection(layout, wanted, wire) == Decompress(stored[i].bytes, stored[i].compression, wire)
  {
    LocatePlaced(stored, HEADER_SIZE + TocLength(layout.toc), wire, wanted);
    var found := LocateStored(stored, wanted);
    if found.Some? {
      EncodingPlaces(stored, layout, wire, found.value);
    }
  }
}
