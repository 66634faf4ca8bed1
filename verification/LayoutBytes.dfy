/** The blob layout down to its bytes: the header, the table of contents as a message on the wire, and which section a
    lookup serves. */
module LayoutBytes {
  import opened Prelude
  import opened Framing
  import opened BlobLayout

  // Fixed-width numbers.

  /** Each further byte counts 256 times as much. */
  lemma {:induction false} FromDigits(bytes: seq<Byte>, last: Byte)
    ensures FromLittleEndian(bytes + [last]) == FromLittleEndian(bytes) + last * Pow2(8 * |bytes|)
  {
    if bytes == [] {
      assert bytes + [last] == [last] && [last][1..] == [];
    } else {
      assert (bytes + [last])[1..] == bytes[1..] + [last];
      FromDigits(bytes[1..], last);
      var k := 8 * |bytes[1..]|;
      Pow2Seven(k);
      assert Pow2(8 * |bytes|) == 2 * Pow2(k + 7) == 256 * Pow2(k);
      Scale(last, Pow2(k));
    }
  }

  lemma Scale(a: nat, b: nat)
    ensures 256 * (a * b) == a * (256 * b)
  {
  }

  /** The header is the magic, version 1 in four bytes, the header's own 28 in eight, and the table's length in
      eight. */
  lemma HeaderBytes(length: nat)
    requires length < U64_LIMIT
    ensures Header(length)[..20] == [75, 73, 68, 69, 74, 86, 77, 49, 1, 0, 0, 0, 28, 0, 0, 0, 0, 0, 0, 0]
    ensures FromLittleEndian(Header(length)[20..28]) == length
  {
    hide LittleEndian, FromLittleEndian;
    EightBytes(length);
    LittleEndianRoundTrip(length, 8);
    SmallDigits(LAYOUT_VERSION);
    SmallDigits(HEADER_SIZE);
    Behind(MAGIC + LittleEndian(LAYOUT_VERSION, 4) + LittleEndian(HEADER_SIZE, 8), LittleEndian(length, 8));
    Opening();
  }

  lemma Behind(a: seq<Byte>, b: seq<Byte>)
    ensures (a + b)[..|a|] == a && (a + b)[|a|..|a| + |b|] == b
  {
  }

  lemma Opening()
    ensures MAGIC + [1, 0, 0, 0] + [28, 0, 0, 0, 0, 0, 0, 0] ==
      [75, 73, 68, 69, 74, 86, 77, 49, 1, 0, 0, 0, 28, 0, 0, 0, 0, 0, 0, 0]
  {
  }

  lemma SmallDigits(n: nat)
    requires n < 256
    ensures LittleEndian(n, 4) == [n, 0, 0, 0] && LittleEndian(n, 8) == [n, 0, 0, 0, 0, 0, 0, 0]
  {
    ZeroDigits(3);
    ZeroDigits(7);
    assert LittleEndian(0, 3) == [0, 0, 0];
    assert LittleEndian(0, 7) == [0, 0, 0, 0, 0, 0, 0];
  }

  lemma {:induction false} ZeroDigits(width: nat)
    ensures forall i :: 0 <= i < width ==> LittleEndian(0, width)[i] == 0
  {
    if width > 0 {
      ZeroDigits(width - 1);
    }
  }

  // The table as a message.

  /** A number under its field number; the default zero is left out. */
  function NumberField(field: nat, value: nat): seq<Byte>
    requires field < 16
  {
    if value == 0 then [] else [8 * field] + Varint(value)
  }

  /** Bytes under their field number, behind their length. */
  function BytesField(field: nat, bytes: seq<Byte>): seq<Byte>
    requires field < 16
  {
    [8 * field + 2] + Varint(|bytes|) + bytes
  }

  function SectionMessage(s: Section): seq<Byte> {
    NumberField(1, s.kind) + NumberField(2, s.offset) + NumberField(3, s.length)
    + (if s.sha == [] then [] else BytesField(4, s.sha))
    + NumberField(5, s.compression) + NumberField(6, s.first) + NumberField(7, s.past)
  }

  function SectionMessages(sections: seq<Section>): seq<Byte> {
    if sections == [] then [] else BytesField(2, SectionMessage(sections[0])) + SectionMessages(sections[1..])
  }

  /** The table of contents as Protocol Buffers encode it. */
  function TocMessage(toc: Toc): seq<Byte> {
    NumberField(1, toc.version) + SectionMessages(toc.sections)
  }

  lemma FieldSize(field: nat, value: nat)
    requires field < 16
    ensures |NumberField(field, value)| == FieldLength(value)
  {
    VarintSize(value);
  }

  lemma LineSize(s: Section)
    ensures |SectionMessage(s)| == SectionLength(s)
  {
    FieldSize(1, s.kind);
    FieldSize(2, s.offset);
    FieldSize(3, s.length);
    FieldSize(5, s.compression);
    FieldSize(6, s.first);
    FieldSize(7, s.past);
    VarintSize(|s.sha|);
  }

  lemma {:induction false} LinesSize(sections: seq<Section>)
    ensures |SectionMessages(sections)| == SectionsLength(sections)
  {
    if sections != [] {
      LineSize(sections[0]);
      VarintSize(SectionLength(sections[0]));
      LinesSize(sections[1..]);
    }
  }

  /** The length that the solver computes for a table is that of its message. */
  lemma TocSize(toc: Toc)
    ensures |TocMessage(toc)| == TocLength(toc)
  {
    FieldSize(1, toc.version);
    LinesSize(toc.sections);
  }

  // Which section is served.

  /** A lookup finds the first line that is wanted. */
  lemma {:induction false} LocateFirst(sections: seq<Section>, wanted: Wanted, i: nat)
    ensures Locate(sections, wanted) == Some(i) <==>
      && i < |sections| && wanted(sections[i].kind, sections[i].first, sections[i].past)
      && forall j :: 0 <= j < i ==> !wanted(sections[j].kind, sections[j].first, sections[j].past)
    ensures Locate(sections, wanted) == None <==>
      forall j :: 0 <= j < |sections| ==> !wanted(sections[j].kind, sections[j].first, sections[j].past)
  {
    if sections != [] {
      var rest := sections[1..];
      LocateFirst(rest, wanted, if i > 0 then i - 1 else 0);
      assert forall j :: 0 <= j < |rest| ==> rest[j] == sections[j + 1];
      if Locate(sections, wanted) == Some(i) && i > 0 {
        forall j | 0 <= j < i ensures !wanted(sections[j].kind, sections[j].first, sections[j].past) {
          if j > 0 { assert rest[j - 1] == sections[j]; }
        }
      }
      if Locate(sections, wanted) == None {
        forall j | 0 <= j < |sections| ensures !wanted(sections[j].kind, sections[j].first, sections[j].past) {
          if j > 0 { assert rest[j - 1] == sections[j]; }
        }
      }
    }
  }

  /** A section's bytes are served exactly when it is there and its stretch of the blob has the digest that its line
      names; a section with altered bytes is refused. */
  lemma ServedExactly(layout: Layout, wanted: Wanted, wire: Wire, bytes: seq<Byte>)
    requires Sound(layout)
    ensures match Locate(layout.toc.sections, wanted)
      case None => SectionBytes(layout, wanted, wire) == Err(MissingSection)
      case Some(i) =>
        var s := layout.toc.sections[i];
        && s.offset + s.length <= |layout.bytes|
        && (SectionBytes(layout, wanted, wire) == Ok(bytes) <==>
              bytes == layout.bytes[s.offset..s.offset + s.length] && wire.digest(bytes) == s.sha)
        && (SectionBytes(layout, wanted, wire) == Err(ChecksumMismatch) <==>
              wire.digest(layout.bytes[s.offset..s.offset + s.length]) != s.sha)
  {
    match Locate(layout.toc.sections, wanted)
    case None =>
    case Some(i) => assert InBounds(layout.toc.sections[i], HEADER_SIZE, |layout.bytes|);
  }

  lemma KindPlaced(stored: seq<Stored>, layout: Layout, wire: Wire, j: nat)
    requires Lawful(wire) && IsEncoding(stored, layout, wire) && j < |stored|
    ensures j < |layout.toc.sections| && layout.toc.sections[j].kind == stored[j].kind
    ensures InBounds(layout.toc.sections[j], HEADER_SIZE, |layout.bytes|)
  {
    hide Lawful, Total, TocLength, Bodies, Placed, WireSized, Header;
    EncodingPlaces(stored, layout, wire, j);
    PlacedAt(stored, HEADER_SIZE + TocLength(layout.toc), wire, j);
  }

  /** Bytes of another blob under a written table: a section whose stretch has not the digest of what was stored is
      refused, and what is served has that digest. */
  lemma AlteredRefused(stored: seq<Stored>, layout: Layout, wire: Wire, altered: seq<Byte>, i: nat)
    requires Lawful(wire) && IsEncoding(stored, layout, wire) && |altered| == |layout.bytes|
    requires i < |stored| && forall j :: 0 <= j < i ==> stored[j].kind != stored[i].kind
    ensures var other, at := Layout(altered, layout.toc), HEADER_SIZE + TocLength(layout.toc) + Total(stored[..i]);
      && Sound(other) && at + |stored[i].bytes| <= |altered|
      && var found := altered[at..at + |stored[i].bytes|];
         SectionBytes(other, OfKind(stored[i].kind), wire) ==
           if wire.digest(found) == wire.digest(stored[i].bytes) then Ok(found) else Err(ChecksumMismatch)
  {
    hide Lawful, Total, TocLength, SectionBytes, IsEncoding, Locate;
    var other := Layout(altered, layout.toc);
    EncodingPlaces(stored, layout, wire, i);
    forall j | 0 <= j < |stored|
      ensures InBounds(layout.toc.sections[j], HEADER_SIZE, |altered|)
      ensures layout.toc.sections[j].kind == stored[j].kind
    {
      KindPlaced(stored, layout, wire, j);
    }
    LocateFirst(layout.toc.sections, OfKind(stored[i].kind), i);
    ServedExactly(other, OfKind(stored[i].kind), wire, altered[layout.toc.sections[i].offset
                                                              ..layout.toc.sections[i].offset + |stored[i].bytes|]);
  }

  // What the reader demands.

  /** A blob's header is read exactly when it has the magic, version 1 and the header's size; another version is
      told. */
  lemma HeaderExactly(header: seq<Byte>, length: nat)
    ensures TocLocation(header) == Ok(length) <==>
      && |header| == 28 && header[..8] == [75, 73, 68, 69, 74, 86, 77, 49]
      && FromLittleEndian(header[8..12]) == 1 && FromLittleEndian(header[12..20]) == 28
      && FromLittleEndian(header[20..28]) == length
    ensures TocLocation(header) == Err(UnsupportedVersion(length)) <==>
      && |header| == 28 && header[..8] == [75, 73, 68, 69, 74, 86, 77, 49]
      && FromLittleEndian(header[8..12]) == length && length != 1
  {
  }

  /** A blob is accepted, with a table, exactly when its header is good, its table lies inside it and decodes to that
      table of version 1, and every line names a stretch behind the table and inside the blob and a digest of 32
      bytes. */
  lemma AcceptedExactly(bytes: seq<Byte>, wire: Wire, toc: Toc)
    ensures Validated(bytes, wire) == Ok(Layout(bytes, toc)) <==>
      && |bytes| >= 28 && TocLocation(bytes[..28]).Ok?
      && var end := 28 + FromLittleEndian(bytes[20..28]);
         && end <= |bytes| && wire.decode(bytes[28..end]) == Ok(toc) && toc.version == 1
         && forall s :: s in toc.sections ==> end <= s.offset && s.offset + s.length <= |bytes| && |s.sha| == 32
  {
    if |bytes| >= 28 {
      var header := bytes[..28];
      assert header[20..28] == bytes[20..28];
      HeaderExactly(header, FromLittleEndian(bytes[20..28]));
      if TocLocation(header).Ok? {
        HeaderExactly(header, TocLocation(header).value);
        assert forall i :: 0 <= i < |toc.sections| ==> toc.sections[i] in toc.sections;
      }
    }
  }
}
