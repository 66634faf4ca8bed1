/** What the stored forms leave out: which strings of a detail are in its block's table, which fields are left to the
    block's defaults, and which ids of an artifact are replaced by ordinals. */
module StoredShape {
  import opened Prelude
  import opened WorkerProto
  import opened ArtifactProto
  import opened SnapshotTransport
  import opened GraphCodec
  import opened SymbolDetail
  import opened DetailBlocks

  // Strings.

  /** A string of the table is stored as its place there and nothing else, and any other string as it is. */
  predicate TextKept(table: seq<string>, value: string, inlined: string, index: Option<nat>) {
    if value in table then inlined == "" && index.Some? && index.value < |table| && table[index.value] == value
    else inlined == value && index.None?
  }

  predicate OptionKept(table: seq<string>, value: Option<string>, inlined: Option<string>, index: Option<nat>) {
    if value.Some? && value.value in table
    then inlined == None && index.Some? && index.value < |table| && table[index.value] == value.value
    else inlined == value && index.None?
  }

  /** A list is stored as places when all its strings are in the table, and else as it is. */
  predicate ListKept(table: seq<string>, values: seq<string>, inlined: seq<string>, indexes: seq<nat>) {
    if forall v :: v in values ==> v in table then
      && (values == [] || inlined == []) && |indexes| == |values|
      && forall i :: 0 <= i < |values| ==> indexes[i] < |table| && table[indexes[i]] == values[i]
    else inlined == values && indexes == []
  }

  lemma LookedUp(table: seq<string>, value: string)
    requires |table| <= U32_LIMIT
    ensures TextKept(table, value, InlineText(table, value), Lookup(table, value))
  {
  }

  lemma {:induction false} AllLookedUp(table: seq<string>, values: seq<string>)
    requires |table| <= U32_LIMIT
    ensures LookupAll(table, values).Some? <==> forall v :: v in values ==> v in table
  {
    hide Lookup;
    if values != [] {
      LookedUp(table, values[0]);
      AllLookedUp(table, values[1..]);
      assert values == [values[0]] + values[1..];
    }
  }

  lemma {:induction false} PlacesRight(table: seq<string>, values: seq<string>)
    requires |table| <= U32_LIMIT && LookupAll(table, values).Some?
    ensures var found := LookupAll(table, values).value;
      && |found| == |values|
      && forall i :: 0 <= i < |values| ==> found[i] < |table| && table[found[i]] == values[i]
  {
    hide Lookup;
    if values != [] {
      LookedUp(table, values[0]);
      PlacesRight(table, values[1..]);
    }
  }

  lemma ListLookedUp(table: seq<string>, values: seq<string>)
    requires |table| <= U32_LIMIT
    ensures ListKept(table, values, InlineMany(table, values), Indexes(table, values))
  {
    hide LookupAll;
    AllLookedUp(table, values);
    if LookupAll(table, values).Some? {
      PlacesRight(table, values);
    }
  }

  lemma OptionLookedUp(table: seq<string>, value: Option<string>)
    requires |table| <= U32_LIMIT
    ensures OptionKept(table, value, InlineOptional(table, value), LookupOf(table, value))
  {
    if value.Some? {
      LookedUp(table, value.value);
    }
  }

  /** A detail stores every string of its declaration in that way. */
  lemma DetailStrings(s: GraphSymbol, d: Defaults)
    requires |d.strings| <= U32_LIMIT
    ensures var e, t := DetailOf(s, d), d.strings;
      && e.id == s.id
      && TextKept(t, s.backendKey, e.backendKey, e.backendKeyIndex) && TextKept(t, s.kind, e.kind, e.kindIndex)
      && TextKept(t, s.name, e.name, e.nameIndex)
      && OptionKept(t, s.qualifiedName, e.qualifiedName, e.qualifiedNameIndex)
      && OptionKept(t, s.signature, e.signature, e.signatureIndex) && OptionKept(t, s.owner, e.owner, e.ownerIndex)
      && ListKept(t, s.modifiers, e.modifiers, e.modifierIndexes) && ListKept(t, s.applied, e.applied, e.appliedIndexes)
  {
    hide TextKept, OptionKept, ListKept, InlineText, InlineOptional, InlineMany, Lookup, LookupOf, Indexes;
    LookedUp(d.strings, s.backendKey);
    LookedUp(d.strings, s.kind);
    LookedUp(d.strings, s.name);
    OptionLookedUp(d.strings, s.qualifiedName);
    OptionLookedUp(d.strings, s.signature);
    OptionLookedUp(d.strings, s.owner);
    ListLookedUp(d.strings, s.modifiers);
    ListLookedUp(d.strings, s.applied);
  }

  // Defaults.

  /** The default is what all declarations of the block have, and empty when they differ. */
  predicate Common(symbols: seq<GraphSymbol>, field: GraphSymbol -> string, default: string) {
    if forall s, t :: s in symbols && t in symbols ==> field(s) == field(t)
    then forall s :: s in symbols ==> field(s) == default
    else default == ""
  }

  predicate Omitted(value: string, default: string, own: Option<string>) {
    own == if value == default then None else Some(value)
  }

  lemma CommonExactly(symbols: seq<GraphSymbol>, field: GraphSymbol -> string)
    ensures Common(symbols, field, CommonField(symbols, field))
  {
    if symbols != [] {
      assert symbols[0] in symbols;
      if forall i :: 0 <= i < |symbols| ==> field(symbols[i]) == field(symbols[0]) {
        forall s | s in symbols ensures field(s) == field(symbols[0]) {
          var i :| 0 <= i < |symbols| && symbols[i] == s;
        }
      } else {
        var i :| 0 <= i < |symbols| && field(symbols[i]) != field(symbols[0]);
        assert symbols[i] in symbols;
      }
    }
  }

  /** The default provenance is that of all declarations, and none when they differ. */
  lemma CommonProvenanceExactly(symbols: seq<GraphSymbol>, k: nat)
    requires k < |symbols|
    ensures CommonProvenance(symbols) ==
      if forall x, y :: x in symbols && y in symbols ==> x.provenance == y.provenance
      then symbols[k].provenance else None
  {
    assert symbols[0] in symbols && symbols[k] in symbols;
    if forall i :: 0 <= i < |symbols| ==> symbols[i].provenance == symbols[0].provenance {
      forall s | s in symbols ensures s.provenance == symbols[0].provenance {
        var i :| 0 <= i < |symbols| && symbols[i] == s;
      }
    } else {
      var i :| 0 <= i < |symbols| && symbols[i].provenance != symbols[0].provenance;
      assert symbols[i] in symbols;
    }
  }

  /** A block's details leave out exactly the fields in which their declaration has the block's default; the table is
      that of the block's strings. */
  lemma BlockDefaults(g: GraphSnapshot, chunk: seq<GraphSymbol>, first: nat, i: nat)
    requires i < |chunk|
    ensures var b := BlockOf(g, chunk, first);
      && b.first == first && |b.entries| == |chunk| && b.defaults.Some?
      && var d, e, s := b.defaults.value, b.entries[i], chunk[i];
      && d.sourceUnit == g.sourceUnit && d.provenances == g.provenances && d.strings == Table(chunk)
      && Common(chunk, (x: GraphSymbol) => x.language, d.language)
      && Common(chunk, (x: GraphSymbol) => x.freshness, d.freshness)
      && Common(chunk, (x: GraphSymbol) => x.completeness, d.completeness)
      && Common(chunk, (x: GraphSymbol) => x.component, d.component)
      && Omitted(s.language, d.language, e.language) && Omitted(s.freshness, d.freshness, e.freshness)
      && Omitted(s.completeness, d.completeness, e.completeness) && Omitted(s.component, d.component, e.component)
      && e.provenance == (if s.provenance == d.provenance then None else s.provenance)
  {
    hide Common, Table, CommonField, Lookup, LookupOf, Indexes, InlineText, InlineOptional, InlineMany;
    CommonExactly(chunk, (x: GraphSymbol) => x.language);
    CommonExactly(chunk, (x: GraphSymbol) => x.freshness);
    CommonExactly(chunk, (x: GraphSymbol) => x.completeness);
    CommonExactly(chunk, (x: GraphSymbol) => x.component);
    var d := DefaultsOf(g, chunk);
    MapAt(chunk, (s: GraphSymbol) => DetailOf(s, d));
  }

  /** A snapshot's declarations fill one block after the other: all its blocks but the last hold 256. */
  lemma {:induction false} BlocksFull(g: GraphSnapshot, symbols: seq<GraphSymbol>, at: nat)
    ensures var blocks := SnapshotBlocks(g, symbols, at);
      && (blocks == [] <==> symbols == [])
      && forall i :: 0 <= i < |blocks| - 1 ==> |blocks[i].entries| == 256
    decreases |symbols|
  {
    hide BlockOf;
    if symbols != [] {
      var size := ChunkSize(symbols);
      BlockSize(g, symbols[..size], at);
      BlocksFull(g, symbols[size..], at + size);
    }
  }

  // Ordinals.

  /** An id that the artifact declares is stored as the ordinal of its last declaration and nothing else. */
  predicate IdKept(ids: seq<string>, id: string, inlined: string, ordinal: Option<nat>) {
    if id in ids then inlined == "" && ordinal.Some? && LastPlace(ids, id, ordinal.value)
    else inlined == id && ordinal.None?
  }

  predicate OptionalIdKept(ids: seq<string>, id: Option<string>, inlined: Option<string>, ordinal: Option<nat>) {
    if id.Some? && id.value in ids then inlined == None && ordinal.Some? && LastPlace(ids, id.value, ordinal.value)
    else inlined == id && ordinal.None?
  }

  predicate LastPlace(ids: seq<string>, id: string, k: nat) {
    k < |ids| && ids[k] == id && forall j :: k < j < |ids| ==> ids[j] != id
  }

  lemma {:induction false} OrdinalsLast(ids: seq<string>, id: string)
    requires |ids| <= U32_LIMIT
    ensures id in OrdinalsOf(ids) <==> id in ids
    ensures id in ids ==> LastPlace(ids, id, OrdinalsOf(ids)[id])
  {
    if ids != [] {
      var init, last := ids[..|ids| - 1], ids[|ids| - 1];
      OrdinalsLast(init, id);
      assert ids == init + [last];
      assert (|ids| - 1) % U32_LIMIT == |ids| - 1;
    }
  }

  lemma IdStored(ids: seq<string>, id: string, optional: Option<string>)
    requires |ids| <= U32_LIMIT
    ensures var ordinals := OrdinalsOf(ids);
      && IdKept(ids, id, Inline(id, ordinals), Ordinal(id, ordinals))
      && OptionalIdKept(ids, optional, InlineOf(optional, ordinals), OrdinalOf(optional, ordinals))
  {
    hide LastPlace, OrdinalsOf;
    OrdinalsLast(ids, id);
    if optional.Some? {
      OrdinalsLast(ids, optional.value);
    }
  }

  predicate ProvenanceKept(index: nat, snapshot: nat, own: Option<nat>) {
    own == if index == snapshot then None else Some(index)
  }

  /** Declarations and occurrences store their references to declarations, and their provenance, in that way. */
  lemma RecordsStored(ids: seq<string>, p: nat, s: ProtoSymbol, o: ProtoOccurrence)
    requires |ids| <= U32_LIMIT
    ensures var g := SymbolToGraph(s, p, OrdinalsOf(ids));
      OptionalIdKept(ids, s.owner, g.owner, g.ownerOrdinal) && ProvenanceKept(s.provenance, p, g.provenance)
    ensures var g := OccurrenceToGraph(o, p, OrdinalsOf(ids));
      && OptionalIdKept(ids, o.enclosing, g.enclosing, g.enclosingOrdinal)
      && OptionalIdKept(ids, o.target, g.target, g.targetOrdinal) && ProvenanceKept(o.provenance, p, g.provenance)
  {
    hide OptionalIdKept, IdKept, OrdinalsOf, InlineOf, OrdinalOf;
    IdStored(ids, "", s.owner);
    IdStored(ids, "", o.enclosing);
    IdStored(ids, "", o.target);
  }

  /** So do the edges. */
  lemma EdgesStored(ids: seq<string>, p: nat, r: ProtoReference, c: ProtoCall, h: ProtoHierarchy)
    requires |ids| <= U32_LIMIT
    ensures var g := ReferenceToGraph(r, OrdinalsOf(ids)); IdKept(ids, r.target, g.target, g.targetOrdinal)
    ensures var g := CallToGraph(c, OrdinalsOf(ids));
      IdKept(ids, c.target, g.target, g.targetOrdinal) && OptionalIdKept(ids, c.caller, g.caller, g.callerOrdinal)
    ensures var g := HierarchyToGraph(h, p, OrdinalsOf(ids));
      && IdKept(ids, h.subtype, g.subtype, g.subtypeOrdinal) &&
        IdKept(ids, h.supertype, g.supertype, g.supertypeOrdinal)
      && ProvenanceKept(h.provenance, p, g.provenance)
  {
    hide OptionalIdKept, IdKept, OrdinalsOf, InlineOf, OrdinalOf, Inline, Ordinal;
    IdStored(ids, r.target, None);
    IdStored(ids, c.target, c.caller);
    IdStored(ids, h.subtype, None);
    IdStored(ids, h.supertype, None);
  }
}
