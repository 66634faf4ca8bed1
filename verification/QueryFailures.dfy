/** How the queries over a blob fail: whose error is reported, over any sections whatever. */
module QueryFailures {
  import opened Prelude
  import opened Canonical
  import opened GraphCodec
  import opened ArtifactQuery
  import BlobLayout

  // The exact name.

  ghost predicate FirstUnreadable(sections: Sections, entries: seq<DirectoryEntry>, name: string, i: nat, e: QueryError)
  {
    && i < |entries| && entries[i].qualifiedName == name && SymbolAt(sections, entries[i].ordinal) == Err(e)
    && forall j :: 0 <= j < i && entries[j].qualifiedName == name ==> SymbolAt(sections, entries[j].ordinal).Ok?
  }

  lemma {:induction false} EntriesFail(sections: Sections, entries: seq<DirectoryEntry>, name: string, e: QueryError)
    ensures NamedSymbols(sections, entries, name) == Err(e) <==>
      exists i: nat :: FirstUnreadable(sections, entries, name, i, e)
  {
    hide SymbolAt;
    if entries != [] {
      var rest := entries[1..];
      EntriesFail(sections, rest, name, e);
      assert forall j :: 0 <= j < |rest| ==> rest[j] == entries[j + 1];
      if i: nat :| FirstUnreadable(sections, rest, name, i, e) {
        if entries[0].qualifiedName != name || SymbolAt(sections, entries[0].ordinal).Ok? {
          forall j | 0 <= j < i + 1 && entries[j].qualifiedName == name
            ensures SymbolAt(sections, entries[j].ordinal).Ok?
          {
            if j > 0 { assert rest[j - 1] == entries[j]; }
          }
          assert FirstUnreadable(sections, entries, name, i + 1, e);
        }
      }
      if i: nat :| FirstUnreadable(sections, entries, name, i, e) {
        if i > 0 {
          assert FirstUnreadable(sections, rest, name, i - 1, e);
        }
      } else if entries[0].qualifiedName == name && SymbolAt(sections, entries[0].ordinal) == Err(e) {
        assert FirstUnreadable(sections, entries, name, 0, e);
      }
    }
  }

  /** A query by name fails with the directory's error, or else with that of the first entry of the name that cannot be
      read, and only then; entries of other names are never read. */
  lemma NameFails(sections: Sections, name: string, e: QueryError)
    ensures QualifiedName(sections, name) == Err(e) <==>
      if sections.directory.Err? then e == sections.directory.error
      else exists i: nat :: FirstUnreadable(sections, sections.directory.value, name, i, e)
  {
    hide FirstUnreadable, NamedSymbols;
    if sections.directory.Ok? {
      EntriesFail(sections, sections.directory.value, name, e);
    }
  }

  // Implementations.

  ghost predicate FirstHomeless(sections: Sections, ordinals: seq<int>, i: nat, e: QueryError) {
    && i < |ordinals| && sections.blockStart(ordinals[i]) == Err(e)
    && forall j :: 0 <= j < i ==> sections.blockStart(ordinals[j]).Ok?
  }

  lemma {:induction false} GroupingFails(sections: Sections, groups: Groups, ordinals: seq<int>, e: QueryError)
    ensures Grouped(sections, groups, ordinals) == Err(e) <==> exists i: nat :: FirstHomeless(sections, ordinals, i, e)
    decreases |ordinals|
  {
    hide Join;
    if ordinals != [] {
      var rest := ordinals[1..];
      assert forall j :: 0 <= j < |rest| ==> rest[j] == ordinals[j + 1];
      if sections.blockStart(ordinals[0]).Err? {
        if sections.blockStart(ordinals[0]) == Err(e) { assert FirstHomeless(sections, ordinals, 0, e); }
      } else {
        GroupingFails(sections, Join(groups, sections.blockStart(ordinals[0]).value, ordinals[0]), rest, e);
        if i: nat :| FirstHomeless(sections, rest, i, e) {
          forall j | 0 <= j < i + 1 ensures sections.blockStart(ordinals[j]).Ok? {
            if j > 0 { assert rest[j - 1] == ordinals[j]; }
          }
          assert FirstHomeless(sections, ordinals, i + 1, e);
        }
        if i: nat :| FirstHomeless(sections, ordinals, i, e) {
          assert i > 0;
          assert FirstHomeless(sections, rest, i - 1, e);
        }
      }
    }
  }

  predicate Posted(postings: seq<HierarchyPosting>, supertype: string) {
    exists i :: 0 <= i < |postings| && postings[i].supertype == supertype
  }

  /** Only a missing postings section sends the query to the graph, whose errors are then its own; any other error of
      the postings is final. Without a posting for the type nothing else is read. With one, the dictionary's error comes
      first, then that of the first declaration that has no block. */
  lemma ImplementationsFail(sections: Sections, supertype: string, e: QueryError)
    ensures sections.hierarchy.Err? && sections.hierarchy.error != LayoutFailed(BlobLayout.MissingSection) ==>
      Implementations(sections, supertype) == Err(sections.hierarchy.error)
    ensures sections.hierarchy == Err(LayoutFailed(BlobLayout.MissingSection)) ==>
      (Implementations(sections, supertype) == Err(e) <==>
         || sections.graph == Err(e)
         || (sections.graph.Ok? && e.GraphFailed? && DecodeGraph(sections.graph.value) == Err(e.graph)))
    ensures sections.hierarchy.Ok? && !Posted(sections.hierarchy.value, supertype) ==>
      Implementations(sections, supertype) == Ok([])
    ensures sections.hierarchy.Ok? && Posted(sections.hierarchy.value, supertype) ==>
      && (sections.dictionary.Err? ==> Implementations(sections, supertype) == Err(sections.dictionary.error))
      && (sections.dictionary.Ok? ==>
            var ids := SubtypesOf(sections.hierarchy.value, supertype);
            forall i: nat :: FirstHomeless(sections, Matching(sections.dictionary.value, ids, 0), i, e) ==>
              Implementations(sections, supertype) == Err(e))
  {
    hide DecodeGraph, DecodeGroups, Grouped, Matching, FirstHomeless, LastNamed;
    if sections.hierarchy.Ok? {
      var postings := sections.hierarchy.value;
      var ids := SubtypesOf(postings, supertype);
      if Posted(postings, supertype) {
        var i :| 0 <= i < |postings| && postings[i].supertype == supertype;
        assert postings[i] in postings && postings[i].subtype in ids;
        if sections.dictionary.Ok? {
          GroupingFails(sections, [], Matching(sections.dictionary.value, ids, 0), e);
        }
      } else {
        forall p | p in postings ensures p.supertype != supertype {
          var i :| 0 <= i < |postings| && postings[i] == p;
        }
        assert ids == {};
      }
    }
  }
}
