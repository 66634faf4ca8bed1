/** The workspace text tables: documents by path with their content digests, and the terms of each. */
module TextStore {
  import opened Prelude
  import opened TextIndex
  import TextPositions

  datatype Document = Document(path: string, content: string, fingerprint: string)

  datatype TermRow = TermRow(path: string, term: Term)

  datatype Tables = Tables(documents: map<string, string>, terms: seq<TermRow>)

  type Digest = string -> string

  ghost predicate Injective(digest: Digest) {
    forall a, b :: digest(a) == digest(b) ==> a == b
  }

  // Rows by path.

  function OfPath(path: string): TermRow -> bool {
    (r: TermRow) => r.path == path
  }

  function NotOfPath(path: string): TermRow -> bool {
    (r: TermRow) => r.path != path
  }

  function InPaths(paths: set<string>): TermRow -> bool {
    (r: TermRow) => r.path in paths
  }

  function Rows(path: string, terms: seq<Term>): seq<TermRow> {
    Map(terms, (t: Term) => TermRow(path, t))
  }

  lemma {:induction false} FilterTwice<T>(s: seq<T>, p: T -> bool, q: T -> bool)
    ensures (forall x :: x in s && p(x) ==> q(x)) ==> Filter(Filter(s, q), p) == Filter(s, p)
    ensures (forall x :: x in s && p(x) ==> !q(x)) ==> Filter(Filter(s, q), p) == []
  {
    if s != [] {
      FilterTwice(s[1..], p, q);
      assert s == [s[0]] + s[1..];
      assert ([s[0]] + Filter(s[1..], q))[1..] == Filter(s[1..], q);
    }
  }

  lemma {:induction false} RowsOfPath(path: string, terms: seq<Term>, other: string)
    ensures Filter(Rows(path, terms), OfPath(other)) == if other == path then Rows(path, terms) else []
  {
    if terms != [] {
      RowsOfPath(path, terms[1..], other);
      assert Rows(path, terms)[1..] == Rows(path, terms[1..]);
    }
  }

  // What the tables should be.

  /** The contents that a list of documents leaves, later documents of a path replacing earlier ones. */
  function Latest(before: map<string, string>, documents: seq<Document>): map<string, string> {
    if documents == [] then before
    else
      var last := documents[|documents| - 1];
      Latest(before, documents[..|documents| - 1])[last.path := last.content]
  }

  function RowsFor(contents: map<string, string>, word: WordChar, path: string): seq<TermRow> {
    if path in contents then Rows(path, Terms(contents[path], word)) else []
  }

  /** For every path, the tables hold the digest and exactly the terms of its content, and nothing for other paths. */
  ghost predicate Reflects(t: Tables, contents: map<string, string>, word: WordChar, digest: Digest) {
    && t.documents.Keys == contents.Keys
    && (forall path :: path in contents ==> t.documents[path] == digest(contents[path]))
    && (forall path :: Filter(t.terms, OfPath(path)) == RowsFor(contents, word, path))
  }

  // The steps of a sync.

  /** Deleting a document takes its terms along. */
  function KeepOnly(t: Tables, paths: set<string>): Tables {
    Tables(map p | p in t.documents && p in paths :: t.documents[p], Filter(t.terms, InPaths(t.documents.Keys * paths)))
  }

  function Replaced(t: Tables, d: Document, word: WordChar): Tables {
    Tables(t.documents[d.path := d.fingerprint],
           Filter(t.terms, NotOfPath(d.path)) + Rows(d.path, Terms(d.content, word)))
  }

  function Restricted(contents: map<string, string>, paths: set<string>): map<string, string> {
    map p | p in contents && p in paths :: contents[p]
  }

  lemma KeepOnlyReflects(t: Tables, contents: map<string, string>, word: WordChar, digest: Digest, paths: set<string>)
    requires Reflects(t, contents, word, digest)
    ensures Reflects(KeepOnly(t, paths), Restricted(contents, paths), word, digest)
  {
    hide RowsFor;
    forall path
      ensures Filter(KeepOnly(t, paths).terms, OfPath(path)) == RowsFor(Restricted(contents, paths), word, path)
    {
      FilterTwice(t.terms, OfPath(path), InPaths(t.documents.Keys * paths));
      RowsRestricted(contents, paths, word, path);
    }
  }

  lemma RowsRestricted(contents: map<string, string>, paths: set<string>, word: WordChar, path: string)
    ensures RowsFor(Restricted(contents, paths), word, path) ==
      if path in paths then RowsFor(contents, word, path) else []
    ensures path !in contents ==> RowsFor(contents, word, path) == []
  {
  }

  lemma ReplacedReflects(t: Tables, contents: map<string, string>, word: WordChar, digest: Digest, d: Document)
    requires Reflects(t, contents, word, digest) && d.fingerprint == digest(d.content)
    ensures Reflects(Replaced(t, d, word), contents[d.path := d.content], word, digest)
  {
    hide Terms;
    var after := Replaced(t, d, word);
    forall path ensures Filter(after.terms, OfPath(path)) == RowsFor(contents[d.path := d.content], word, path) {
      FilterConcat(Filter(t.terms, NotOfPath(d.path)), Rows(d.path, Terms(d.content, word)), OfPath(path));
      FilterTwice(t.terms, OfPath(path), NotOfPath(d.path));
      RowsOfPath(d.path, Terms(d.content, word), path);
    }
  }

  function Paths(documents: seq<Document>): set<string> {
    set d | d in documents :: d.path
  }

  /** Contents kept for listed paths are all replaced in the end: what was there before does not matter. */
  lemma {:induction false} LatestForgets(before: map<string, string>, documents: seq<Document>, path: string)
    ensures path in Latest(before, documents) <==> path in before || path in Paths(documents)
    ensures path in Paths(documents) ==>
      path in Latest(map[], documents) && Latest(before, documents)[path] == Latest(map[], documents)[path]
  {
    if documents != [] {
      var init, last := documents[..|documents| - 1], documents[|documents| - 1];
      LatestForgets(before, init, path);
      LatestForgets(map[], init, path);
      assert documents == init + [last];
      assert Paths(documents) == Paths(init) + {last.path};
    }
  }

  lemma LatestRebuilds(before: map<string, string>, documents: seq<Document>)
    requires before.Keys <= Paths(documents)
    ensures Latest(before, documents) == Latest(map[], documents)
  {
    hide Latest;
    forall path ensures path in Latest(before, documents) <==> path in Latest(map[], documents) {
      LatestForgets(before, documents, path);
      LatestForgets(map[], documents, path);
    }
    forall path | path in Latest(before, documents)
      ensures Latest(before, documents)[path] == Latest(map[], documents)[path]
    {
      LatestForgets(before, documents, path);
    }
  }

  class TextStore {
    var tables: Tables
    const word: WordChar
    ghost const digest: Digest
    ghost var contents: map<string, string>

    ghost predicate Valid()
      reads this
    {
      Reflects(tables, contents, word, digest)
    }

    constructor (characters: WordChar, ghost digests: Digest)
      ensures Valid() && contents == map[] && word == characters && digest == digests
    {
      tables := Tables(map[], []);
      word := characters;
      digest := digests;
      contents := map[];
    }

    /** After a sync the tables are what indexing exactly these documents from scratch gives. */
    method SyncTextDocuments(documents: seq<Document>)
      requires Valid() && Injective(digest)
      requires forall d :: d in documents ==> d.fingerprint == digest(d.content)
      modifies this
      ensures Valid() && contents == Latest(map[], documents)
    {
      hide Reflects;
      var transaction := KeepOnly(tables, Paths(documents));
      KeepOnlyReflects(tables, contents, word, digest, Paths(documents));
      ghost var kept := Restricted(contents, Paths(documents));
      ghost var now := kept;
      assert documents[..0] == [];
      for i := 0 to |documents|
        invariant now == Latest(kept, documents[..i])
        invariant Reflects(transaction, now, word, digest)
      {
        var d := documents[i];
        assert d in documents;
        assert documents[..i + 1][..i] == documents[..i];
        if d.path !in transaction.documents || transaction.documents[d.path] != d.fingerprint {
          ReplacedReflects(transaction, now, word, digest, d);
          transaction := ReplaceDocument(transaction, d, word);
        } else {
          SameContent(transaction, now, word, digest, d);
        }
        now := now[d.path := d.content];
      }
      assert documents[..|documents|] == documents;
      LatestRebuilds(kept, documents);
      tables := transaction;
      contents := now;
    }
  }

  /** An equal digest means the very content, so nothing need change. */
  lemma SameContent(t: Tables, contents: map<string, string>, word: WordChar, digest: Digest, d: Document)
    requires Reflects(t, contents, word, digest) && Injective(digest) && d.fingerprint == digest(d.content)
    requires d.path in t.documents && t.documents[d.path] == d.fingerprint
    ensures contents[d.path := d.content] == contents
  {
    assert digest(contents[d.path]) == digest(d.content);
  }

  method ReplaceDocument(t: Tables, d: Document, word: WordChar) returns (r: Tables)
    ensures r == Replaced(t, d, word)
  {
    var kept := Filter(t.terms, NotOfPath(d.path));
    var documents := t.documents[d.path := d.fingerprint];
    var terms := LexicalTerms(d.content, word);
    var rows := kept;
    assert kept + Rows(d.path, []) == kept;
    for i := 0 to |terms|
      invariant rows == kept + Rows(d.path, terms[..i])
    {
      assert terms[..i + 1] == terms[..i] + [terms[i]];
      RowsSnoc(d.path, terms[..i], terms[i]);
      rows := rows + [TermRow(d.path, terms[i])];
    }
    assert terms[..|terms|] == terms;
    r := Tables(documents, rows);
  }

  lemma RowsSnoc(path: string, terms: seq<Term>, t: Term)
    ensures Rows(path, terms + [t]) == Rows(path, terms) + [TermRow(path, t)]
  {
    MapConcat(terms, [t], (t: Term) => TermRow(path, t));
    assert [t][1..] == [];
  }

  // Lookups.

  /** Where a term occurs, as the term index answers. */
  function Matches(t: Tables, query: string): seq<TermRow> {
    Filter(t.terms, (r: TermRow) => r.term.text == query)
  }

  /** A match is a maximal word run of the query's text in the content of its path, at its byte range; every such run is
      a match. */
  lemma MatchesExactly(t: Tables, contents: map<string, string>, word: WordChar, digest: Digest, query: string,
                       m: TermRow)
    requires Reflects(t, contents, word, digest)
    ensures m in Matches(t, query) <==>
      && m.path in contents && m.term.text == query
      && exists run :: IsRun(contents[m.path], word, run) && m.term == TermOf(contents[m.path])(run)
  {
    hide Terms;
    FilterMember(t.terms, (r: TermRow) => r.term.text == query, m);
    FilterMember(t.terms, OfPath(m.path), m);
    assert Filter(t.terms, OfPath(m.path)) == RowsFor(contents, word, m.path);
    if m.path in contents {
      var terms := Terms(contents[m.path], word);
      MapMember(terms, (x: Term) => TermRow(m.path, x), m);
      assert m in Rows(m.path, terms) <==> m.term in terms;
      TermsExactly(contents[m.path], word, m.term);
    }
  }

  /** A match's start has a position in the unchanged text. */
  lemma MatchHasPosition(text: string, word: WordChar, term: Term)
    requires term in Terms(text, word)
    ensures TextPositions.PositionAt(text, term.start).Some?
  {
    TermsExactly(text, word, term);
    var run :| IsRun(text, word, run) && term == TermOf(text)(run);
    TextPositions.CharIndexOf(text, run.first);
  }

  /** No two terms of a text start at one byte, so the term table's key never clashes. */
  lemma TermKeysDistinct(text: string, word: WordChar, i: nat, j: nat)
    requires i < j < |Terms(text, word)|
    ensures Terms(text, word)[i].start != Terms(text, word)[j].start
  {
    TermsApart(text, word, i, j);
  }
}
