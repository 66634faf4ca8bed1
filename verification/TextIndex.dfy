/** Lexical terms of workspace text and the table that holds them. Which characters make words, and content digests, are
    parameters. */
module TextIndex {
  import opened Prelude
  import opened Utf8
  import TextPositions

  /** A term and its byte range. */
  datatype Term = Term(text: string, start: nat, end: nat)

  type WordChar = char -> bool

  // Terms.

  datatype Run = Run(first: nat, past: nat)

  /** A maximal run of word characters. */
  predicate IsRun(text: string, word: WordChar, run: Run) {
    && run.first < run.past <= |text|
    && (forall k :: run.first <= k < run.past ==> word(text[k]))
    && (run.first > 0 ==> !word(text[run.first - 1]))
    && (run.past < |text| ==> !word(text[run.past]))
  }

  /** The runs found from a place on, one of them already begun. */
  function RunsFrom(text: string, word: WordChar, at: nat, begun: Option<nat>): seq<Run>
    requires at <= |text|
    decreases |text| - at
  {
    if at == |text| then if begun.Some? then [Run(begun.value, at)] else []
    else if word(text[at]) then RunsFrom(text, word, at + 1, if begun.Some? then begun else Some(at))
    else if begun.Some? then [Run(begun.value, at)] + RunsFrom(text, word, at + 1, None)
    else RunsFrom(text, word, at + 1, None)
  }

  predicate Resumes(text: string, word: WordChar, at: nat, begun: Option<nat>) {
    && at <= |text|
    && match begun
       case None => at > 0 ==> !word(text[at - 1])
       case Some(b) => b < at && (forall k :: b <= k < at ==> word(text[k])) && (b > 0 ==> !word(text[b - 1]))
  }

  /** The runs found are exactly the maximal ones from there on, in order, with a gap between any two. */
  lemma {:induction false} RunsExactly(text: string, word: WordChar, at: nat, begun: Option<nat>, run: Run)
    requires Resumes(text, word, at, begun)
    ensures run in RunsFrom(text, word, at, begun) <==>
      IsRun(text, word, run) && (if begun.Some? then begun.value else at) <= run.first
    decreases |text| - at
  {
    if at < |text| {
      var next := if !word(text[at]) then None else if begun.Some? then begun else Some(at);
      RunsExactly(text, word, at + 1, next, run);
      if !word(text[at]) {
        if begun.Some? && IsRun(text, word, run) && begun.value <= run.first <= at {
          SameRun(text, word, run, begun.value, at);
        }
        assert IsRun(text, word, run) ==> run.first != at;
      }
    } else if begun.Some? && IsRun(text, word, run) && begun.value <= run.first {
      SameRun(text, word, run, begun.value, at);
    }
  }

  lemma SameRun(text: string, word: WordChar, run: Run, first: nat, past: nat)
    requires IsRun(text, word, run) && first <= run.first <= past <= |text| && first < past
    requires forall k :: first <= k < past ==> word(text[k])
    requires past < |text| ==> !word(text[past])
    ensures run == Run(first, past)
  {
  }

  predicate Apart(runs: seq<Run>) {
    forall i, j :: 0 <= i < j < |runs| ==> runs[i].past < runs[j].first
  }

  lemma {:induction false} RunsApart(text: string, word: WordChar, at: nat, begun: Option<nat>)
    requires Resumes(text, word, at, begun)
    ensures Apart(RunsFrom(text, word, at, begun))
    ensures forall i :: 0 <= i < |RunsFrom(text, word, at, begun)| ==>
      (if begun.Some? then begun.value else at) <= RunsFrom(text, word, at, begun)[i].first
    decreases |text| - at
  {
    if at < |text| {
      var next := if !word(text[at]) then None else if begun.Some? then begun else Some(at);
      RunsApart(text, word, at + 1, next);
    }
  }

  function TermOf(text: string): Run -> Term {
    (run: Run) =>
      if run.first <= run.past <= |text|
      then Term(text[run.first..run.past], Size(text[..run.first]), Size(text[..run.past]))
      else Term("", 0, 0)
  }

  function Terms(text: string, word: WordChar): seq<Term> {
    Map(RunsFrom(text, word, 0, None), TermOf(text))
  }

  method LexicalTerms(text: string, word: WordChar) returns (terms: seq<Term>)
    ensures terms == Terms(text, word)
  {
    terms := [];
    var begun: Option<(nat, nat)> := None;
    var offset: nat := 0;
    assert text[..0] == "";
    for i := 0 to |text|
      invariant offset == Size(text[..i])
      invariant begun.Some? ==> begun.value.0 <= i && begun.value.1 == Size(text[..begun.value.0])
      invariant terms + Map(RunsFrom(text, word, i, if begun.Some? then Some(begun.value.0) else None), TermOf(text))
                == Terms(text, word)
    {
      if word(text[i]) {
        if begun.None? {
          begun := Some((i, offset));
        }
      } else if begun.Some? {
        var (first, start) := begun.value;
        Emit(text, word, i, first, terms);
        terms := terms + [Term(text[first..i], start, offset)];
        begun := None;
      }
      assert text[..i + 1] == text[..i] + [text[i]];
      SizeConcat(text[..i], [text[i]]);
      SizeOne(text[i]);
      offset := offset + CharSize(text[i]);
    }
    assert text[..|text|] == text;
    if begun.Some? {
      var (first, start) := begun.value;
      MapHead(Run(first, |text|), [], TermOf(text));
      terms := terms + [Term(text[first..], start, offset)];
    }
  }

  lemma Emit(text: string, word: WordChar, at: nat, first: nat, done: seq<Term>)
    requires first <= at < |text| && !word(text[at])
    ensures done + Map(RunsFrom(text, word, at, Some(first)), TermOf(text))
         == done + [TermOf(text)(Run(first, at))] + Map(RunsFrom(text, word, at + 1, None), TermOf(text))
  {
    MapHead(Run(first, at), RunsFrom(text, word, at + 1, None), TermOf(text));
  }

  lemma MapHead<A, B>(a: A, rest: seq<A>, f: A -> B)
    ensures Map([a] + rest, f) == [f(a)] + Map(rest, f)
  {
    assert ([a] + rest)[1..] == rest;
  }

  lemma SizeOne(c: char)
    ensures Size([c]) == CharSize(c)
  {
    assert [c][1..] == [];
  }

  lemma {:induction false} SizeMonotone(text: string, i: nat, j: nat)
    requires i < j <= |text|
    ensures Size(text[..i]) < Size(text[..j])
  {
    assert text[..j] == text[..i] + text[i..j];
    SizeConcat(text[..i], text[i..j]);
  }

  /** The terms are exactly the maximal word runs at their byte ranges. */
  lemma TermsExactly(text: string, word: WordChar, term: Term)
    ensures term in Terms(text, word) <==>
      exists run :: IsRun(text, word, run) && term == TermOf(text)(run)
  {
    var runs := RunsFrom(text, word, 0, None);
    MapMember(runs, TermOf(text), term);
    if i :| 0 <= i < |runs| && TermOf(text)(runs[i]) == term {
      RunsExactly(text, word, 0, None, runs[i]);
    }
    if run :| IsRun(text, word, run) && term == TermOf(text)(run) {
      RunsExactly(text, word, 0, None, run);
      var i :| 0 <= i < |runs| && runs[i] == run;
      assert TermOf(text)(runs[i]) == term;
    }
  }

  /** Terms come in order and never touch. */
  lemma TermsApart(text: string, word: WordChar, i: nat, j: nat)
    requires i < j < |Terms(text, word)|
    ensures Terms(text, word)[i].start < Terms(text, word)[i].end < Terms(text, word)[j].start
  {
    var runs := RunsFrom(text, word, 0, None);
    MapAt(runs, TermOf(text));
    RunsApart(text, word, 0, None);
    RunsExactly(text, word, 0, None, runs[i]);
    RunsExactly(text, word, 0, None, runs[j]);
    SizeMonotone(text, runs[i].first, runs[i].past);
    SizeMonotone(text, runs[i].past, runs[j].first);
  }
}
