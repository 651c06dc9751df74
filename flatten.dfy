/**
 * The flattening step of `search`: every symbol of a match group becomes one
 * symbol result and every `[offset, length]` pair of every line match becomes
 * one text result, in response order.
 */
module Flattening {
  import opened Wrappers
  import opened Response

  /**
   * A normalised search hit.  The two kinds carry the same location fields;
   * only symbol results carry symbol fields and only text results a preview.
   */
  datatype Result =
    | SymbolResult(
        repo: string, rev: string, file: string, start: Position, end: Position,
        symbolName: string, symbolKind: string, containerName: Option<string>, fileLocal: Option<bool>)
    | TextResult(
        repo: string, rev: string, file: string, start: Position, end: Position,
        preview: string)

  // ---------------------------------------------------------------------------
  // Specification: the results, written as functions of the response.

  function SymbolResultOf(g: FileMatch, sym: Symbol): Result {
    SymbolResult(g.repositoryName, g.commitOid, sym.resourcePath, sym.range.start, sym.range.end,
                 sym.name, sym.kind, sym.containerName, sym.fileLocal)
  }

  function TextResultOf(g: FileMatch, lm: LineMatch, occ: OffsetLength): Result {
    TextResult(g.repositoryName, g.commitOid, g.filePath,
               Position(lm.lineNumber, occ.offset), Position(lm.lineNumber, occ.offset + occ.length),
               lm.preview)
  }

  function SymbolResults(g: FileMatch, syms: seq<Symbol>): seq<Result> {
    if syms == [] then []
    else SymbolResults(g, syms[..|syms| - 1]) + [SymbolResultOf(g, syms[|syms| - 1])]
  }

  function OccurrenceResults(g: FileMatch, lm: LineMatch, occs: seq<OffsetLength>): seq<Result> {
    if occs == [] then []
    else OccurrenceResults(g, lm, occs[..|occs| - 1]) + [TextResultOf(g, lm, occs[|occs| - 1])]
  }

  function LineMatchResults(g: FileMatch, lms: seq<LineMatch>): seq<Result> {
    if lms == [] then []
    else
      var lm := lms[|lms| - 1];
      LineMatchResults(g, lms[..|lms| - 1]) + OccurrenceResults(g, lm, lm.offsetAndLengths)
  }

  /** The symbol results of a group; none when its `symbols` list is absent. */
  function SymbolPart(g: FileMatch): seq<Result> {
    match g.symbols
    case Some(syms) => SymbolResults(g, syms)
    case None => []
  }

  /** The text results of a group; none when its `lineMatches` list is absent. */
  function TextPart(g: FileMatch): seq<Result> {
    match g.lineMatches
    case Some(lms) => LineMatchResults(g, lms)
    case None => []
  }

  /** The results one match group contributes: its symbols, then its line matches. */
  function GroupResults(g: FileMatch): seq<Result> {
    SymbolPart(g) + TextPart(g)
  }

  /** The results of a whole response, group after group. */
  function Flatten(groups: seq<FileMatch>): seq<Result> {
    if groups == [] then []
    else Flatten(groups[..|groups| - 1]) + GroupResults(groups[|groups| - 1])
  }

  // ---------------------------------------------------------------------------
  // Independent counts: how many symbols and occurrences a response holds.

  function SymbolCount(g: FileMatch): nat {
    match g.symbols
    case Some(syms) => |syms|
    case None => 0
  }

  function OccurrenceCount(lms: seq<LineMatch>): nat {
    if lms == [] then 0 else |lms[0].offsetAndLengths| + OccurrenceCount(lms[1..])
  }

  function GroupOccurrenceCount(g: FileMatch): nat {
    match g.lineMatches
    case Some(lms) => OccurrenceCount(lms)
    case None => 0
  }

  function SymbolTotal(groups: seq<FileMatch>): nat {
    if groups == [] then 0 else SymbolCount(groups[0]) + SymbolTotal(groups[1..])
  }

  function OccurrenceTotal(groups: seq<FileMatch>): nat {
    if groups == [] then 0 else GroupOccurrenceCount(groups[0]) + OccurrenceTotal(groups[1..])
  }

  // ---------------------------------------------------------------------------
  // Properties of the flattening.

  /** One symbol result per symbol, in the order given. */
  lemma {:induction false} SymbolResultsAt(g: FileMatch, syms: seq<Symbol>)
    ensures |SymbolResults(g, syms)| == |syms|
    ensures forall k :: 0 <= k < |syms| ==> SymbolResults(g, syms)[k] == SymbolResultOf(g, syms[k])
  {
    if syms != [] {
      SymbolResultsAt(g, syms[..|syms| - 1]);
    }
  }

  /** One text result per `[offset, length]` pair, in the order given. */
  lemma {:induction false} OccurrenceResultsAt(g: FileMatch, lm: LineMatch, occs: seq<OffsetLength>)
    ensures |OccurrenceResults(g, lm, occs)| == |occs|
    ensures forall k :: 0 <= k < |occs| ==> OccurrenceResults(g, lm, occs)[k] == TextResultOf(g, lm, occs[k])
  {
    if occs != [] {
      OccurrenceResultsAt(g, lm, occs[..|occs| - 1]);
    }
  }

  /** Line matches are expanded independently: the results of a concatenation concatenate. */
  lemma {:induction false} LineMatchResultsAppend(g: FileMatch, a: seq<LineMatch>, b: seq<LineMatch>)
    ensures LineMatchResults(g, a + b) == LineMatchResults(g, a) + LineMatchResults(g, b)
  {
    if b == [] {
      assert a + b == a;
    } else {
      var last := b[|b| - 1];
      assert (a + b)[..|a + b| - 1] == a + b[..|b| - 1];
      LineMatchResultsAppend(g, a, b[..|b| - 1]);
      AppendAssociative(LineMatchResults(g, a), LineMatchResults(g, b[..|b| - 1]),
                        OccurrenceResults(g, last, last.offsetAndLengths));
    }
  }

  /** A line-match list yields exactly as many text results as it holds pairs. */
  lemma {:induction false} LineMatchResultsCount(g: FileMatch, lms: seq<LineMatch>)
    ensures |LineMatchResults(g, lms)| == OccurrenceCount(lms)
  {
    if lms != [] {
      assert lms == [lms[0]] + lms[1..];
      LineMatchResultsAppend(g, [lms[0]], lms[1..]);
      assert [lms[0]][..0] == [];
      OccurrenceResultsAt(g, lms[0], lms[0].offsetAndLengths);
      LineMatchResultsCount(g, lms[1..]);
    }
  }

  /** Every result a line-match list yields is a text result of the group's file. */
  lemma {:induction false} LineMatchResultsAreText(g: FileMatch, lms: seq<LineMatch>)
    ensures forall r :: r in LineMatchResults(g, lms) ==>
      r.TextResult? && r.repo == g.repositoryName && r.rev == g.commitOid && r.file == g.filePath
      && r.start.line == r.end.line
  {
    if lms != [] {
      var lm := lms[|lms| - 1];
      LineMatchResultsAreText(g, lms[..|lms| - 1]);
      OccurrenceResultsAt(g, lm, lm.offsetAndLengths);
    }
  }

  /** Groups are flattened independently: the results of a concatenation concatenate. */
  lemma {:induction false} FlattenAppend(a: seq<FileMatch>, b: seq<FileMatch>)
    ensures Flatten(a + b) == Flatten(a) + Flatten(b)
  {
    if b == [] {
      assert a + b == a;
    } else {
      assert (a + b)[..|a + b| - 1] == a + b[..|b| - 1];
      FlattenAppend(a, b[..|b| - 1]);
      AppendAssociative(Flatten(a), Flatten(b[..|b| - 1]), GroupResults(b[|b| - 1]));
    }
  }

  /**
   * Count: the number of results is the number of symbols plus the number of
   * `[offset, length]` pairs, over all groups; an absent list adds nothing.
   */
  lemma {:induction false} FlattenCount(groups: seq<FileMatch>)
    ensures |Flatten(groups)| == SymbolTotal(groups) + OccurrenceTotal(groups)
  {
    if groups != [] {
      var g := groups[0];
      assert groups == [g] + groups[1..];
      FlattenAppend([g], groups[1..]);
      assert [g][..0] == [];
      assert Flatten([g]) == GroupResults(g);
      if g.symbols.Some? {
        SymbolResultsAt(g, g.symbols.value);
      }
      if g.lineMatches.Some? {
        LineMatchResultsCount(g, g.lineMatches.value);
      }
      FlattenCount(groups[1..]);
    }
  }

  /** Group order: the results of group `i` sit between those of the groups before and after it. */
  lemma FlattenSplit(groups: seq<FileMatch>, i: int)
    requires 0 <= i < |groups|
    ensures Flatten(groups) == Flatten(groups[..i]) + GroupResults(groups[i]) + Flatten(groups[i + 1..])
  {
    assert groups == groups[..i + 1] + groups[i + 1..];
    FlattenAppend(groups[..i + 1], groups[i + 1..]);
    FlattenStep(groups, i);
  }

  /**
   * Symbol field mapping: the k-th result of a group is its k-th symbol, with
   * the group's repository and commit, and the file, range and symbol fields
   * of the symbol itself.
   */
  lemma GroupSymbolAt(g: FileMatch, k: int)
    requires g.symbols.Some? && 0 <= k < |g.symbols.value|
    ensures k < |GroupResults(g)|
    ensures
      var sym := g.symbols.value[k];
      var r := GroupResults(g)[k];
      && r.SymbolResult?
      && r.repo == g.repositoryName && r.rev == g.commitOid
      && r.file == sym.resourcePath
      && r.start == sym.range.start && r.end == sym.range.end
      && r.symbolName == sym.name && r.symbolKind == sym.kind
      && r.containerName == sym.containerName && r.fileLocal == sym.fileLocal
  {
    SymbolResultsAt(g, g.symbols.value);
  }

  /** The pairs that the line matches before index `m` contribute. */
  function OccurrencesBefore(lms: seq<LineMatch>, m: int): nat
    requires 0 <= m <= |lms|
  {
    OccurrenceCount(lms[..m])
  }

  /**
   * Text field mapping: after the group's symbols come its line matches in
   * order, and within a line match its pairs in order; the result for pair `p`
   * of line match `m` spans `[offset, offset + length)` on the match's line,
   * in the group's file, with the line's preview.
   */
  lemma GroupTextAt(g: FileMatch, m: int, p: int)
    requires g.lineMatches.Some? && 0 <= m < |g.lineMatches.value|
    requires 0 <= p < |g.lineMatches.value[m].offsetAndLengths|
    ensures SymbolCount(g) + OccurrencesBefore(g.lineMatches.value, m) + p < |GroupResults(g)|
    ensures
      var lm := g.lineMatches.value[m];
      var occ := lm.offsetAndLengths[p];
      var r := GroupResults(g)[SymbolCount(g) + OccurrencesBefore(g.lineMatches.value, m) + p];
      && r.TextResult?
      && r.repo == g.repositoryName && r.rev == g.commitOid
      && r.file == g.filePath
      && r.start == Position(lm.lineNumber, occ.offset)
      && r.end == Position(lm.lineNumber, occ.offset + occ.length)
      && r.preview == lm.preview
  {
    var lms := g.lineMatches.value;
    LineMatchResultsAt(g, lms, m, p);
    if g.symbols.Some? {
      SymbolResultsAt(g, g.symbols.value);
    }
    assert |SymbolPart(g)| == SymbolCount(g);
  }

  /** The text result for pair `p` of line match `m`, within one line-match list. */
  lemma LineMatchResultsAt(g: FileMatch, lms: seq<LineMatch>, m: int, p: int)
    requires 0 <= m < |lms| && 0 <= p < |lms[m].offsetAndLengths|
    ensures OccurrencesBefore(lms, m) + p < |LineMatchResults(g, lms)|
    ensures LineMatchResults(g, lms)[OccurrencesBefore(lms, m) + p] == TextResultOf(g, lms[m], lms[m].offsetAndLengths[p])
  {
    var lm := lms[m];
    var pre := LineMatchResults(g, lms[..m]);
    var mid := OccurrenceResults(g, lm, lm.offsetAndLengths);
    var post := LineMatchResults(g, lms[m + 1..]);
    LineMatchResultsSplit(g, lms, m);
    LineMatchResultsCount(g, lms[..m]);
    OccurrenceResultsAt(g, lm, lm.offsetAndLengths);
    assert (pre + (mid + post))[|pre| + p] == mid[p];
  }

  /** Line match `m` contributes its results between those of the line matches around it. */
  lemma LineMatchResultsSplit(g: FileMatch, lms: seq<LineMatch>, m: int)
    requires 0 <= m < |lms|
    ensures LineMatchResults(g, lms)
         == LineMatchResults(g, lms[..m])
          + (OccurrenceResults(g, lms[m], lms[m].offsetAndLengths) + LineMatchResults(g, lms[m + 1..]))
  {
    var lm := lms[m];
    assert lms == lms[..m] + ([lm] + lms[m + 1..]);
    LineMatchResultsAppend(g, lms[..m], [lm] + lms[m + 1..]);
    LineMatchResultsAppend(g, [lm], lms[m + 1..]);
    assert [lm][..0] == [];
  }

  /** Within a group every symbol result precedes every text result. */
  lemma GroupKinds(g: FileMatch, k: int)
    requires 0 <= k < |GroupResults(g)|
    ensures GroupResults(g)[k].SymbolResult? <==> k < SymbolCount(g)
  {
    if g.symbols.Some? {
      SymbolResultsAt(g, g.symbols.value);
    }
    if g.lineMatches.Some? {
      LineMatchResultsAreText(g, g.lineMatches.value);
      if k >= SymbolCount(g) {
        assert GroupResults(g)[k] in TextPart(g);
      }
    }
  }

  /** Every result of a group carries that group's repository name and commit. */
  lemma GroupProvenance(g: FileMatch)
    ensures forall r :: r in GroupResults(g) ==> r.repo == g.repositoryName && r.rev == g.commitOid
  {
    if g.symbols.Some? {
      SymbolResultsAt(g, g.symbols.value);
    }
    if g.lineMatches.Some? {
      LineMatchResultsAreText(g, g.lineMatches.value);
    }
  }

  /** Every result of a response takes its repository and revision from one of its groups. */
  lemma {:induction false} FlattenProvenance(groups: seq<FileMatch>)
    ensures forall r :: r in Flatten(groups) ==>
      exists i :: 0 <= i < |groups| && r.repo == groups[i].repositoryName && r.rev == groups[i].commitOid
  {
    if groups != [] {
      var n := |groups| - 1;
      FlattenProvenance(groups[..n]);
      GroupProvenance(groups[n]);
      forall r | r in Flatten(groups)
        ensures exists i :: 0 <= i < |groups| && r.repo == groups[i].repositoryName && r.rev == groups[i].commitOid
      {
        if r in Flatten(groups[..n]) {
          var i :| 0 <= i < n && r.repo == groups[..n][i].repositoryName && r.rev == groups[..n][i].commitOid;
          assert groups[..n][i] == groups[i];
        } else {
          assert r in GroupResults(groups[n]);
        }
      }
    }
  }

  // ---------------------------------------------------------------------------
  // Worked examples.

  /** One symbol match: one symbol result, its file taken from the symbol's location. */
  lemma SymbolMatchExample()
    ensures
      var sym := Symbol("Foo", None, "function", None, "a.go", Range(Position(1, 2), Position(1, 5)));
      var g := FileMatch("r", "b.go", "abc", Some([sym]), None);
      Flatten([g]) == [SymbolResult("r", "abc", "a.go", Position(1, 2), Position(1, 5), "Foo", "function", None, None)]
  {
    var sym := Symbol("Foo", None, "function", None, "a.go", Range(Position(1, 2), Position(1, 5)));
    var g := FileMatch("r", "b.go", "abc", Some([sym]), None);
    assert [g][..0] == [] && [sym][..0] == [];
    assert Flatten([g]) == [] + GroupResults(g);
    assert SymbolResults(g, [sym]) == [] + [SymbolResultOf(g, sym)];
    assert GroupResults(g) == [SymbolResultOf(g, sym)] + [];
  }

  /** One line match with one pair: one text result on that line, in the group's file. */
  lemma LineMatchExample()
    ensures
      var g := FileMatch("r", "b.go", "abc", None, Some([LineMatch("ab", 4, [OffsetLength(0, 2)])]));
      Flatten([g]) == [TextResult("r", "abc", "b.go", Position(4, 0), Position(4, 2), "ab")]
  {
    var lm := LineMatch("ab", 4, [OffsetLength(0, 2)]);
    var g := FileMatch("r", "b.go", "abc", None, Some([lm]));
    assert [g][..0] == [] && [lm][..0] == [] && lm.offsetAndLengths[..0] == [];
  }

  /** Two pairs on one line: two text results, in the listed order. */
  lemma TwoOccurrencesExample()
    ensures
      var g := FileMatch("r", "b.go", "abc", None, Some([LineMatch("ab", 4, [OffsetLength(0, 2), OffsetLength(5, 3)])]));
      Flatten([g]) == [TextResult("r", "abc", "b.go", Position(4, 0), Position(4, 2), "ab"),
                       TextResult("r", "abc", "b.go", Position(4, 5), Position(4, 8), "ab")]
  {
    var lm := LineMatch("ab", 4, [OffsetLength(0, 2), OffsetLength(5, 3)]);
    var g := FileMatch("r", "b.go", "abc", None, Some([lm]));
    assert [g][..0] == [] && [lm][..0] == [];
    var occs := lm.offsetAndLengths;
    assert occs[..1] == [occs[0]] && occs[..1][..0] == [];
    assert OccurrenceResults(g, lm, occs[..1]) == [] + [TextResultOf(g, lm, occs[0])];
    assert OccurrenceResults(g, lm, occs) == OccurrenceResults(g, lm, occs[..1]) + [TextResultOf(g, lm, occs[1])];
    assert LineMatchResults(g, [lm]) == [] + OccurrenceResults(g, lm, occs);
    assert Flatten([g]) == [] + GroupResults(g);
    assert GroupResults(g) == [] + LineMatchResults(g, [lm]);
  }

  // One more element on the right extends each specification function by its results.

  lemma SymbolResultsStep(g: FileMatch, syms: seq<Symbol>, i: int)
    requires 0 <= i < |syms|
    ensures SymbolResults(g, syms[..i + 1]) == SymbolResults(g, syms[..i]) + [SymbolResultOf(g, syms[i])]
  {
    assert syms[..i + 1][..i] == syms[..i];
  }

  lemma OccurrenceResultsStep(g: FileMatch, lm: LineMatch, occs: seq<OffsetLength>, i: int)
    requires 0 <= i < |occs|
    ensures OccurrenceResults(g, lm, occs[..i + 1]) == OccurrenceResults(g, lm, occs[..i]) + [TextResultOf(g, lm, occs[i])]
  {
    assert occs[..i + 1][..i] == occs[..i];
  }

  lemma LineMatchResultsStep(g: FileMatch, lms: seq<LineMatch>, i: int)
    requires 0 <= i < |lms|
    ensures LineMatchResults(g, lms[..i + 1])
         == LineMatchResults(g, lms[..i]) + OccurrenceResults(g, lms[i], lms[i].offsetAndLengths)
  {
    assert lms[..i + 1][..i] == lms[..i];
  }

  /**
   * Regrouping of a three-part concatenation.  Stated as a lemma so that the
   * callers see only this one equation: the same step as an inline assertion
   * puts the whole unfolded context in front of the solver.
   */
  lemma AppendAssociative(a: seq<Result>, b: seq<Result>, c: seq<Result>)
    ensures (a + b) + c == a + (b + c)
  {
  }

  lemma FlattenStep(groups: seq<FileMatch>, i: int)
    requires 0 <= i < |groups|
    ensures Flatten(groups[..i + 1]) == Flatten(groups[..i]) + GroupResults(groups[i])
  {
    assert groups[..i + 1][..i] == groups[..i];
  }

  // ---------------------------------------------------------------------------
  // The loops of `search`, one method per level of nesting.

  /** The outer loop of `search`: the results of every match group, in response order. */
  method FlattenResults(groups: seq<FileMatch>) returns (results: seq<Result>)
    ensures results == Flatten(groups)
  {
    results := [];
    for gi := 0 to |groups|
      invariant results == Flatten(groups[..gi])
    {
      var g := groups[gi];
      ghost var before := results;
      if g.symbols.Some? {
        results := AppendSymbols(results, g, g.symbols.value);
      } else {
        assert results == before + [];
      }
      ghost var afterSymbols := results;
      if g.lineMatches.Some? {
        results := AppendLineMatches(results, g, g.lineMatches.value);
      } else {
        assert results == afterSymbols + [];
      }
      AppendAssociative(before, SymbolPart(g), TextPart(g));
      FlattenStep(groups, gi);
    }
    assert groups[..|groups|] == groups;
  }

  /** The loop over a group's `symbols`: one symbol result per symbol. */
  method AppendSymbols(acc: seq<Result>, g: FileMatch, syms: seq<Symbol>) returns (results: seq<Result>)
    ensures results == acc + SymbolResults(g, syms)
  {
    results := acc;
    for si := 0 to |syms|
      invariant results == acc + SymbolResults(g, syms[..si])
    {
      var sym := syms[si];
      SymbolResultsStep(g, syms, si);
      results := results + [SymbolResult(
        g.repositoryName, g.commitOid, sym.resourcePath,
        sym.range.start, sym.range.end,
        sym.name, sym.kind, sym.containerName, sym.fileLocal)];
    }
    assert syms[..|syms|] == syms;
  }

  /** The loop over a group's `lineMatches`, each expanded by its occurrences. */
  method AppendLineMatches(acc: seq<Result>, g: FileMatch, lms: seq<LineMatch>) returns (results: seq<Result>)
    ensures results == acc + LineMatchResults(g, lms)
  {
    results := acc;
    for li := 0 to |lms|
      invariant results == acc + LineMatchResults(g, lms[..li])
    {
      results := AppendOccurrences(results, g, lms[li]);
      LineMatchResultsStep(g, lms, li);
    }
    assert lms[..|lms|] == lms;
  }

  /** The innermost loop: one text result per `[offset, length]` pair of a line match. */
  method AppendOccurrences(acc: seq<Result>, g: FileMatch, lm: LineMatch) returns (results: seq<Result>)
    ensures results == acc + OccurrenceResults(g, lm, lm.offsetAndLengths)
  {
    results := acc;
    for oi := 0 to |lm.offsetAndLengths|
      invariant results == acc + OccurrenceResults(g, lm, lm.offsetAndLengths[..oi])
    {
      var occ := lm.offsetAndLengths[oi];
      OccurrenceResultsStep(g, lm, lm.offsetAndLengths, oi);
      results := results + [TextResult(
        g.repositoryName, g.commitOid, g.filePath,
        Position(lm.lineNumber, occ.offset),
        Position(lm.lineNumber, occ.offset + occ.length),
        lm.preview)];
    }
    assert lm.offsetAndLengths[..|lm.offsetAndLengths|] == lm.offsetAndLengths;
  }
}
