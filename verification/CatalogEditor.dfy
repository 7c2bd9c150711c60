/** The editor of the catalog's text: the loops over its lines, and the errors on which it refuses to return. */
module CatalogEditor {
  import opened Prelude
  import opened TextLines
  import opened Catalogs
  import opened CatalogPruning

  /** The positions at which entries start. */
  function Starts(lines: seq<string>): (starts: seq<nat>) {
    if lines == [] then []
    else
      var n := |lines| - 1;
      if IsStart(lines[n]) then Starts(lines[..n]) + [n] else Starts(lines[..n])
  }

  method FindStarts(lines: seq<string>) returns (starts: seq<nat>)
    ensures starts == Starts(lines)
  {
    starts := [];
    for index := 0 to |lines|
      invariant starts == Starts(lines[..index])
    {
      assert lines[..index + 1][..index] == lines[..index];
      if IsStart(lines[index]) {
        starts := starts + [index];
      }
    }
    assert lines[..|lines|] == lines;
  }

  /** Where the i-th entry starts, and where the last one ends. */
  function Position(lines: seq<string>, i: nat): nat
    requires i <= |EntriesOf(lines)|
  {
    |HeaderOf(lines)| + |Concat(EntriesOf(lines)[..i])|
  }

  lemma {:induction false} StartsArePositions(lines: seq<string>)
    ensures |Starts(lines)| == |EntriesOf(lines)|
    ensures forall i | 0 <= i < |Starts(lines)| :: Starts(lines)[i] == Position(lines, i)
  {
    if lines != [] {
      var n := |lines| - 1;
      var before := lines[..n];
      StartsArePositions(before);
      Decompose(before);
      var entries := EntriesOf(before);
      if IsStart(lines[n]) {
        assert EntriesOf(lines)[..|entries|] == entries;
        assert entries[..|entries|] == entries;
        forall i | 0 <= i < |entries| ensures EntriesOf(lines)[..i] == entries[..i] {
        }
      } else if entries != [] {
        forall i | 0 <= i < |entries| ensures EntriesOf(lines)[..i] == entries[..i] {
        }
      }
    }
  }

  lemma {:induction false} ConcatPrefix(parts: seq<seq<string>>, i: nat)
    requires i <= |parts|
    ensures |Concat(parts[..i])| <= |Concat(parts)| && Concat(parts)[..|Concat(parts[..i])|] == Concat(parts[..i])
  {
    var n := |parts|;
    if i == n {
      assert parts[..i] == parts;
    } else {
      ConcatPrefix(parts[..n - 1], i);
      assert parts[..n - 1][..i] == parts[..i];
    }
  }

  lemma LinesUpTo(lines: seq<string>, i: nat)
    requires i <= |EntriesOf(lines)|
    ensures Position(lines, i) <= |lines|
    ensures lines[..Position(lines, i)] == HeaderOf(lines) + Concat(EntriesOf(lines)[..i])
  {
    Decompose(lines);
    ConcatPrefix(EntriesOf(lines), i);
    BeginningOfTwo(lines, HeaderOf(lines), Concat(EntriesOf(lines)), Concat(EntriesOf(lines)[..i]));
  }

  lemma BeginningOfTwo(lines: seq<string>, first: seq<string>, second: seq<string>, beginning: seq<string>)
    requires lines == first + second && |beginning| <= |second| && second[..|beginning|] == beginning
    ensures |first| + |beginning| <= |lines| && lines[..|first| + |beginning|] == first + beginning
  {
  }

  lemma MiddleOfThree(lines: seq<string>, header: seq<string>, before: seq<string>, part: seq<string>)
    requires |header| + |before| + |part| <= |lines|
    requires lines[..|header| + |before| + |part|] == header + (before + part)
    ensures lines[|header| + |before|..|header| + |before| + |part|] == part
  {
    var n := |header| + |before|;
    assert lines[n..n + |part|] == lines[..n + |part|][n..];
    assert (header + (before + part))[n..] == part;
  }

  lemma ConcatNext(parts: seq<seq<string>>, i: nat)
    requires i < |parts|
    ensures Concat(parts[..i + 1]) == Concat(parts[..i]) + parts[i]
  {
    assert parts[..i + 1] == parts[..i] + [parts[i]];
    ConcatAppend(parts[..i], parts[i]);
  }

  /** The lines between two positions are the entry. */
  lemma EntryBetweenPositions(lines: seq<string>, i: nat)
    requires i < |EntriesOf(lines)|
    ensures Position(lines, i) <= Position(lines, i + 1) <= |lines|
    ensures lines[Position(lines, i)..Position(lines, i + 1)] == EntriesOf(lines)[i]
  {
    LinesUpTo(lines, i + 1);
    ConcatNext(EntriesOf(lines), i);
    MiddleOfThree(lines, HeaderOf(lines), Concat(EntriesOf(lines)[..i]), EntriesOf(lines)[i]);
  }

  lemma HeaderAndEnd(lines: seq<string>)
    ensures |HeaderOf(lines)| <= |lines| && lines[..|HeaderOf(lines)|] == HeaderOf(lines)
    ensures Position(lines, 0) == |HeaderOf(lines)| && Position(lines, |EntriesOf(lines)|) == |lines|
  {
    Decompose(lines);
    assert EntriesOf(lines)[..|EntriesOf(lines)|] == EntriesOf(lines);
  }

  lemma StartIsPosition(lines: seq<string>, i: nat)
    requires i < |EntriesOf(lines)|
    ensures |Starts(lines)| == |EntriesOf(lines)|
    ensures Starts(lines)[i] == Position(lines, i)
  {
    StartsArePositions(lines);
  }

  /** An entry lies between its start and the next start, the last one before the end. */
  lemma BoundsOfEntry(lines: seq<string>, i: nat)
    requires i < |EntriesOf(lines)|
    ensures |Starts(lines)| == |EntriesOf(lines)|
    ensures Starts(lines)[i] == Position(lines, i)
    ensures (if i + 1 < |Starts(lines)| then Starts(lines)[i + 1] else |lines|) == Position(lines, i + 1)
  {
    StartIsPosition(lines, i);
    if i + 1 < |EntriesOf(lines)| {
      StartIsPosition(lines, i + 1);
    } else {
      HeaderAndEnd(lines);
    }
  }

  /** The targets that some line names. */
  function NamedTargets(lines: seq<string>, targets: set<Provider>): (found: set<Provider>)
    ensures found <= targets
    ensures forall line | line in lines && NamesProvider(line, targets) :: ProviderOf(line).value in found
  {
    if lines == [] then {}
    else
      var n := |lines| - 1;
      assert lines == lines[..n] + [lines[n]];
      NamedTargets(lines[..n], targets)
        + (if NamesProvider(lines[n], targets) then {ProviderOf(lines[n]).value} else {})
  }

  lemma OneLineMore(lines: seq<string>, targets: set<Provider>, i: nat)
    requires i < |lines|
    ensures var named := NamesProvider(lines[i], targets);
            && KeptLines(lines[..i + 1], targets) == KeptLines(lines[..i], targets) + (if named then [] else [lines[i]])
            && NamedTargets(lines[..i + 1], targets)
               == NamedTargets(lines[..i], targets) + (if named then {ProviderOf(lines[i]).value} else {})
  {
    assert lines[..i + 1][..i] == lines[..i];
  }

  /** Keeps the lines of an entry that name no target, and reports the targets found. */
  method DropProviderLines(lines: seq<string>, targets: set<Provider>) returns (kept: seq<string>, found: set<Provider>)
    ensures kept == KeptLines(lines, targets)
    ensures found <= targets
    ensures forall line | line in lines && NamesProvider(line, targets) :: ProviderOf(line).value in found
    ensures found == NamedTargets(lines, targets)
  {
    kept, found := [], {};
    for i := 0 to |lines|
      invariant kept == KeptLines(lines[..i], targets) && found == NamedTargets(lines[..i], targets)
    {
      OneLineMore(lines, targets, i);
      if NamesProvider(lines[i], targets) {
        found := found + {ProviderOf(lines[i]).value};
      } else {
        kept := kept + [lines[i]];
      }
    }
    assert lines[..|lines|] == lines;
  }

  /** Every slug of an entry has a line of its own. */
  lemma {:induction false} SlugsHaveLines(layout: Layout, body: seq<string>, p: Provider)
    requires p in SlugsOf(layout, body)
    ensures exists line | line in body :: ProviderOf(line) == Some(p)
  {
    var n := |body| - 1;
    if ProviderOf(body[n]) != Some(p) {
      SlugsHaveLines(layout, body[..n], p);
      var line :| line in body[..n] && ProviderOf(line) == Some(p);
      assert line in body;
    }
  }

  lemma AllTargetsFound(layout: Layout, entry: seq<string>, targets: set<Provider>, found: set<Provider>)
    requires IsEntry(entry) && targets <= RowOf(layout, entry).slugs.Keys && found <= targets
    requires forall line | line in entry && NamesProvider(line, targets) :: ProviderOf(line).value in found
    ensures found == targets
  {
    forall p | p in targets ensures p in found {
      SlugsHaveLines(layout, entry[1..], p);
      var line :| line in entry[1..] && ProviderOf(line) == Some(p);
      assert line in entry && NamesProvider(line, targets);
    }
  }

  /** What becomes of one entry. */
  method PruneEntry(layout: Layout, entry: seq<string>, row: Row, invalid: Pairs)
    returns (kept: seq<string>, removed: seq<Removal>, located: bool)
    requires IsEntry(entry) && row == RowOf(layout, entry)
    ensures located && kept == PrunedEntry(layout, entry, invalid)
    ensures removed == RowRemovals(row, invalid)
  {
    var targets := Targets(row, invalid);
    removed := RowRemovals(row, invalid);
    if targets == {} {
      assert forall p :: IsTarget(row, invalid, p) ==> p in targets;
      return entry, [], true;
    }
    if |targets| == |row.slugs| {
      SubsetSize(targets, row.slugs.Keys);
      return [], removed, true;
    }
    var found;
    kept, found := DropProviderLines(entry, targets);
    AllTargetsFound(layout, entry, targets, found);
    located := found == targets;
  }

  /** The header and the first n entries, pruned. */
  function EditedLines(layout: Layout, lines: seq<string>, invalid: Pairs, n: nat): seq<string>
    requires AreEntries(EntriesOf(lines)) && n <= |EntriesOf(lines)|
  {
    HeaderOf(lines) + PrunedLines(layout, EntriesOf(lines)[..n], invalid)
  }

  /** The parts, and the lines not copied yet, are the header and the first n entries, pruned. */
  ghost predicate EditedUpTo(layout: Layout, lines: seq<string>, invalid: Pairs, n: nat, updatedParts: seq<string>,
                             previousEnd: nat)
    requires AreEntries(EntriesOf(lines)) && n <= |EntriesOf(lines)|
  {
    && previousEnd <= Position(lines, n) <= |lines|
    && updatedParts + lines[previousEnd..Position(lines, n)] == EditedLines(layout, lines, invalid, n)
  }

  lemma NextEntry(layout: Layout, lines: seq<string>, invalid: Pairs, n: nat)
    requires AreEntries(EntriesOf(lines)) && n < |EntriesOf(lines)|
    ensures EditedLines(layout, lines, invalid, n + 1)
            == EditedLines(layout, lines, invalid, n) + PrunedEntry(layout, EntriesOf(lines)[n], invalid)
  {
    PrunedNext(layout, EntriesOf(lines), invalid, n);
  }

  lemma PrunedNext(layout: Layout, entries: seq<seq<string>>, invalid: Pairs, n: nat)
    requires AreEntries(entries) && n < |entries|
    ensures PrunedLines(layout, entries[..n + 1], invalid)
            == PrunedLines(layout, entries[..n], invalid) + PrunedEntry(layout, entries[n], invalid)
  {
    assert entries[..n + 1][..n] == entries[..n];
  }

  lemma NothingLeft(lines: seq<string>, parts: seq<string>, end: nat)
    requires end <= |lines|
    ensures parts + lines[end..end] == parts
  {
    assert lines[end..end] == [];
  }

  lemma EditedOneMore(layout: Layout, lines: seq<string>, invalid: Pairs, n: nat, updatedParts: seq<string>,
                      previousEnd: nat)
    requires AreEntries(EntriesOf(lines)) && n < |EntriesOf(lines)|
    requires EditedUpTo(layout, lines, invalid, n, updatedParts, previousEnd)
    ensures EditedUpTo(layout, lines, invalid, n + 1,
                       updatedParts + lines[previousEnd..Position(lines, n)]
                         + PrunedEntry(layout, EntriesOf(lines)[n], invalid),
                       Position(lines, n + 1))
  {
    EntryBetweenPositions(lines, n);
    NextEntry(layout, lines, invalid, n);
    NothingLeft(lines, EditedLines(layout, lines, invalid, n + 1), Position(lines, n + 1));
  }

  /** Copies what lies before one entry, and what is left of the entry. */
  method EditNext(layout: Layout, lines: seq<string>, row: Row, invalid: Pairs, ghost index: nat, start: nat, end: nat,
                  parts: seq<string>, previousEnd: nat)
    returns (updatedParts: seq<string>, dropped: seq<Removal>, located: bool)
    requires AreEntries(EntriesOf(lines)) && index < |EntriesOf(lines)| && row == RowOf(layout, EntriesOf(lines)[index])
    requires start == Position(lines, index) && end == Position(lines, index + 1)
    requires EditedUpTo(layout, lines, invalid, index, parts, previousEnd)
    ensures located && dropped == RowRemovals(row, invalid)
    ensures EditedUpTo(layout, lines, invalid, index + 1, updatedParts, end)
  {
    EntryBetweenPositions(lines, index);
    EditedOneMore(layout, lines, invalid, index, parts, previousEnd);
    var kept;
    kept, dropped, located := PruneEntry(layout, lines[start..end], row, invalid);
    updatedParts := parts + lines[previousEnd..start];
    updatedParts := updatedParts + kept;
  }

  /** One round of the loop: where the entry lies, what is left of it, and what was removed so far. */
  method EditRound(layout: Layout, lines: seq<string>, rows: seq<Row>, starts: seq<nat>, invalid: Pairs, index: nat,
                   parts: seq<string>, previousEnd: nat, reported: seq<Removal>)
    returns (updatedParts: seq<string>, end: nat, removed: seq<Removal>, located: bool)
    requires AreEntries(EntriesOf(lines)) && index < |EntriesOf(lines)|
    requires rows == RowsOf(layout, EntriesOf(lines)) && starts == Starts(lines)
    requires EditedUpTo(layout, lines, invalid, index, parts, previousEnd)
    requires reported == Removals(rows[..index], invalid)
    ensures located && removed == Removals(rows[..index + 1], invalid)
    ensures EditedUpTo(layout, lines, invalid, index + 1, updatedParts, end)
  {
    BoundsOfEntry(lines, index);
    var start := starts[index];
    end := if index + 1 < |starts| then starts[index + 1] else |lines|;
    var dropped;
    updatedParts, dropped, located :=
      EditNext(layout, lines, rows[index], invalid, index, start, end, parts, previousEnd);
    NextRemovals(rows, invalid, index);
    removed := reported + dropped;
  }

  lemma OneStartPerEntry(lines: seq<string>)
    ensures |Starts(lines)| == |EntriesOf(lines)|
  {
    StartsArePositions(lines);
  }

  lemma NothingEdited(layout: Layout, lines: seq<string>, invalid: Pairs)
    requires AreEntries(EntriesOf(lines))
    ensures EditedUpTo(layout, lines, invalid, 0, [], 0)
  {
    HeaderAndEnd(lines);
  }

  /** The loop over the companies: header, then each entry pruned. False when an entry cannot be located or edited. */
  method EditLines(layout: Layout, lines: seq<string>, rows: seq<Row>, invalid: Pairs)
    returns (updatedParts: seq<string>, removed: seq<Removal>, located: bool)
    requires AreEntries(EntriesOf(lines)) && rows == RowsOf(layout, EntriesOf(lines))
    ensures located && updatedParts == HeaderOf(lines) + PrunedLines(layout, EntriesOf(lines), invalid)
    ensures removed == Removals(rows, invalid)
  {
    updatedParts, removed, located := [], [], true;
    var starts := FindStarts(lines);
    OneStartPerEntry(lines);
    NothingEdited(layout, lines, invalid);
    if |starts| != |rows| {
      return [], [], false;
    }
    var previousEnd: nat := 0;
    for index := 0 to |rows|
      invariant located && removed == Removals(rows[..index], invalid)
      invariant EditedUpTo(layout, lines, invalid, index, updatedParts, previousEnd)
    {
      updatedParts, previousEnd, removed, located :=
        EditRound(layout, lines, rows, starts, invalid, index, updatedParts, previousEnd, removed);
      if !located {
        return;
      }
    }
    updatedParts := updatedParts + lines[previousEnd..];
    WholeEdit(layout, lines, rows, invalid);
  }

  /** After the last entry the whole text is edited. */
  lemma WholeEdit(layout: Layout, lines: seq<string>, rows: seq<Row>, invalid: Pairs)
    requires AreEntries(EntriesOf(lines)) && rows == RowsOf(layout, EntriesOf(lines))
    ensures Removals(rows[..|rows|], invalid) == Removals(rows, invalid)
    ensures EditedLines(layout, lines, invalid, |rows|)
            == HeaderOf(lines) + PrunedLines(layout, EntriesOf(lines), invalid)
    ensures Position(lines, |rows|) == |lines|
  {
    HeaderAndEnd(lines);
    assert rows[..|rows|] == rows && EntriesOf(lines)[..|rows|] == EntriesOf(lines);
  }

  lemma NextRemovals(rows: seq<Row>, invalid: Pairs, n: nat)
    requires n < |rows|
    ensures Removals(rows[..n + 1], invalid) == Removals(rows[..n], invalid) + RowRemovals(rows[n], invalid)
  {
    assert rows[..n + 1][..n] == rows[..n];
  }

  /** The line editor is exactly the edit whose meaning is proved above; every error is a refusal to return. */
  method PruneInvalidProviderSlugs(layout: Layout, raw: string, invalid: Pairs)
    returns (r: Option<(string, seq<Removal>)>)
    ensures r == Pruned(layout, raw, invalid)
    ensures invalid == {} ==> r == Some((raw, []))
    ensures r.Some? && invalid != {} ==>
              && ParseCatalog(layout, raw).Some? && ParseCatalog(layout, r.value.0).Some?
              && OnlyInvalidAreGone(ParseCatalog(layout, raw).value, ParseCatalog(layout, r.value.0).value, r.value.1,
                                    invalid)
  {
    if invalid == {} {
      return Some((raw, []));
    }
    var catalog := ParseCatalog(layout, raw);
    if catalog.None? {
      return None;
    }
    EntriesAreEntries(SplitLines(raw));
    var updatedParts, removed, located := EditLines(layout, SplitLines(raw), catalog.value, invalid);
    if !located {
      return None;
    }
    var updated := Join(updatedParts);
    if ParseCatalog(layout, updated).None? {
      return None;
    }
    r := Some((updated, removed));
    PruningRemovesExactlyTheInvalid(layout, raw, invalid);
  }
}
