/**
 Removing confirmed-invalid provider slugs from the catalog's source text, line
 by line, and what that means for the catalog the text stands for.
 */
module CatalogPruning {
  import opened Prelude
  import opened TextLines
  import opened Catalogs

  type Pairs = set<(Provider, string)>

  datatype Removal = Removal(name: string, provider: Provider, slug: string)

  // ----- The meaning: filtering the parsed catalog

  predicate IsTarget(row: Row, invalid: Pairs, p: Provider) {
    p in row.slugs && (p, row.slugs[p]) in invalid
  }

  function Targets(row: Row, invalid: Pairs): set<Provider> {
    set p | p in row.slugs && IsTarget(row, invalid, p)
  }

  /** The row without its invalid slugs. */
  function PrunedRow(row: Row, invalid: Pairs): Row {
    row.(slugs := row.slugs - Targets(row, invalid))
  }

  /** The rows without invalid slugs, and without the rows that have none left. */
  function FilterRows(rows: seq<Row>, invalid: Pairs): seq<Row> {
    if rows == [] then []
    else
      var n := |rows| - 1;
      var row := PrunedRow(rows[n], invalid);
      if row.slugs == map[] then FilterRows(rows[..n], invalid) else FilterRows(rows[..n], invalid) + [row]
  }

  function RemovalsOf(row: Row, invalid: Pairs, p: Provider): seq<Removal> {
    if IsTarget(row, invalid, p) then [Removal(row.name, p, row.slugs[p])] else []
  }

  /** In the fixed order of the providers. */
  function RowRemovals(row: Row, invalid: Pairs): seq<Removal> {
    RemovalsOf(row, invalid, Greenhouse) + RemovalsOf(row, invalid, Lever) + RemovalsOf(row, invalid, Ashby)
  }

  function Removals(rows: seq<Row>, invalid: Pairs): seq<Removal> {
    if rows == [] then []
    else
      var n := |rows| - 1;
      Removals(rows[..n], invalid) + RowRemovals(rows[n], invalid)
  }

  // ----- The edit: dropping lines

  predicate NamesProvider(line: string, providers: set<Provider>) {
    var p := ProviderOf(line);
    p.Some? && p.value in providers
  }

  function KeptLines(lines: seq<string>, dropped: set<Provider>): seq<string> {
    if lines == [] then []
    else
      var n := |lines| - 1;
      if NamesProvider(lines[n], dropped) then KeptLines(lines[..n], dropped)
      else KeptLines(lines[..n], dropped) + [lines[n]]
  }

  function PrunedEntry(layout: Layout, entry: seq<string>, invalid: Pairs): seq<string>
    requires IsEntry(entry)
  {
    var row := RowOf(layout, entry);
    var targets := Targets(row, invalid);
    if targets == {} then entry
    else if targets == row.slugs.Keys then []
    else KeptLines(entry, targets)
  }

  function PrunedLines(layout: Layout, entries: seq<seq<string>>, invalid: Pairs): seq<string>
    requires AreEntries(entries)
  {
    if entries == [] then []
    else
      var n := |entries| - 1;
      PrunedLines(layout, entries[..n], invalid) + PrunedEntry(layout, entries[n], invalid)
  }

  function EditedText(layout: Layout, raw: string, invalid: Pairs): string {
    var lines := SplitLines(raw);
    EntriesAreEntries(lines);
    Join(HeaderOf(lines) + PrunedLines(layout, EntriesOf(lines), invalid))
  }

  /** What pruning returns; None is the ValueError. */
  function Pruned(layout: Layout, raw: string, invalid: Pairs): Option<(string, seq<Removal>)> {
    if invalid == {} then Some((raw, []))
    else
      var rows := ParseCatalog(layout, raw);
      if rows.None? || ParseCatalog(layout, EditedText(layout, raw, invalid)).None? then None
      else Some((EditedText(layout, raw, invalid), Removals(rows.value, invalid)))
  }

  // ----- One entry

  lemma StartNamesNoProvider(line: string)
    requires IsStart(line)
    ensures ProviderOf(line).None?
  {
    assert line[2] == line[..|ENTRY_START|][2] == '-';
    forall p: Provider ensures !StartsWith(line, ProviderPrefix(p)) {
      var prefix := ProviderPrefix(p);
      assert prefix[2] == ' ';
      assert |prefix| <= |line| ==> line[..|prefix|][2] == line[2];
    }
  }

  /** What one more line does to the slugs read so far. */
  function WithLine(layout: Layout, slugs: map<Provider, string>, line: string): map<Provider, string> {
    var p := ProviderOf(line);
    if p.None? then slugs
    else
      var slug := layout.scalar(line[|ProviderPrefix(p.value)|..]);
      if slug == "" then slugs - {p.value} else slugs[p.value := slug]
  }

  lemma WithLineDropped(layout: Layout, slugs: map<Provider, string>, line: string, dropped: set<Provider>)
    ensures WithLine(layout, slugs, line) - dropped
            == if NamesProvider(line, dropped) then slugs - dropped else WithLine(layout, slugs - dropped, line)
  {
  }

  /** Dropping the lines of some providers drops these providers and nothing else. */
  lemma {:induction false} KeptSlugs(layout: Layout, body: seq<string>, dropped: set<Provider>)
    ensures SlugsOf(layout, KeptLines(body, dropped)) == SlugsOf(layout, body) - dropped
  {
    if body != [] {
      var n := |body| - 1;
      var kept := KeptLines(body[..n], dropped);
      KeptSlugs(layout, body[..n], dropped);
      WithLineDropped(layout, SlugsOf(layout, body[..n]), body[n], dropped);
      assert SlugsOf(layout, body) == WithLine(layout, SlugsOf(layout, body[..n]), body[n]);
      if !NamesProvider(body[n], dropped) {
        assert (kept + [body[n]])[..|kept|] == kept;
        assert SlugsOf(layout, kept + [body[n]]) == WithLine(layout, SlugsOf(layout, kept), body[n]);
      }
    }
  }

  lemma {:induction false} KeptRest(body: seq<string>, dropped: set<Provider>)
    ensures RestOf(KeptLines(body, dropped)) == RestOf(body)
  {
    if body != [] {
      var n := |body| - 1;
      var kept := KeptLines(body[..n], dropped);
      KeptRest(body[..n], dropped);
      if !NamesProvider(body[n], dropped) {
        assert (kept + [body[n]])[..|kept|] == kept;
      }
    }
  }

  lemma {:induction false} KeptStartsNothing(body: seq<string>, dropped: set<Provider>)
    requires forall k | 0 <= k < |body| :: !IsStart(body[k])
    ensures forall k | 0 <= k < |KeptLines(body, dropped)| :: !IsStart(KeptLines(body, dropped)[k])
  {
    if body != [] {
      KeptStartsNothing(body[..|body| - 1], dropped);
    }
  }

  lemma {:induction false} KeptLinesSplit(first: string, body: seq<string>, dropped: set<Provider>)
    requires !NamesProvider(first, dropped)
    ensures KeptLines([first] + body, dropped) == [first] + KeptLines(body, dropped)
  {
    if body == [] {
      assert [first] + body == [first];
      assert KeptLines([first][..0], dropped) == [];
    } else {
      var n := |body| - 1;
      KeptLinesSplit(first, body[..n], dropped);
      assert ([first] + body)[..n + 1] == [first] + body[..n];
    }
  }

  /** A pruned entry stands for the pruned row, or is gone when the row keeps no slug. */
  lemma PrunedEntryMeaning(layout: Layout, entry: seq<string>, invalid: Pairs)
    requires IsEntry(entry) && RowOf(layout, entry).slugs != map[]
    ensures var pruned, row := PrunedEntry(layout, entry, invalid), PrunedRow(RowOf(layout, entry), invalid);
            if row.slugs == map[] then pruned == []
            else IsEntry(pruned) && RowOf(layout, pruned) == row
  {
    var row := RowOf(layout, entry);
    var targets := Targets(row, invalid);
    TargetsLeave(row.slugs, targets);
    if targets != {} && targets != row.slugs.Keys {
      KeptEntry(layout, entry, targets);
    }
  }

  lemma TargetsLeave(slugs: map<Provider, string>, targets: set<Provider>)
    requires targets <= slugs.Keys
    ensures slugs - targets == map[] <==> targets == slugs.Keys
    ensures targets == {} ==> slugs - targets == slugs
  {
    assert (slugs - targets).Keys == slugs.Keys - targets;
    if targets != slugs.Keys {
      var p :| p in slugs.Keys && p !in targets;
      assert p in slugs - targets;
    }
  }

  lemma KeptEntry(layout: Layout, entry: seq<string>, dropped: set<Provider>)
    requires IsEntry(entry)
    ensures IsEntry(KeptLines(entry, dropped))
    ensures RowOf(layout, KeptLines(entry, dropped))
            == RowOf(layout, entry).(slugs := RowOf(layout, entry).slugs - dropped)
  {
    var body := entry[1..];
    StartNamesNoProvider(entry[0]);
    assert entry == [entry[0]] + body;
    KeptLinesSplit(entry[0], body, dropped);
    KeptSlugs(layout, body, dropped);
    KeptRest(body, dropped);
    KeptStartsNothing(body, dropped);
    assert KeptLines(entry, dropped)[1..] == KeptLines(body, dropped);
  }

  // ----- All entries

  function PrunedEntries(layout: Layout, entries: seq<seq<string>>, invalid: Pairs): seq<seq<string>>
    requires AreEntries(entries)
  {
    if entries == [] then []
    else
      var n := |entries| - 1;
      var pruned := PrunedEntry(layout, entries[n], invalid);
      if pruned == [] then PrunedEntries(layout, entries[..n], invalid)
      else PrunedEntries(layout, entries[..n], invalid) + [pruned]
  }

  lemma {:induction false} PrunedEntriesJoin(layout: Layout, entries: seq<seq<string>>, invalid: Pairs)
    requires AreEntries(entries)
    ensures Concat(PrunedEntries(layout, entries, invalid)) == PrunedLines(layout, entries, invalid)
  {
    if entries != [] {
      var n := |entries| - 1;
      PrunedEntriesJoin(layout, entries[..n], invalid);
      ConcatAppend(PrunedEntries(layout, entries[..n], invalid), PrunedEntry(layout, entries[n], invalid));
    }
  }

  lemma {:induction false} PrunedEntriesMeaning(layout: Layout, entries: seq<seq<string>>, invalid: Pairs)
    requires AreEntries(entries)
    requires forall i | 0 <= i < |entries| :: RowOf(layout, entries[i]).slugs != map[]
    ensures AreEntries(PrunedEntries(layout, entries, invalid))
    ensures RowsOf(layout, PrunedEntries(layout, entries, invalid)) == FilterRows(RowsOf(layout, entries), invalid)
  {
    if entries != [] {
      var n := |entries| - 1;
      PrunedEntriesMeaning(layout, entries[..n], invalid);
      PrunedEntryMeaning(layout, entries[n], invalid);
      assert RowsOf(layout, entries)[..n] == RowsOf(layout, entries[..n]);
      RowAppended(layout, PrunedEntries(layout, entries[..n], invalid), PrunedEntry(layout, entries[n], invalid));
    }
  }

  lemma RowAppended(layout: Layout, entries: seq<seq<string>>, entry: seq<string>)
    requires AreEntries(entries)
    ensures IsEntry(entry) ==> AreEntries(entries + [entry])
                               && RowsOf(layout, entries + [entry]) == RowsOf(layout, entries) + [RowOf(layout, entry)]
  {
  }

  /** Filtering only drops rows and slugs. */
  lemma {:induction false} FilteredRowsAreOld(rows: seq<Row>, invalid: Pairs, k: nat) returns (i: nat)
    requires k < |FilterRows(rows, invalid)|
    ensures i < |rows| && FilterRows(rows, invalid)[k] == PrunedRow(rows[i], invalid)
    ensures FilterRows(rows, invalid)[k].slugs != map[]
  {
    var n := |rows| - 1;
    if k < |FilterRows(rows[..n], invalid)| {
      i := FilteredRowsAreOld(rows[..n], invalid, k);
    } else {
      i := n;
    }
  }

  ghost predicate NamesAreUnique(layout: Layout, rows: seq<Row>) {
    forall i, j | 0 <= i < j < |rows| ::
      rows[i].name != rows[j].name && layout.normalize(rows[i].name) != layout.normalize(rows[j].name)
  }

  lemma {:induction false} FilteredNamesAreUnique(layout: Layout, rows: seq<Row>, invalid: Pairs)
    requires NamesAreUnique(layout, rows)
    ensures NamesAreUnique(layout, FilterRows(rows, invalid))
  {
    if rows != [] {
      var n := |rows| - 1;
      FilteredNamesAreUnique(layout, rows[..n], invalid);
      var kept := FilterRows(rows[..n], invalid);
      forall k | 0 <= k < |kept|
        ensures kept[k].name != rows[n].name && layout.normalize(kept[k].name) != layout.normalize(rows[n].name)
      {
        var i := FilteredRowsAreOld(rows[..n], invalid, k);
        assert rows[..n][i] == rows[i];
      }
    }
  }

  lemma FilteredCatalogIsValid(layout: Layout, header: seq<string>, rows: seq<Row>, invalid: Pairs)
    requires ValidCatalog(layout, header, rows)
    ensures ValidCatalog(layout, header, FilterRows(rows, invalid)) <==> (rows == [] || FilterRows(rows, invalid) != [])
  {
    var kept := FilterRows(rows, invalid);
    forall k | 0 <= k < |kept| ensures kept[k].slugs != map[] {
      var _ := FilteredRowsAreOld(rows, invalid, k);
    }
    FilteredNamesAreUnique(layout, rows, invalid);
  }

  // ----- The text

  lemma {:induction false} KeptLinesAreSubsequence(lines: seq<string>, dropped: set<Provider>)
    ensures Subsequence(KeptLines(lines, dropped), lines)
  {
    if lines != [] {
      var n := |lines| - 1;
      KeptLinesAreSubsequence(lines[..n], dropped);
      var kept := KeptLines(lines[..n], dropped);
      if !NamesProvider(lines[n], dropped) {
        assert (kept + [lines[n]])[..|kept|] == kept;
        assert KeptLines(lines, dropped) == kept + [lines[n]];
      }
    }
  }

  lemma {:induction false} PrunedLinesAreSubsequence(layout: Layout, entries: seq<seq<string>>, invalid: Pairs)
    requires AreEntries(entries)
    ensures Subsequence(PrunedLines(layout, entries, invalid), Concat(entries))
  {
    if entries != [] {
      var n := |entries| - 1;
      PrunedLinesAreSubsequence(layout, entries[..n], invalid);
      var entry := entries[n];
      SubsequenceOfSelf(entry);
      NothingIsSubsequence(entry);
      KeptLinesAreSubsequence(entry, Targets(RowOf(layout, entry), invalid));
      SubsequenceOfConcat(PrunedLines(layout, entries[..n], invalid), PrunedEntry(layout, entry, invalid),
                          Concat(entries[..n]), entry);
    }
  }

  /** The edited text consists of some of the lines of the text, in order. */
  lemma EditOnlyDropsLines(layout: Layout, raw: string, invalid: Pairs)
    ensures Subsequence(SplitLines(EditedText(layout, raw, invalid)), SplitLines(raw))
    ensures var lines := SplitLines(raw);
            AreEntries(EntriesOf(lines))
            && SplitLines(EditedText(layout, raw, invalid))
              == HeaderOf(lines) + PrunedLines(layout, EntriesOf(lines), invalid)
  {
    var lines := SplitLines(raw);
    EntriesAreEntries(lines);
    Decompose(lines);
    SplitGivesLines(raw);
    SubsequenceOfSelf(HeaderOf(lines));
    PrunedLinesAreSubsequence(layout, EntriesOf(lines), invalid);
    var edited := HeaderOf(lines) + PrunedLines(layout, EntriesOf(lines), invalid);
    SubsequenceOfConcat(HeaderOf(lines), PrunedLines(layout, EntriesOf(lines), invalid), HeaderOf(lines),
                        Concat(EntriesOf(lines)));
    SubsequenceAreLines(edited, lines);
    SplitOfJoin(edited);
  }

  /** The edited text stands for the filtered catalog; it is refused exactly when no company keeps a provider. */
  lemma EditMeansFiltering(layout: Layout, raw: string, invalid: Pairs)
    requires ParseCatalog(layout, raw).Some?
    ensures var rows := ParseCatalog(layout, raw).value;
            var kept := FilterRows(rows, invalid);
            ParseCatalog(layout, EditedText(layout, raw, invalid))
            == if rows == [] || kept != [] then Some(kept) else None
  {
    var lines := SplitLines(raw);
    var header, entries := HeaderOf(lines), EntriesOf(lines);
    EntriesAreEntries(lines);
    EditOnlyDropsLines(layout, raw, invalid);
    var rows := RowsOf(layout, entries);
    forall i | 0 <= i < |entries| ensures RowOf(layout, entries[i]).slugs != map[] {
      assert rows[i].slugs != map[];
    }
    PrunedEntriesJoin(layout, entries, invalid);
    PrunedEntriesMeaning(layout, entries, invalid);
    Recompose(header, PrunedEntries(layout, entries, invalid));
    FilteredCatalogIsValid(layout, header, rows, invalid);
  }

  // ----- What pruning promises

  /**
   Pruning returns exactly when there is nothing to prune, or the catalog parses
   and some company keeps a provider.
   */
  lemma PruningReturnsWhen(layout: Layout, raw: string, invalid: Pairs)
    ensures Pruned(layout, raw, invalid).Some? <==>
            invalid == {} || (var rows := ParseCatalog(layout, raw);
                              rows.Some? && (rows.value == [] || FilterRows(rows.value, invalid) != []))
  {
    if ParseCatalog(layout, raw).Some? {
      EditMeansFiltering(layout, raw, invalid);
    }
  }

  lemma {:induction false} FilteringByNothing(rows: seq<Row>)
    requires forall i | 0 <= i < |rows| :: rows[i].slugs != map[]
    ensures FilterRows(rows, {}) == rows
  {
    if rows != [] {
      var n := |rows| - 1;
      FilteringByNothing(rows[..n]);
      TargetsLeave(rows[n].slugs, Targets(rows[n], {}));
      assert PrunedRow(rows[n], {}) == rows[n];
      assert rows == rows[..n] + [rows[n]];
    }
  }

  /**
   Parsing the pruned text gives the filtered catalog: what an editor of lines
   does is what a filter of rows means.
   */
  lemma PruningMeansFiltering(layout: Layout, raw: string, invalid: Pairs)
    requires Pruned(layout, raw, invalid).Some?
    ensures var updated := Pruned(layout, raw, invalid).value.0;
            var rows := ParseCatalog(layout, raw);
            && ParseCatalog(layout, updated) == (if rows.Some? then Some(FilterRows(rows.value, invalid)) else None)
            && Subsequence(SplitLines(updated), SplitLines(raw))
  {
    PruningReturnsWhen(layout, raw, invalid);
    if invalid == {} {
      SubsequenceOfSelf(SplitLines(raw));
      if ParseCatalog(layout, raw).Some? {
        FilteringByNothing(ParseCatalog(layout, raw).value);
      }
    } else {
      EditMeansFiltering(layout, raw, invalid);
      EditOnlyDropsLines(layout, raw, invalid);
    }
  }

  /** No filtered row has a target left. */
  lemma FilteredRowsHaveNoTargets(rows: seq<Row>, invalid: Pairs, k: nat)
    requires k < |FilterRows(rows, invalid)|
    ensures Targets(FilterRows(rows, invalid)[k], invalid) == {}
  {
    var i := FilteredRowsAreOld(rows, invalid, k);
  }

  lemma {:induction false} NothingToRemove(rows: seq<Row>, invalid: Pairs)
    requires forall k | 0 <= k < |rows| :: Targets(rows[k], invalid) == {}
    ensures Removals(rows, invalid) == []
  {
    if rows != [] {
      var n := |rows| - 1;
      NothingToRemove(rows[..n], invalid);
      assert forall p :: IsTarget(rows[n], invalid, p) ==> p in Targets(rows[n], invalid);
    }
  }

  lemma {:induction false} NothingToPrune(layout: Layout, entries: seq<seq<string>>, invalid: Pairs)
    requires AreEntries(entries)
    requires forall k | 0 <= k < |entries| :: Targets(RowOf(layout, entries[k]), invalid) == {}
    ensures PrunedLines(layout, entries, invalid) == Concat(entries)
  {
    if entries != [] {
      NothingToPrune(layout, entries[..|entries| - 1], invalid);
    }
  }

  /** Pruning again changes nothing and reports nothing. */
  lemma PruningIsIdempotent(layout: Layout, raw: string, invalid: Pairs)
    requires Pruned(layout, raw, invalid).Some?
    ensures var updated := Pruned(layout, raw, invalid).value.0;
            Pruned(layout, updated, invalid) == Some((updated, []))
  {
    if invalid != {} {
      var updated := Pruned(layout, raw, invalid).value.0;
      PruningMeansFiltering(layout, raw, invalid);
      var before, rows := ParseCatalog(layout, raw).value, ParseCatalog(layout, updated).value;
      var lines := SplitLines(updated);
      EntriesAreEntries(lines);
      forall k | 0 <= k < |rows| ensures Targets(rows[k], invalid) == {} {
        FilteredRowsHaveNoTargets(before, invalid, k);
      }
      NothingToRemove(rows, invalid);
      forall k | 0 <= k < |EntriesOf(lines)| ensures Targets(RowOf(layout, EntriesOf(lines)[k]), invalid) == {} {
        assert rows[k] == RowOf(layout, EntriesOf(lines)[k]);
      }
      NothingToPrune(layout, EntriesOf(lines), invalid);
      Decompose(lines);
      JoinOfSplit(updated);
    }
  }

  // ----- What pruning promises, provider by provider

  /** Some company of this name has this slug at this provider. */
  ghost predicate Lists(rows: seq<Row>, name: string, p: Provider, slug: string) {
    exists row | row in rows :: row.name == name && p in row.slugs && row.slugs[p] == slug
  }

  function Names(rows: seq<Row>): seq<string> {
    if rows == [] then [] else Names(rows[..|rows| - 1]) + [rows[|rows| - 1].name]
  }

  /**
   From before to after, a slug is gone exactly when its provider and it are an
   invalid pair, and each such pair is reported, once per company; a company is
   gone when it has no slug left, the others keep their order and other lines.
   */
  ghost predicate OnlyInvalidAreGone(before: seq<Row>, after: seq<Row>, removed: seq<Removal>, invalid: Pairs) {
    && (forall name, p, slug ::
          Lists(after, name, p, slug) <==> Lists(before, name, p, slug) && (p, slug) !in invalid)
    && (forall name, p, slug ::
          Removal(name, p, slug) in removed <==> Lists(before, name, p, slug) && (p, slug) in invalid)
    && Distinct(removed)
    && Subsequence(Names(after), Names(before))
    && (forall row | row in after :: row.slugs != map[] && exists o | o in before ::
          o.name == row.name && o.rest == row.rest)
  }

  lemma {:induction false} FilteredSlugs(rows: seq<Row>, invalid: Pairs, name: string, p: Provider, slug: string)
    ensures Lists(FilterRows(rows, invalid), name, p, slug)
            <==> Lists(rows, name, p, slug) && (p, slug) !in invalid
  {
    if rows != [] {
      var n := |rows| - 1;
      FilteredSlugs(rows[..n], invalid, name, p, slug);
      ListsLast(rows[..n], rows[n], name, p, slug);
      assert rows == rows[..n] + [rows[n]];
      var kept, row := FilterRows(rows[..n], invalid), PrunedRow(rows[n], invalid);
      ListsLast(kept, row, name, p, slug);
    }
  }

  lemma ListsLast(rows: seq<Row>, row: Row, name: string, p: Provider, slug: string)
    ensures Lists(rows + [row], name, p, slug)
            <==> Lists(rows, name, p, slug) || (row.name == name && p in row.slugs && row.slugs[p] == slug)
  {
    if r :| r in rows && r.name == name && p in r.slugs && r.slugs[p] == slug {
      assert r in rows + [row];
    }
    assert row in rows + [row];
  }

  lemma RowRemovalsAre(row: Row, invalid: Pairs, r: Removal)
    ensures r in RowRemovals(row, invalid)
            <==> r.name == row.name && r.provider in row.slugs && row.slugs[r.provider] == r.slug
                 && (r.provider, r.slug) in invalid
  {
    var g, l := RemovalsOf(row, invalid, Greenhouse), RemovalsOf(row, invalid, Lever);
    var a := RemovalsOf(row, invalid, Ashby);
    assert r in g + l + a <==> r in g || r in l || r in a;
    match r.provider {
      case Greenhouse =>
      case Lever =>
      case Ashby =>
    }
  }

  lemma RowRemovalsAreDifferent(row: Row, invalid: Pairs)
    ensures Distinct(RowRemovals(row, invalid))
  {
  }

  lemma {:induction false} RemovalsAre(rows: seq<Row>, invalid: Pairs, r: Removal)
    ensures r in Removals(rows, invalid) <==> Lists(rows, r.name, r.provider, r.slug) && (r.provider, r.slug) in invalid
  {
    if rows != [] {
      var n := |rows| - 1;
      RemovalsAre(rows[..n], invalid, r);
      RowRemovalsAre(rows[n], invalid, r);
      ListsLast(rows[..n], rows[n], r.name, r.provider, r.slug);
      assert rows == rows[..n] + [rows[n]];
    }
  }

  ghost predicate DifferentNames(rows: seq<Row>) {
    forall i, j | 0 <= i < j < |rows| :: rows[i].name != rows[j].name
  }

  lemma LastNameIsNew(rows: seq<Row>, name: string, p: Provider, slug: string)
    requires rows != [] && DifferentNames(rows) && Lists(rows[..|rows| - 1], name, p, slug)
    ensures rows[|rows| - 1].name != name
  {
    var row :| row in rows[..|rows| - 1] && row.name == name;
    var i :| 0 <= i < |rows| - 1 && rows[..|rows| - 1][i] == row;
    assert rows[i] == row;
  }

  lemma {:induction false} RemovalsAreDifferent(rows: seq<Row>, invalid: Pairs)
    requires DifferentNames(rows)
    ensures Distinct(Removals(rows, invalid))
  {
    if rows != [] {
      var n := |rows| - 1;
      RemovalsAreDifferent(rows[..n], invalid);
      RowRemovalsAreDifferent(rows[n], invalid);
      var before, last := Removals(rows[..n], invalid), RowRemovals(rows[n], invalid);
      forall r | r in before ensures r !in last {
        RemovalsAre(rows[..n], invalid, r);
        LastNameIsNew(rows, r.name, r.provider, r.slug);
        RowRemovalsAre(rows[n], invalid, r);
      }
      DistinctParts(before, last);
    }
  }

  lemma DistinctParts<T>(a: seq<T>, b: seq<T>)
    requires Distinct(a) && Distinct(b) && forall x | x in a :: x !in b
    ensures Distinct(a + b)
  {
    forall i, j | 0 <= i < j < |a + b| ensures (a + b)[i] != (a + b)[j] {
      if i < |a| <= j {
        assert a[i] in a && b[j - |a|] in b;
      }
    }
  }

  lemma {:induction false} FilteredNames(rows: seq<Row>, invalid: Pairs)
    ensures Subsequence(Names(FilterRows(rows, invalid)), Names(rows))
  {
    if rows != [] {
      var n := |rows| - 1;
      FilteredNames(rows[..n], invalid);
      var kept := FilterRows(rows[..n], invalid);
      assert Names(rows)[..|Names(rows)| - 1] == Names(rows[..n]);
      if PrunedRow(rows[n], invalid).slugs != map[] {
        assert (kept + [PrunedRow(rows[n], invalid)])[..|kept|] == kept;
        assert Names(FilterRows(rows, invalid)) == Names(kept) + [rows[n].name];
        assert (Names(kept) + [rows[n].name])[..|Names(kept)|] == Names(kept);
      }
    }
  }

  lemma FilteredRowsKeepTheRest(rows: seq<Row>, invalid: Pairs)
    ensures forall row | row in FilterRows(rows, invalid) :: row.slugs != map[] && exists o | o in rows ::
              o.name == row.name && o.rest == row.rest
  {
    var kept := FilterRows(rows, invalid);
    forall row | row in kept
      ensures row.slugs != map[] && exists o | o in rows :: o.name == row.name && o.rest == row.rest
    {
      var k :| 0 <= k < |kept| && kept[k] == row;
      var i := FilteredRowsAreOld(rows, invalid, k);
      assert rows[i] in rows;
    }
  }

  /** A filtered catalog is empty exactly when every slug belongs to an invalid pair. */
  lemma SomethingIsLeft(rows: seq<Row>, invalid: Pairs)
    ensures FilterRows(rows, invalid) != []
            <==> exists name, p, slug :: Lists(rows, name, p, slug) && (p, slug) !in invalid
  {
    var kept := FilterRows(rows, invalid);
    if kept != [] {
      var i := FilteredRowsAreOld(rows, invalid, 0);
      var p :| p in kept[0].slugs;
      assert kept[0] in kept && Lists(kept, kept[0].name, p, kept[0].slugs[p]);
      FilteredSlugs(rows, invalid, kept[0].name, p, kept[0].slugs[p]);
    }
    if name, p, slug :| Lists(rows, name, p, slug) && (p, slug) !in invalid {
      FilteredSlugs(rows, invalid, name, p, slug);
    }
  }

  /** Pruning refuses to return exactly when the text is no catalog, or one of which nothing would be left. */
  lemma PruningRefusesWhen(layout: Layout, raw: string, invalid: Pairs)
    requires invalid != {}
    ensures Pruned(layout, raw, invalid).None? <==>
            var rows := ParseCatalog(layout, raw);
            rows.None?
            || (rows.value != [] && forall name, p, slug | Lists(rows.value, name, p, slug) :: (p, slug) in invalid)
  {
    PruningReturnsWhen(layout, raw, invalid);
    if ParseCatalog(layout, raw).Some? {
      SomethingIsLeft(ParseCatalog(layout, raw).value, invalid);
    }
  }

  /** Whenever pruning by some pairs returns, the catalog it returns lost those pairs, and nothing but those pairs. */
  lemma PruningRemovesExactlyTheInvalid(layout: Layout, raw: string, invalid: Pairs)
    requires invalid != {} && Pruned(layout, raw, invalid).Some?
    ensures var (updated, removed) := Pruned(layout, raw, invalid).value;
            && ParseCatalog(layout, raw).Some? && ParseCatalog(layout, updated).Some?
            && OnlyInvalidAreGone(ParseCatalog(layout, raw).value, ParseCatalog(layout, updated).value, removed,
                                  invalid)
  {
    PruningMeansFiltering(layout, raw, invalid);
    var rows := ParseCatalog(layout, raw).value;
    FilteringIsExact(rows, invalid);
  }

  lemma FilteringIsExact(rows: seq<Row>, invalid: Pairs)
    requires DifferentNames(rows)
    ensures OnlyInvalidAreGone(rows, FilterRows(rows, invalid), Removals(rows, invalid), invalid)
  {
    forall name, p, slug
      ensures Lists(FilterRows(rows, invalid), name, p, slug)
              <==> Lists(rows, name, p, slug) && (p, slug) !in invalid
      ensures Removal(name, p, slug) in Removals(rows, invalid)
              <==> Lists(rows, name, p, slug) && (p, slug) in invalid
    {
      FilteredSlugs(rows, invalid, name, p, slug);
      RemovalsAre(rows, invalid, Removal(name, p, slug));
    }
    RemovalsAreDifferent(rows, invalid);
    FilteredNames(rows, invalid);
    FilteredRowsKeepTheRest(rows, invalid);
  }
}
