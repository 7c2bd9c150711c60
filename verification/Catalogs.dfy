/**
 The company catalog as text: entries that start with their name, and one line
 per provider. Scalars and name normalization are parameters.
 */
module Catalogs {
  import opened Prelude
  import opened TextLines

  datatype Provider = Greenhouse | Lever | Ashby

  /** How YAML reads the rest of a line, and how names are compared. */
  datatype Layout = Layout(scalar: string -> string, normalize: string -> string)

  const ENTRY_START: string := "  - canonical_name:"
  const COMPANIES: string := "companies:"

  predicate StartsWith(line: string, prefix: string) {
    |prefix| <= |line| && line[..|prefix|] == prefix
  }

  function ProviderPrefix(p: Provider): string {
    match p
    case Greenhouse => "      greenhouse:"
    case Lever => "      lever:"
    case Ashby => "      ashby:"
  }

  predicate IsStart(line: string) {
    StartsWith(line, ENTRY_START)
  }

  function ProviderOf(line: string): (p: Option<Provider>)
    ensures p.Some? ==> StartsWith(line, ProviderPrefix(p.value))
  {
    if StartsWith(line, ProviderPrefix(Greenhouse)) then Some(Greenhouse)
    else if StartsWith(line, ProviderPrefix(Lever)) then Some(Lever)
    else if StartsWith(line, ProviderPrefix(Ashby)) then Some(Ashby)
    else None
  }

  /** rest holds the lines of the entry that are about something else. */
  datatype Row = Row(name: string, slugs: map<Provider, string>, rest: seq<string>)

  // ----- Entries

  /** The lines before the first entry. */
  function HeaderOf(lines: seq<string>): seq<string> {
    if lines == [] then []
    else
      var n := |lines| - 1;
      if IsStart(lines[n]) || EntriesOf(lines[..n]) != [] then HeaderOf(lines[..n])
      else HeaderOf(lines[..n]) + [lines[n]]
  }

  /** Each entry runs from its start to the next one. */
  function EntriesOf(lines: seq<string>): seq<seq<string>> {
    if lines == [] then []
    else
      var n := |lines| - 1;
      var entries := EntriesOf(lines[..n]);
      if IsStart(lines[n]) then entries + [[lines[n]]]
      else if entries == [] then []
      else entries[..|entries| - 1] + [entries[|entries| - 1] + [lines[n]]]
  }

  function Concat(parts: seq<seq<string>>): seq<string> {
    if parts == [] then [] else Concat(parts[..|parts| - 1]) + parts[|parts| - 1]
  }

  predicate IsEntry(entry: seq<string>) {
    entry != [] && IsStart(entry[0]) && forall k | 0 < k < |entry| :: !IsStart(entry[k])
  }

  predicate AreEntries(entries: seq<seq<string>>) {
    forall i | 0 <= i < |entries| :: IsEntry(entries[i])
  }

  lemma {:induction false} ConcatAppend(parts: seq<seq<string>>, part: seq<string>)
    ensures Concat(parts + [part]) == Concat(parts) + part
  {
    assert (parts + [part])[..|parts|] == parts;
  }

  /** Entries start where an entry starts and nowhere else; the header holds no start. */
  lemma {:induction false} EntriesAreEntries(lines: seq<string>)
    ensures AreEntries(EntriesOf(lines))
    ensures forall k | 0 <= k < |HeaderOf(lines)| :: !IsStart(HeaderOf(lines)[k])
  {
    if lines != [] {
      EntriesAreEntries(lines[..|lines| - 1]);
    }
  }

  lemma LastEntryGrows(entries: seq<seq<string>>, line: string)
    requires entries != []
    ensures var m := |entries| - 1;
            Concat(entries[..m] + [entries[m] + [line]]) == Concat(entries) + [line]
  {
    var m := |entries| - 1;
    ConcatAppend(entries[..m], entries[m] + [line]);
  }

  /** The header and the entries are all the lines. */
  lemma {:induction false} Decompose(lines: seq<string>)
    ensures lines == HeaderOf(lines) + Concat(EntriesOf(lines))
  {
    if lines != [] {
      var n := |lines| - 1;
      var before, last := lines[..n], lines[n];
      assert lines == before + [last];
      Decompose(before);
      var header, entries := HeaderOf(before), EntriesOf(before);
      if IsStart(last) {
        ConcatAppend(entries, [last]);
        assert before + [last] == header + (Concat(entries) + [last]);
      } else if entries == [] {
        assert before + [last] == (header + [last]) + [];
      } else {
        LastEntryGrows(entries, last);
        assert before + [last] == header + (Concat(entries) + [last]);
      }
    }
  }

  lemma {:induction false} HeaderAlone(header: seq<string>)
    requires forall k | 0 <= k < |header| :: !IsStart(header[k])
    ensures HeaderOf(header) == header && EntriesOf(header) == []
  {
    if header != [] {
      HeaderAlone(header[..|header| - 1]);
    }
  }

  lemma {:induction false} EntryAppended(lines: seq<string>, entry: seq<string>)
    requires IsEntry(entry)
    ensures EntriesOf(lines + entry) == EntriesOf(lines) + [entry] && HeaderOf(lines + entry) == HeaderOf(lines)
    decreases |entry|
  {
    var n := |entry| - 1;
    assert (lines + entry)[..|lines + entry| - 1] == lines + entry[..n];
    if n == 0 {
      assert lines + entry[..n] == lines;
      assert entry == [entry[0]];
    } else {
      EntryAppended(lines, entry[..n]);
      assert entry == entry[..n] + [entry[n]];
    }
  }

  lemma Regroup<T>(a: seq<T>, b: seq<T>, c: seq<T>)
    ensures a + (b + c) == (a + b) + c
  {
  }

  lemma FrontAndLast<T>(s: seq<T>)
    requires s != []
    ensures s == s[..|s| - 1] + [s[|s| - 1]]
  {
  }

  /** A header and entries, put together, are read back as they are. */
  lemma {:induction false} Recompose(header: seq<string>, entries: seq<seq<string>>)
    requires forall k | 0 <= k < |header| :: !IsStart(header[k])
    requires AreEntries(entries)
    ensures EntriesOf(header + Concat(entries)) == entries && HeaderOf(header + Concat(entries)) == header
  {
    if entries == [] {
      HeaderAlone(header);
      assert header + Concat(entries) == header;
    } else {
      var n := |entries| - 1;
      Recompose(header, entries[..n]);
      EntryAppended(header + Concat(entries[..n]), entries[n]);
      Regroup(header, Concat(entries[..n]), entries[n]);
      FrontAndLast(entries);
    }
  }

  // ----- Rows

  /** The provider slugs of an entry's body: the last line of a provider counts, an empty one clears it. */
  function SlugsOf(layout: Layout, body: seq<string>): map<Provider, string> {
    if body == [] then map[]
    else
      var n := |body| - 1;
      var slugs, p := SlugsOf(layout, body[..n]), ProviderOf(body[n]);
      if p.None? then slugs
      else
        var slug := layout.scalar(body[n][|ProviderPrefix(p.value)|..]);
        if slug == "" then slugs - {p.value} else slugs[p.value := slug]
  }

  /** Line k is the last one about the provider, and gives it this slug. */
  ghost predicate LastLineGives(layout: Layout, body: seq<string>, p: Provider, slug: string, k: nat) {
    && k < |body| && ProviderOf(body[k]) == Some(p)
    && (forall later | k < later < |body| :: ProviderOf(body[later]) != Some(p))
    && slug == layout.scalar(body[k][|ProviderPrefix(p)|..])
  }

  /** The last line of a provider counts, unless it is empty. */
  lemma {:induction false} SlugsAreLastLines(layout: Layout, body: seq<string>, p: Provider, slug: string)
    ensures p in SlugsOf(layout, body) && SlugsOf(layout, body)[p] == slug
            <==> slug != "" && exists k: nat :: LastLineGives(layout, body, p, slug, k)
  {
    if body != [] {
      var n := |body| - 1;
      SlugsAreLastLines(layout, body[..n], p, slug);
      if ProviderOf(body[n]) == Some(p) {
        assert LastLineGives(layout, body, p, layout.scalar(body[n][|ProviderPrefix(p)|..]), n);
      } else {
        forall k: nat
          ensures LastLineGives(layout, body[..n], p, slug, k) <==> LastLineGives(layout, body, p, slug, k)
        {
          LastLineStays(layout, body, p, slug, k);
        }
      }
    }
  }

  lemma LastLineStays(layout: Layout, body: seq<string>, p: Provider, slug: string, k: nat)
    requires body != [] && ProviderOf(body[|body| - 1]) != Some(p)
    ensures LastLineGives(layout, body[..|body| - 1], p, slug, k) <==> LastLineGives(layout, body, p, slug, k)
  {
    var n := |body| - 1;
    assert forall i | 0 <= i < n :: body[..n][i] == body[i];
  }

  /** The other lines of an entry's body. */
  function RestOf(body: seq<string>): seq<string> {
    if body == [] then []
    else
      var n := |body| - 1;
      if ProviderOf(body[n]).None? then RestOf(body[..n]) + [body[n]] else RestOf(body[..n])
  }

  function RowOf(layout: Layout, entry: seq<string>): Row
    requires IsEntry(entry)
  {
    Row(layout.scalar(entry[0][|ENTRY_START|..]), SlugsOf(layout, entry[1..]), RestOf(entry[1..]))
  }

  function RowsOf(layout: Layout, entries: seq<seq<string>>): seq<Row>
    requires AreEntries(entries)
  {
    seq(|entries|, i requires 0 <= i < |entries| => RowOf(layout, entries[i]))
  }

  /** The value of the companies key; None when the header has none. */
  function CompaniesValue(layout: Layout, header: seq<string>): Option<string> {
    if header == [] then None
    else
      var n := |header| - 1;
      if StartsWith(header[n], COMPANIES) then Some(layout.scalar(header[n][|COMPANIES|..]))
      else CompaniesValue(layout, header[..n])
  }

  /** Every row has a provider; names are unique, also when normalized; a list is announced as one. */
  predicate ValidCatalog(layout: Layout, header: seq<string>, rows: seq<Row>) {
    && CompaniesValue(layout, header) == Some(if rows == [] then "[]" else "")
    && (forall i | 0 <= i < |rows| :: rows[i].slugs != map[])
    && (forall i, j | 0 <= i < j < |rows| ::
          rows[i].name != rows[j].name && layout.normalize(rows[i].name) != layout.normalize(rows[j].name))
  }

  /** None is the ValueError. */
  function ParseLines(layout: Layout, lines: seq<string>): Option<seq<Row>> {
    EntriesAreEntries(lines);
    var rows := RowsOf(layout, EntriesOf(lines));
    if ValidCatalog(layout, HeaderOf(lines), rows) then Some(rows) else None
  }

  function ParseCatalog(layout: Layout, raw: string): Option<seq<Row>> {
    ParseLines(layout, SplitLines(raw))
  }
}
