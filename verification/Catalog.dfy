/**
 Server catalogs.  The baker normalises a catalog, replacing its manifest record by a
 placeholder, and prints a copy with the new manifest in the placeholder's place.
 Rebaking reads such a printed catalog again.
 */
module Catalog {
  import opened Bytes
  import opened Seqs
  import opened Text

  const PLACEHOLDER := "<tes3mp-content-manifest>"
  const MANIFEST := "manifest"
  const STARTING_ITEM := "starting_item"

  datatype Normal = Normal(lines: seq<string>, records: seq<seq<string>>)

  // ----- Normalising

  /** Neither blank nor a comment. */
  predicate Live(line: string) {
    Strip(line) != "" && Strip(line)[0] != '#'
  }

  function FieldsOf(line: string): seq<string> {
    Fields(Strip(line))
  }

  predicate Leads(line: string, word: string) {
    Live(line) && |FieldsOf(line)| > 0 && FieldsOf(line)[0] == word
  }

  function NormalLine(line: string): string {
    if Leads(line, MANIFEST) then MANIFEST + " " + PLACEHOLDER else RStrip(line)
  }

  function NormalLines(lines: seq<string>): (r: seq<string>)
    ensures |r| == |lines| && forall i :: 0 <= i < |lines| ==> r[i] == NormalLine(lines[i])
  {
    seq(|lines|, i requires 0 <= i < |lines| => NormalLine(lines[i]))
  }

  predicate IsManifest(line: string) {
    Leads(line, MANIFEST)
  }

  /** The record a line holds, if any. */
  function RecordOf(line: string): seq<seq<string>> {
    if Live(line) && !IsManifest(line) then [FieldsOf(line)] else []
  }

  function Records(lines: seq<string>): seq<seq<string>> {
    FlatMap(RecordOf, lines)
  }

  function ManifestCount(lines: seq<string>): nat {
    CountIf(IsManifest, lines)
  }

  predicate WellFormed(line: string) {
    IsManifest(line) ==> |FieldsOf(line)| == 2
  }

  predicate ManifestsWellFormed(lines: seq<string>) {
    forall i :: 0 <= i < |lines| ==> WellFormed(lines[i])
  }

  function Normalise(text: string, header: string): Option<Normal> {
    var lines := SplitLines(text);
    if lines == [] || lines[0] != header || !ManifestsWellFormed(lines) || ManifestCount(lines) != 1 then None
    else Some(Normal(NormalLines(lines), Records(lines[1..])))
  }

  /** `_catalog_lines` on decoded text. */
  method CatalogLines(text: string, header: string) returns (r: Option<Normal>)
    ensures r == Normalise(text, header)
  {
    var lines := SplitLines(text);
    if lines == [] || lines[0] != header {
      return None;
    }
    var manifestCount, normalized, records := 0, [], [];
    for number := 0 to |lines|
      invariant ReadUpTo(lines, number, manifestCount, normalized, records)
    {
      var raw := lines[number];
      var ok, line, record := ReadLine(raw);
      if !ok {
        assert !WellFormed(lines[number]);
        return None;
      }
      ReadOneMore(lines, number, manifestCount, normalized, records);
      if number != 0 {
        records := records + record;
      }
      if IsManifest(raw) {
        manifestCount := manifestCount + 1;
      }
      normalized := normalized + [line];
    }
    assert lines[..|lines|] == lines && lines[1..|lines|] == lines[1..];
    if manifestCount != 1 {
      return None;
    }
    return Some(Normal(normalized, records));
  }

  /** What the loop has established before a line. */
  predicate ReadUpTo(lines: seq<string>, n: nat, count: nat, normalized: seq<string>, records: seq<seq<string>>) {
    && n <= |lines|
    && ManifestsWellFormed(lines[..n])
    && count == ManifestCount(lines[..n])
    && normalized == NormalLines(lines[..n])
    && records == if n == 0 then [] else Records(lines[1..n])
  }

  lemma ReadOneMore(lines: seq<string>, n: nat, count: nat, normalized: seq<string>, records: seq<seq<string>>)
    requires n < |lines| && ReadUpTo(lines, n, count, normalized, records) && WellFormed(lines[n])
    ensures ReadUpTo(lines, n + 1, count + if IsManifest(lines[n]) then 1 else 0,
                     normalized + [NormalLine(lines[n])], if n == 0 then records else records + RecordOf(lines[n]))
  {
    assert lines[..n + 1] == lines[..n] + [lines[n]];
    CountOneMore(lines[..n], lines[n]);
    if n == 0 {
      assert lines[1..1] == [];
    } else {
      RecordsOneMore(lines, n);
    }
  }

  lemma CountOneMore(lines: seq<string>, raw: string)
    ensures ManifestCount(lines + [raw]) == ManifestCount(lines) + if IsManifest(raw) then 1 else 0
  {
    CountIfConcat(IsManifest, lines, [raw]);
    CountIfOne(IsManifest, raw);
  }

  lemma RecordsOneMore(lines: seq<string>, n: nat)
    requires 0 < n < |lines|
    ensures Records(lines[1..n + 1]) == Records(lines[1..n]) + RecordOf(lines[n])
  {
    SliceOneMore(lines, 1, n);
    FlatMapAppend(RecordOf, lines[1..n], lines[n]);
  }

  /** The body of the loop for one line: its normal form and its record. */
  method ReadLine(raw: string) returns (ok: bool, line: string, record: seq<seq<string>>)
    ensures ok <==> WellFormed(raw)
    ensures ok ==> line == NormalLine(raw) && record == RecordOf(raw)
  {
    ok, line, record := true, RStrip(raw), [];
    var stripped := Strip(raw);
    if stripped != "" && stripped[0] != '#' {
      StrippedHasWord(raw);
      var fields := Fields(stripped);
      if fields[0] == MANIFEST {
        ok := |fields| == 2;
        line := MANIFEST + " " + PLACEHOLDER;
      } else {
        record := [fields];
      }
    }
  }

  lemma StrippedHasWord(line: string)
    requires Live(line)
    ensures |FieldsOf(line)| > 0
  {
    StripFacts(line);
    FirstWord(Strip(line), "");
  }

  lemma HeaderLine(header: string)
    requires IsToken(header) && header != MANIFEST
    ensures RStrip(header) == header && !Leads(header, MANIFEST) && NormalLine(header) == header && NoBreaks(header)
  {
    TrimmedStays(header);
    FieldsOfSentence([header]);
  }

  // ----- What a catalog says

  /** Blank lines and comments give no record and are kept as they are, but for trailing space. */
  lemma CommentGivesNothing(line: string)
    requires Strip(line) == "" || Strip(line)[0] == '#'
    ensures RecordOf(line) == [] && !IsManifest(line) && WellFormed(line) && NormalLine(line) == RStrip(line)
  {
  }

  /** A line that holds a record. */
  predicate HoldsRecord(line: string) {
    var stripped := Strip(line);
    stripped != "" && stripped[0] != '#' && Fields(stripped) != [] && Fields(stripped)[0] != MANIFEST
  }

  lemma RecordOfLine(line: string)
    ensures RecordOf(line) == if HoldsRecord(line) then [Fields(Strip(line))] else []
  {
    if Live(line) {
      StrippedHasWord(line);
    }
  }

  lemma LinePicks(line: string)
    ensures PicksOne(RecordOf, HoldsRecord, FieldsOf, line)
  {
    RecordOfLine(line);
  }

  /** The records are the words of exactly the lines that hold one, in order. */
  lemma RecordsPick(lines: seq<string>)
    ensures Picked(lines, HoldsRecord, FieldsOf, Records(lines))
  {
    forall i | 0 <= i < |lines|
      ensures PicksOne(RecordOf, HoldsRecord, FieldsOf, lines[i])
    {
      LinePicks(lines[i]);
    }
    FlatMapPicks(lines, RecordOf, HoldsRecord, FieldsOf);
  }

  // ----- Normal form

  /** Lines that normalising leaves as they are. */
  ghost predicate Clean(lines: seq<string>) {
    forall i :: 0 <= i < |lines| ==> NoBreaks(lines[i]) && NormalLine(lines[i]) == lines[i]
  }

  ghost predicate IsNormal(n: Normal, header: string) {
    && n.lines != [] && n.lines[0] == header
    && Clean(n.lines)
    && ManifestCount(n.lines) == 1
    && n.records == Records(n.lines[1..])
  }

  /** The manifest record with any token in it. */
  lemma ManifestLine(m: string)
    requires IsToken(m)
    ensures var line := MANIFEST + " " + m;
            NoBreaks(line) && Live(line) && FieldsOf(line) == [MANIFEST, m] && IsManifest(line)
            && NormalLine(line) == MANIFEST + " " + PLACEHOLDER
  {
    var words := [MANIFEST, m];
    assert forall i :: 0 <= i < |MANIFEST| ==> !IsSpace(MANIFEST[i]);
    assert words[1..] == [m] && Sentence(words) == MANIFEST + " " + m;
    FieldsOfSentence(words);
    SentenceIsTrimmed(words);
    TrimmedStays(Sentence(words));
    assert Sentence(words)[0] == MANIFEST[0] == 'm';
  }

  lemma PlaceholderIsToken()
    ensures IsToken(PLACEHOLDER)
    ensures forall i :: 0 <= i < |PLACEHOLDER| ==> PLACEHOLDER[i] != '\n'
  {
    assert forall i :: 0 <= i < |PLACEHOLDER| ==> !IsSpace(PLACEHOLDER[i]);
  }

  lemma NormalLineIsFixed(line: string)
    requires NoBreaks(line)
    ensures NoBreaks(NormalLine(line)) && NormalLine(NormalLine(line)) == NormalLine(line)
    ensures Live(NormalLine(line)) <==> Live(line)
    ensures Leads(NormalLine(line), MANIFEST) <==> Leads(line, MANIFEST)
    ensures !Leads(line, MANIFEST) ==> FieldsOf(NormalLine(line)) == FieldsOf(line)
  {
    RStripTwice(line);
    RStripFacts(line);
    if Leads(line, MANIFEST) {
      PlaceholderIsToken();
      ManifestLine(PLACEHOLDER);
    }
  }

  lemma RecordIsFixed(line: string)
    requires NoBreaks(line)
    ensures RecordOf(NormalLine(line)) == RecordOf(line) && IsManifest(NormalLine(line)) == IsManifest(line)
  {
    NormalLineIsFixed(line);
  }

  lemma NormalLinesAreClean(lines: seq<string>)
    requires forall i :: 0 <= i < |lines| ==> NoBreaks(lines[i])
    ensures Clean(NormalLines(lines))
    ensures ManifestCount(NormalLines(lines)) == ManifestCount(lines)
    ensures Records(NormalLines(lines)) == Records(lines)
  {
    var normal := NormalLines(lines);
    forall i | 0 <= i < |lines|
      ensures NoBreaks(normal[i]) && NormalLine(normal[i]) == normal[i]
      ensures RecordOf(normal[i]) == RecordOf(lines[i]) && IsManifest(normal[i]) == IsManifest(lines[i])
    {
      NormalLineIsFixed(lines[i]);
      RecordIsFixed(lines[i]);
    }
    CountIfSame(IsManifest, normal, lines);
    FlatMapSame(RecordOf, normal, lines);
  }

  /** What normalising produces is in normal form. */
  lemma NormaliseIsNormal(text: string, header: string)
    requires IsToken(header) && header != MANIFEST && Normalise(text, header).Some?
    ensures IsNormal(Normalise(text, header).value, header)
  {
    var lines := SplitLines(text);
    LinesHaveNoBreaks(text, "");
    NormalLinesAreClean(lines);
    NormalLinesAreClean(lines[1..]);
    HeaderLine(header);
    assert NormalLines(lines)[1..] == NormalLines(lines[1..]);
  }

  // ----- Printing with a manifest

  function PrintLine(line: string, m: string): string {
    if IsManifest(line) then MANIFEST + " " + m else line
  }

  function Printed(lines: seq<string>, m: string): (r: seq<string>)
    ensures |r| == |lines| && forall i :: 0 <= i < |lines| ==> r[i] == PrintLine(lines[i], m)
  {
    seq(|lines|, i requires 0 <= i < |lines| => PrintLine(lines[i], m))
  }

  lemma {:induction false} MarkerAfter(a: string, m: string)
    requires forall i :: 0 <= i < |a| ==> a[i] != '<'
    ensures Count(a + PLACEHOLDER, PLACEHOLDER) == 1
    ensures Replace(a + PLACEHOLDER, PLACEHOLDER, m) == a + m
  {
    var s := a + PLACEHOLDER;
    if a == "" {
      assert s == PLACEHOLDER && s[|PLACEHOLDER|..] == "";
      assert m + "" == m && a + m == m;
    } else {
      MarkerAfter(a[1..], m);
      assert s[1..] == a[1..] + PLACEHOLDER;
      assert s[0] != PLACEHOLDER[0];
      assert !StartsWith(s, PLACEHOLDER);
      assert [a[0]] + (a[1..] + m) == a + m;
    }
  }

  lemma MarkerInManifestLine(m: string)
    ensures Count(MANIFEST + " " + PLACEHOLDER, PLACEHOLDER) == 1
    ensures Replace(MANIFEST + " " + PLACEHOLDER, PLACEHOLDER, m) == MANIFEST + " " + m
  {
    MarkerAfter(MANIFEST + " ", m);
  }

  lemma JoinMarkers(lines: seq<string>, m: string)
    requires lines != []
    ensures Count(Join(lines), PLACEHOLDER) == Count(lines[0], PLACEHOLDER) + Count(Join(lines[1..]), PLACEHOLDER)
    ensures Replace(Join(lines), PLACEHOLDER, m) ==
            Replace(lines[0], PLACEHOLDER, m) + "\n" + Replace(Join(lines[1..]), PLACEHOLDER, m)
  {
    PlaceholderIsToken();
    var rest := Join(lines[1..]);
    var tail := "\n" + rest;
    assert Join(lines) == lines[0] + tail;
    CountWithinLine(lines[0], tail, PLACEHOLDER);
    ReplaceWithinLine(lines[0], tail, PLACEHOLDER, m);
    MarkerAtBreak(rest, PLACEHOLDER, m);
  }

  lemma {:induction false} ManifestsAreMarked(lines: seq<string>)
    requires Clean(lines)
    ensures ManifestCount(lines) <= Count(Join(lines), PLACEHOLDER)
  {
    if lines != [] {
      ManifestsAreMarked(lines[1..]);
      JoinMarkers(lines, "");
      MarkerInManifestLine("");
    }
  }

  /** With no stray placeholder, replacing it prints the manifest record and nothing else. */
  lemma {:induction false} ReplacePrints(lines: seq<string>, m: string)
    requires Clean(lines) && Count(Join(lines), PLACEHOLDER) == ManifestCount(lines)
    ensures Replace(Join(lines), PLACEHOLDER, m) == Join(Printed(lines, m))
  {
    if lines != [] {
      JoinMarkers(lines, m);
      MarkerInManifestLine(m);
      ManifestsAreMarked(lines[1..]);
      ReplacePrints(lines[1..], m);
      if !IsManifest(lines[0]) {
        NothingToReplace(lines[0], PLACEHOLDER, m);
      }
      assert Printed(lines, m)[1..] == Printed(lines[1..], m);
    }
  }

  lemma PrintedLine(line: string, m: string)
    requires NoBreaks(line) && NormalLine(line) == line && IsToken(m)
    ensures var printed := PrintLine(line, m);
            && NoBreaks(printed) && WellFormed(printed) && IsManifest(printed) == IsManifest(line)
            && NormalLine(printed) == line && RecordOf(printed) == RecordOf(line)
  {
    ManifestLine(m);
  }

  lemma PrintedNormalises(lines: seq<string>, m: string)
    requires Clean(lines) && IsToken(m)
    ensures var printed := Printed(lines, m);
            && (forall i :: 0 <= i < |printed| ==> NoBreaks(printed[i]))
            && ManifestsWellFormed(printed)
            && ManifestCount(printed) == ManifestCount(lines)
            && NormalLines(printed) == lines
            && Records(printed) == Records(lines)
  {
    var printed := Printed(lines, m);
    forall i | 0 <= i < |lines|
      ensures NoBreaks(printed[i]) && WellFormed(printed[i]) && IsManifest(printed[i]) == IsManifest(lines[i])
      ensures NormalLine(printed[i]) == lines[i] && RecordOf(printed[i]) == RecordOf(lines[i])
    {
      PrintedLine(lines[i], m);
    }
    CountIfSame(IsManifest, printed, lines);
    FlatMapSame(RecordOf, printed, lines);
  }

  /** `_replace_manifest`: refused unless the placeholder occurs exactly once. */
  function ReplaceManifest(n: Normal, m: string): Option<string> {
    if Count(Join(n.lines), PLACEHOLDER) != 1 then None else Some(Replace(Join(n.lines), PLACEHOLDER, m))
  }

  /** Rebake fixpoint: whatever manifest a normalised catalog was printed with, reading the
      print back gives the same normalised lines and records. */
  lemma RebakeFixpoint(n: Normal, header: string, m: string)
    requires IsToken(header) && header != MANIFEST && IsNormal(n, header) && IsToken(m)
    requires ReplaceManifest(n, m).Some?
    ensures Normalise(ReplaceManifest(n, m).value, header) == Some(n)
  {
    ReplacePrints(n.lines, m);
    PrintedNormalises(n.lines, m);
    PrintedNormalises(n.lines[1..], m);
    HeaderLine(header);
    var printed := Printed(n.lines, m);
    SplitOfJoin(printed);
    assert printed[1..] == Printed(n.lines[1..], m);
  }

  /** So the printed manifest never influences a rebake: any two prints of a catalog read
      back alike, and as the source did. */
  lemma OldManifestHasNoInfluence(text: string, header: string, m: string, m': string)
    requires IsToken(header) && header != MANIFEST && IsToken(m) && IsToken(m')
    requires Normalise(text, header).Some? && ReplaceManifest(Normalise(text, header).value, m).Some?
    ensures var n := Normalise(text, header).value;
            Normalise(ReplaceManifest(n, m).value, header) == Normalise(ReplaceManifest(n, m').value, header)
              == Normalise(text, header)
  {
    NormaliseIsNormal(text, header);
    RebakeFixpoint(Normalise(text, header).value, header, m);
    RebakeFixpoint(Normalise(text, header).value, header, m');
  }
}
