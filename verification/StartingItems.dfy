/**
 Starting items.  A derived bake owns the starting inventory of the character catalog: it
 strips the `starting_item` lines and records it finds and appends those of its recipe.
 */
module StartingItems {
  import opened Bytes
  import opened Seqs
  import opened Text
  import opened Catalog

  const ITEM_PREFIX := STARTING_ITEM + " "

  /** The test the baker applies to lines. */
  predicate IsItemLine(line: string) {
    StartsWith(Strip(line), ITEM_PREFIX)
  }

  predicate KeptLine(line: string) {
    !IsItemLine(line)
  }

  /** The test the baker applies to records. */
  predicate KeptRecord(record: seq<string>) {
    record == [] || record[0] != STARTING_ITEM
  }

  predicate AdditionOk(a: seq<string>) {
    |a| >= 2 && a[0] == STARTING_ITEM && forall i :: 0 <= i < |a| ==> IsToken(a[i])
  }

  predicate AdditionsOk(additions: seq<seq<string>>) {
    forall i :: 0 <= i < |additions| ==> AdditionOk(additions[i])
  }

  function ItemLines(additions: seq<seq<string>>): (r: seq<string>)
    ensures |r| == |additions| && forall i :: 0 <= i < |additions| ==> r[i] == Sentence(additions[i])
  {
    seq(|additions|, i requires 0 <= i < |additions| => Sentence(additions[i]))
  }

  /** The rewrite of the character catalog in `derive_catalogs`. */
  function Rewrite(n: Normal, additions: seq<seq<string>>): Normal {
    Normal(Filter(KeptLine, n.lines) + ItemLines(additions), Filter(KeptRecord, n.records) + additions)
  }

  /** The rewrite as the program performs it, line by line and record by record. */
  method RewriteItems(n: Normal, additions: seq<seq<string>>) returns (r: Normal)
    ensures r == Rewrite(n, additions)
  {
    var lines := FilterLoop(KeptLine, n.lines);
    var records := FilterLoop(KeptRecord, n.records);
    return Normal(lines + ItemLines(additions), records + additions);
  }

  // ----- Lines of additions

  lemma AdditionLine(a: seq<string>)
    requires AdditionOk(a)
    ensures var line := Sentence(a);
            && NoBreaks(line) && NormalLine(line) == line && !IsManifest(line)
            && IsItemLine(line) && RecordOf(line) == [a]
  {
    FieldsOfSentence(a);
    SentenceIsTrimmed(a);
    var line := Sentence(a);
    TrimmedStays(line);
    assert line == a[0] + " " + Sentence(a[1..]);
    assert line[..|ITEM_PREFIX|] == ITEM_PREFIX;
    assert line[0] == STARTING_ITEM[0] == 's';
  }

  lemma {:induction false} AdditionRecords(additions: seq<seq<string>>)
    requires AdditionsOk(additions)
    ensures Records(ItemLines(additions)) == additions
    ensures ManifestCount(ItemLines(additions)) == 0
  {
    if additions != [] {
      AdditionLine(additions[0]);
      AdditionRecords(additions[1..]);
      assert ItemLines(additions)[1..] == ItemLines(additions[1..]);
    }
  }

  /** No line is both a manifest record and a starting item. */
  lemma ManifestIsNotItem(line: string)
    requires NormalLine(line) == line && IsManifest(line)
    ensures KeptLine(line)
  {
    PlaceholderIsToken();
    ManifestLine(PLACEHOLDER);
    SentenceIsTrimmed([MANIFEST, PLACEHOLDER]);
    assert [MANIFEST, PLACEHOLDER][1..] == [PLACEHOLDER];
    assert Sentence([MANIFEST, PLACEHOLDER]) == line;
    TrimmedStays(line);
    assert line[0] == 'm' && ITEM_PREFIX[0] == 's';
  }

  lemma HeaderIsNotItem(header: string)
    requires IsToken(header)
    ensures KeptLine(header)
  {
    TrimmedStays(header);
    if |header| >= |ITEM_PREFIX| {
      assert header[..|ITEM_PREFIX|][|ITEM_PREFIX| - 1] == header[|ITEM_PREFIX| - 1] != ' ';
    }
  }

  // ----- What stripping keeps

  lemma {:induction false} StrippedManifests(lines: seq<string>)
    requires Clean(lines)
    ensures ManifestCount(Filter(KeptLine, lines)) == ManifestCount(lines)
  {
    if lines != [] {
      StrippedManifests(lines[1..]);
      var kept := if KeptLine(lines[0]) then [lines[0]] else [];
      CountIfConcat(IsManifest, kept, Filter(KeptLine, lines[1..]));
      CountIfOne(IsManifest, lines[0]);
      assert NormalLine(lines[0]) == lines[0];
      if IsManifest(lines[0]) {
        ManifestIsNotItem(lines[0]);
      }
    }
  }

  /** A line that starts with a word and then white space has that word first. */
  lemma LeadingWord(line: string, word: string, rest: string)
    requires IsToken(word) && word[0] != '#' && Strip(line) == word + rest
    requires rest == "" || IsSpace(rest[0])
    ensures Leads(line, word)
  {
    OneWord(word, "", rest);
    assert "" + word == word;
  }

  lemma WordAndSpace(s: string, word: string)
    requires StartsWith(s, word + " ")
    ensures s == word + s[|word|..] && s[|word|..] != "" && s[|word|..][0] == ' '
  {
    var prefix := word + " ";
    assert s == s[..|prefix|] + s[|prefix|..];
    assert s[..|prefix|][..|word|] == word;
  }

  lemma StartingItemIsWord()
    ensures IsToken(STARTING_ITEM) && STARTING_ITEM[0] != '#' && STARTING_ITEM != MANIFEST
  {
    assert forall i :: 0 <= i < |STARTING_ITEM| ==> !IsSpace(STARTING_ITEM[i]);
    assert STARTING_ITEM[0] == 's' && MANIFEST[0] == 'm';
  }

  /** An item line's record is an item record, so filtering records covers stripping lines. */
  lemma ItemLineRecord(line: string)
    requires IsItemLine(line)
    ensures Leads(line, STARTING_ITEM) && RecordOf(line) == [FieldsOf(line)]
  {
    StartingItemIsWord();
    WordAndSpace(Strip(line), STARTING_ITEM);
    LeadingWord(line, STARTING_ITEM, Strip(line)[|STARTING_ITEM|..]);
  }

  lemma {:induction false} StrippedRecords(lines: seq<string>)
    ensures Filter(KeptRecord, Records(Filter(KeptLine, lines))) == Filter(KeptRecord, Records(lines))
  {
    if lines != [] {
      StrippedRecords(lines[1..]);
      var line := lines[0];
      var kept, rest := Filter(KeptLine, lines[1..]), Records(lines[1..]);
      FilterConcat(KeptRecord, RecordOf(line), rest);
      if KeptLine(line) {
        FlatMapConcat(RecordOf, [line], kept);
        FlatMapOne(RecordOf, line);
        FilterConcat(KeptRecord, RecordOf(line), Records(kept));
      } else {
        ItemLineRecord(line);
        FilterNone(KeptRecord, RecordOf(line));
        assert [] + kept == kept;
      }
    }
  }

  // ----- Rebaking

  lemma RewriteIsClean(n: Normal, additions: seq<seq<string>>)
    requires Clean(n.lines) && AdditionsOk(additions)
    ensures Clean(Rewrite(n, additions).lines)
  {
    var lines, kept := Rewrite(n, additions).lines, Filter(KeptLine, n.lines);
    FilterKeeps(KeptLine, n.lines);
    forall i | 0 <= i < |lines|
      ensures NoBreaks(lines[i]) && NormalLine(lines[i]) == lines[i]
    {
      if i < |kept| {
        assert lines[i] == kept[i] && kept[i] in n.lines;
      } else {
        AdditionLine(additions[i - |kept|]);
      }
    }
  }

  lemma RewriteCounts(n: Normal, additions: seq<seq<string>>)
    requires Clean(n.lines) && AdditionsOk(additions)
    ensures ManifestCount(Rewrite(n, additions).lines) == ManifestCount(n.lines)
  {
    StrippedManifests(n.lines);
    AdditionRecords(additions);
    CountIfConcat(IsManifest, Filter(KeptLine, n.lines), ItemLines(additions));
  }

  lemma RewriteLines(n: Normal, header: string, additions: seq<seq<string>>)
    requires IsToken(header) && n.lines != [] && n.lines[0] == header
    ensures var lines := Rewrite(n, additions).lines;
            && lines != [] && lines[0] == header
            && lines[1..] == Filter(KeptLine, n.lines[1..]) + ItemLines(additions)
  {
    HeaderIsNotItem(header);
    FilterHead(KeptLine, n.lines, ItemLines(additions));
  }

  lemma RewriteRecords(kept: seq<string>, additions: seq<seq<string>>)
    requires AdditionsOk(additions)
    ensures Records(kept + ItemLines(additions)) == Records(kept) + additions
  {
    FlatMapConcat(RecordOf, kept, ItemLines(additions));
    AdditionRecords(additions);
  }

  /** The rewritten catalog, as its own lines say. */
  lemma RewriteShape(n: Normal, header: string, additions: seq<seq<string>>)
    requires IsToken(header) && n.lines != [] && n.lines[0] == header && AdditionsOk(additions)
    ensures var lines := Rewrite(n, additions).lines;
            && lines != [] && lines[0] == header
            && Records(lines[1..]) == Records(Filter(KeptLine, n.lines[1..])) + additions
  {
    RewriteLines(n, header, additions);
    RewriteRecords(Filter(KeptLine, n.lines[1..]), additions);
  }

  /** Reading back a printed rewrite: the same lines, with the records those lines hold. */
  lemma RereadRewrite(n: Normal, header: string, additions: seq<seq<string>>, m: string)
    requires IsToken(header) && header != MANIFEST && IsNormal(n, header) && AdditionsOk(additions) && IsToken(m)
    requires ReplaceManifest(Rewrite(n, additions), m).Some?
    ensures var r := Rewrite(n, additions);
            r.lines != []
            && Normalise(ReplaceManifest(r, m).value, header) == Some(Normal(r.lines, Records(r.lines[1..])))
  {
    RewriteIsClean(n, additions);
    RewriteCounts(n, additions);
    RewriteShape(n, header, additions);
    var r := Rewrite(n, additions);
    RebakeFixpoint(Normal(r.lines, Records(r.lines[1..])), header, m);
  }

  /** Old generated lines never influence a rebake: after any items were written and the
      print was read back, rewriting with items gives what rewriting the first catalog with
      them gives. */
  lemma OldItemsHaveNoInfluence(n: Normal, header: string, old_: seq<seq<string>>, m: string,
                                additions: seq<seq<string>>)
    requires IsToken(header) && header != MANIFEST && IsNormal(n, header) && AdditionsOk(old_) && IsToken(m)
    requires ReplaceManifest(Rewrite(n, old_), m).Some?
    ensures var reread := Normalise(ReplaceManifest(Rewrite(n, old_), m).value, header);
            reread.Some? && Rewrite(reread.value, additions) == Rewrite(n, additions)
  {
    RereadRewrite(n, header, old_, m);
    RewriteShape(n, header, old_);
    var items, body := ItemLines(old_), n.lines[1..];
    var kept := Filter(KeptLine, n.lines);
    FilterConcat(KeptLine, kept, items);
    FilterKeeps(KeptLine, n.lines);
    FilterAll(KeptLine, kept);
    ItemsAreStripped(old_);
    assert kept + [] == kept;
    var own := Records(Filter(KeptLine, body));
    FilterConcat(KeptRecord, own, old_);
    StrippedRecords(body);
    FilterNone(KeptRecord, old_);
    assert Filter(KeptRecord, own) + [] == Filter(KeptRecord, own);
  }

  /** Rebake fixpoint with starting items: stripping and re-appending the same items after
      reading back any print of the first result gives that result again. */
  lemma ItemsFixpoint(n: Normal, header: string, additions: seq<seq<string>>, m: string)
    requires IsToken(header) && header != MANIFEST && IsNormal(n, header) && AdditionsOk(additions) && IsToken(m)
    requires ReplaceManifest(Rewrite(n, additions), m).Some?
    ensures var r := Rewrite(n, additions);
            var reread := Normalise(ReplaceManifest(r, m).value, header);
            reread.Some? && Rewrite(reread.value, additions) == r
  {
    OldItemsHaveNoInfluence(n, header, additions, m, additions);
  }

  lemma ItemsAreStripped(additions: seq<seq<string>>)
    requires AdditionsOk(additions)
    ensures Filter(KeptLine, ItemLines(additions)) == []
  {
    forall i | 0 <= i < |additions|
      ensures IsItemLine(ItemLines(additions)[i])
    {
      AdditionLine(additions[i]);
    }
    FilterNone(KeptLine, ItemLines(additions));
  }

  // ----- Lines and records can disagree

  /** A live line whose first word is `starting_item` but that has no space right after it,
      such as one separated by a tab: stripped from the records, kept in the text. */
  predicate Stray(line: string) {
    Leads(line, STARTING_ITEM) && !IsItemLine(line)
  }

  predicate NotStray(line: string) {
    !Stray(line)
  }

  function RecordsKept(line: string): seq<seq<string>> {
    if KeptLine(line) then RecordOf(line) else []
  }

  lemma StrayLine(line: string)
    ensures AllOf(KeptRecord, RecordsKept(line)) <==> !Stray(line)
  {
    StartingItemIsWord();
    if Live(line) {
      StrippedHasWord(line);
    }
    if KeptLine(line) && RecordOf(line) != [] {
      assert RecordOf(line)[0] == FieldsOf(line);
    }
  }

  lemma StrayRecords(lines: seq<string>)
    ensures AllOf(KeptRecord, Records(Filter(KeptLine, lines))) <==> AllOf(NotStray, lines)
  {
    FlatMapFilter(RecordOf, KeptLine, RecordsKept, lines);
    AllOfFlatMap(RecordsKept, KeptRecord, lines);
    forall i | 0 <= i < |lines|
      ensures AllOf(KeptRecord, RecordsKept(lines[i])) <==> !Stray(lines[i])
    {
      StrayLine(lines[i]);
    }
  }

  /** Exactly when the printed catalog says what the baker recorded: the records read back
      from the rewritten text are the rewritten records if and only if no line was stray. */
  lemma RecordsMatchTextExactly(n: Normal, header: string, additions: seq<seq<string>>)
    requires IsToken(header) && header != MANIFEST && IsNormal(n, header) && AdditionsOk(additions)
    ensures var r := Rewrite(n, additions);
            r.lines != []
            && (Records(r.lines[1..]) == r.records <==> AllOf(NotStray, n.lines[1..]))
  {
    var r, body := Rewrite(n, additions), n.lines[1..];
    RewriteShape(n, header, additions);
    StrippedRecords(body);
    FilterFixed(KeptRecord, Records(Filter(KeptLine, body)), additions);
    StrayRecords(body);
  }

  /** Any other white space after the word makes a stray line. */
  lemma OtherSpaceIsStray(line: string, rest: string)
    requires Trimmed(line) && line == STARTING_ITEM + rest && rest != "" && IsSpace(rest[0]) && rest[0] != ' '
    ensures Stray(line)
  {
    TrimmedStays(line);
    StartingItemIsWord();
    LeadingWord(line, STARTING_ITEM, rest);
    assert line[..|ITEM_PREFIX|][|STARTING_ITEM|] == rest[0] != ITEM_PREFIX[|STARTING_ITEM|];
  }

  /** A concrete stray line: a tab after the word. */
  lemma TabbedItemIsStray()
    ensures Stray(STARTING_ITEM + "\t7")
  {
    OtherSpaceIsStray(STARTING_ITEM + "\t7", "\t7");
  }
}
