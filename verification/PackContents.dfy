/** What a pack holds, file by file. */
module PackContents {
  import opened Bytes
  import opened Seqs
  import opened Text
  import opened Sorting
  import opened Catalog
  import opened ServerConfig
  import opened ConfigRoundTrip
  import opened ConfigSkeleton
  import opened Manifest
  import opened ManifestMeaning
  import opened PackTree
  import Publication

  const MANIFEST_ID := "tes3mp-content-manifest-id"

  function TreeOf(writes: seq<Publication.File>): Publication.Tree {
    Publication.TreeAfter(writes, |writes|)
  }

  lemma FileIsThere(writes: seq<Publication.File>, f: Publication.File)
    requires DistinctFiles(writes) && f in writes
    ensures f.name in TreeOf(writes) && TreeOf(writes)[f.name] == f.data
  {
    assert writes[..|writes|] == writes;
    TreeHolds(writes, |writes|, f);
  }

  // ----- Catalogs

  /** Every manifest record of the text is of this manifest, and there is one. */
  ghost predicate HoldsManifest(text: string, m: string) {
    var lines := SplitLines(text);
    && ManifestCount(lines) == 1
    && forall i :: 0 <= i < |lines| && IsManifest(lines[i]) ==> FieldsOf(lines[i]) == [MANIFEST, m]
  }

  lemma PrintHoldsManifest(n: Normal, header: string, m: string)
    requires IsToken(header) && header != MANIFEST && IsNormal(n, header) && IsToken(m)
    requires ReplaceManifest(n, m).Some?
    ensures HoldsManifest(ReplaceManifest(n, m).value, m)
  {
    var printed := Printed(n.lines, m);
    ReplacePrints(n.lines, m);
    PrintedNormalises(n.lines, m);
    SplitOfJoin(printed);
    forall i | 0 <= i < |printed| && IsManifest(printed[i])
      ensures FieldsOf(printed[i]) == [MANIFEST, m]
    {
      if IsManifest(n.lines[i]) {
        ManifestLine(m);
      }
    }
  }

  /** Under its output name, each catalog is printed in a text that reads back as that catalog and
      whose one manifest record is the pack's manifest. */
  lemma CatalogIsInPack(b: Bake, m: string, k: Tools, i: nat, header: string) returns (text: string)
    requires Ready(b, m, k) && i < |b.catalogs|
    requires IsToken(header) && header != MANIFEST && IsNormal(b.catalogs[i].normal, header) && IsToken(m)
    ensures var tree := PlanOf(b, m, k).Tree();
            b.catalogs[i].output in tree && tree[b.catalogs[i].output] == k.rules.utf8(text)
    ensures Normalise(text, header) == Some(b.catalogs[i].normal) && HoldsManifest(text, m)
  {
    var c := b.catalogs[i];
    text := ReplaceManifest(c.normal, m).value;
    var f := Publication.File(c.output, k.rules.utf8(text));
    assert f == CatalogWrites(b.catalogs, m, k)[i];
    FileIsThere(PlanOf(b, m, k).Writes(), f);
    RebakeFixpoint(c.normal, header, m);
    PrintHoldsManifest(c.normal, header, m);
  }

  // ----- Modules, metadata, and nothing else

  lemma ModuleIsInPack(b: Bake, m: string, k: Tools, i: nat)
    requires Ready(b, m, k) && i < |b.modules|
    ensures var tree := PlanOf(b, m, k).Tree();
            b.modules[i].name in tree && tree[b.modules[i].name] == b.modules[i].data
  {
    var f := Publication.File(b.modules[i].name, b.modules[i].data);
    assert f == ModuleWrites(b.modules)[i];
    FileIsThere(PlanOf(b, m, k).Writes(), f);
  }

  function Outputs(catalogs: seq<CatalogFile>): set<Name> {
    set i | 0 <= i < |catalogs| :: catalogs[i].output
  }

  lemma NamesOfLists(c: Publication.File, d: Publication.File, cs: seq<Publication.File>, ms: seq<Publication.File>,
                     name: Name)
    ensures Named(Listed(c, d, cs, ms), name) <==>
            (name == c.name || name == d.name || Named(cs, name) || Named(ms, name))
  {
    var all := Listed(c, d, cs, ms);
    assert all[0] == c && all[1] == d;
    if j :| 0 <= j < |cs| && cs[j].name == name {
      assert all[2 + j] == cs[j];
    }
    if j :| 0 <= j < |ms| && ms[j].name == name {
      assert all[2 + |cs| + j] == ms[j];
    }
  }

  lemma KeysOfTree(writes: seq<Publication.File>, name: Name)
    requires DistinctFiles(writes)
    ensures name in TreeOf(writes) <==> Named(writes, name)
  {
    TreeHolds(writes, |writes|, Publication.File(name, []));
  }

  lemma ArtifactNames(b: Bake, m: string, k: Tools, name: Name)
    requires Ready(b, m, k)
    ensures name in TreeOf(Artifacts(b, m, k)) <==>
            name == SERVER_CFG || name == CLIENT_CFG || name in Outputs(b.catalogs) || name in ModuleNames(b.modules)
  {
    ArtifactsAreDistinct(b, m, k);
    KeysOfTree(Artifacts(b, m, k), name);
    var cs, ms := CatalogWrites(b.catalogs, m, k), ModuleWrites(b.modules);
    NamesOfLists(ConfigWrite(b, m, k), ClientWrite(b, m, k), cs, ms, name);
    OutputNamed(b.catalogs, m, k, name);
    ModuleNamed(b.modules, name);
  }

  lemma OutputNamed(catalogs: seq<CatalogFile>, m: string, k: Tools, name: Name)
    requires forall i :: 0 <= i < |catalogs| ==> ReplaceManifest(catalogs[i].normal, m).Some?
    ensures Named(CatalogWrites(catalogs, m, k), name) <==> name in Outputs(catalogs)
  {
    if i :| 0 <= i < |catalogs| && catalogs[i].output == name {
      assert CatalogWrites(catalogs, m, k)[i].name == name;
    }
  }

  lemma ModuleNamed(modules: seq<ScriptModule>, name: Name)
    ensures Named(ModuleWrites(modules), name) <==> name in ModuleNames(modules)
  {
    if i :| 0 <= i < |modules| && modules[i].name == name {
      assert ModuleWrites(modules)[i].name == name;
    }
  }

  lemma TreeIsArtifactsAndMetadata(b: Bake, m: string, k: Tools)
    requires Ready(b, m, k)
    ensures var before, plan := TreeOf(Artifacts(b, m, k)), PlanOf(b, m, k);
            plan.Tree() == before[Publication.METADATA := plan.metadata] && Publication.METADATA !in before
  {
    MetadataIsOwn(b, m, k);
    PrefixTree(Artifacts(b, m, k), Publication.File(Publication.METADATA, PlanOf(b, m, k).metadata));
  }

  lemma KeysAre(keys: set<Name>, c: Name, d: Name, cs: set<Name>, ms: set<Name>)
    requires forall name :: name in keys <==> name == c || name == d || name in cs || name in ms
    ensures keys == {c, d} + cs + ms
  {
  }

  lemma ArtifactKeys(b: Bake, m: string, k: Tools)
    requires Ready(b, m, k)
    ensures TreeOf(Artifacts(b, m, k)).Keys == {SERVER_CFG, CLIENT_CFG} + Outputs(b.catalogs) + ModuleNames(b.modules)
  {
    var tree := TreeOf(Artifacts(b, m, k));
    forall name
      ensures name in tree.Keys <==>
              name == SERVER_CFG || name == CLIENT_CFG || name in Outputs(b.catalogs) || name in ModuleNames(b.modules)
    {
      ArtifactNames(b, m, k, name);
    }
    KeysAre(tree.Keys, SERVER_CFG, CLIENT_CFG, Outputs(b.catalogs), ModuleNames(b.modules));
  }

  /** The pack is the two configurations, the catalogs, the modules and `pack.json`. */
  lemma NothingElseIsInPack(b: Bake, m: string, k: Tools)
    requires Ready(b, m, k)
    ensures PlanOf(b, m, k).Tree().Keys ==
            {SERVER_CFG, CLIENT_CFG, Publication.METADATA} + Outputs(b.catalogs) + ModuleNames(b.modules)
  {
    ArtifactKeys(b, m, k);
    TreeIsArtifactsAndMetadata(b, m, k);
  }

  lemma OthersStay(before: Publication.Tree, after: Publication.Tree, name: Name, data: Blob)
    requires name !in before && after == before[name := data]
    ensures after.Keys - {name} == before.Keys && forall n :: n in before ==> after[n] == before[n]
  {
  }

  /** `pack.json` records the manifest, the content table and the digest of every other file. */
  lemma MetadataIsInPack(b: Bake, m: string, k: Tools) returns (digests: Digests)
    requires Ready(b, m, k)
    ensures var tree := PlanOf(b, m, k).Tree();
            && digests.Keys == tree.Keys - {Publication.METADATA}
            && (forall n :: n in digests ==> digests[n] == k.digest(tree[n]))
            && Publication.METADATA in tree && tree[Publication.METADATA] == k.json(m, b.table, digests)
  {
    var before, plan := TreeOf(Artifacts(b, m, k)), PlanOf(b, m, k);
    digests := DigestsOf(before, k);
    TreeIsArtifactsAndMetadata(b, m, k);
    OthersStay(before, plan.Tree(), Publication.METADATA, plan.metadata);
  }

  lemma MetadataIsOwn(b: Bake, m: string, k: Tools)
    requires Ready(b, m, k)
    ensures Publication.METADATA !in TreeOf(Artifacts(b, m, k))
  {
    var files, all := Artifacts(b, m, k), PlanOf(b, m, k).Writes();
    ArtifactsAreDistinct(b, m, k);
    KeysOfTree(files, Publication.METADATA);
    forall i | 0 <= i < |files|
      ensures files[i].name != Publication.METADATA
    {
      assert all[i] == files[i] && all[|files|].name == Publication.METADATA;
    }
  }

  lemma {:induction false} TreeOfPrefix(files: seq<Publication.File>, f: Publication.File, n: nat)
    requires n <= |files|
    ensures Publication.TreeAfter(files + [f], n) == Publication.TreeAfter(files, n)
  {
    if n > 0 {
      TreeOfPrefix(files, f, n - 1);
      assert (files + [f])[n - 1] == files[n - 1];
    }
  }

  lemma PrefixTree(files: seq<Publication.File>, f: Publication.File)
    ensures TreeOf(files + [f]) == TreeOf(files)[f.name := f.data]
  {
    TreeOfPrefix(files, f, |files|);
  }

  // ----- The server configuration

  /** `server.cfg` parses, key by key, to the new manifest, each catalog's output name, the two
      fixed paths where present, and every other value as in the source. */
  lemma ServerConfigIsInPack(b: Bake, m: string, k: Tools) returns (text: string)
    requires Ready(b, m, k) && PackOf(b, m, k).Valid()
    requires Assignments(b.lines).Some? && MANIFEST_KEY in Keys(Assignments(b.lines).value)
    ensures var tree := PlanOf(b, m, k).Tree(); SERVER_CFG in tree && tree[SERVER_CFG] == k.rules.utf8(text)
    ensures Assignments(SplitLines(text)).Some?
    ensures forall key :: |ValuesOf(Assignments(b.lines).value, key)| <= 1 ==>
              ValuesOf(Assignments(SplitLines(text)).value, key) ==
              ConfigValues(Assignments(b.lines).value, OutputNames(b.catalogs), m, key)
  {
    var p := PackOf(b, m, k);
    text := Join(Render(b.lines, p).value);
    FileIsThere(PlanOf(b, m, k).Writes(), Publication.File(SERVER_CFG, k.rules.utf8(text)));
    ConfigReadsBack(b.lines, p);
    forall key | |ValuesOf(Assignments(b.lines).value, key)| <= 1
      ensures ValuesOf(Assignments(SplitLines(text)).value, key) ==
              ConfigValues(Assignments(b.lines).value, OutputNames(b.catalogs), m, key)
    {
      EachKeyReadsBack(b.lines, p, key);
    }
  }

  function ConfigValues(source: seq<Assignment>, names: map<string, string>, m: string, key: string): seq<string> {
    if key == MANIFEST_KEY then [m]
    else if key in names then [names[key]]
    else if key == PASSWORD_KEY && key in Keys(source) then [PASSWORD_PATH]
    else if key == IDENTITY_KEY && key in Keys(source) then [IDENTITY_PATH]
    else ValuesOf(source, key)
  }

  // ----- The client configuration

  function CopiedAssignments(server: seq<Assignment>, copied: seq<Copied>): seq<Assignment>
    requires forall c :: c in copied ==> ValuesOf(server, c.server) != []
  {
    if copied == [] then []
    else [Assignment(copied[0].client, ValuesOf(server, copied[0].server)[0])] + CopiedAssignments(server, copied[1..])
  }

  function SingleAssignments(client: seq<Assignment>, keys: seq<string>): seq<Assignment> {
    if keys == [] then []
    else
      (if ValuesOf(client, keys[0]) == [] then [] else [Assignment(keys[0], ValuesOf(client, keys[0])[0])])
      + SingleAssignments(client, keys[1..])
  }

  function ItemAssignments(key: string, items: seq<Item<int, string>>, rules: Rules): seq<Assignment> {
    if items == [] then []
    else [Assignment(key, rules.digits(items[0].key) + "=" + items[0].value)] + ItemAssignments(key, items[1..], rules)
  }

  function MappedAssignments(client: seq<Assignment>, keys: seq<string>, rules: Rules): seq<Assignment> {
    if keys == [] then []
    else
      var mapping := Mapping(client, keys[0], rules);
      (if mapping.Some? then ItemAssignments(keys[0], mapping.value, rules) else [])
      + MappedAssignments(client, keys[1..], rules)
  }

  /** The new manifest, the copied server values, the single client values and the mappings. */
  function ClientAssignments(b: Bake, m: string, k: Tools): seq<Assignment>
    requires forall c :: c in k.copied ==> ValuesOf(b.server, c.server) != []
  {
    [Assignment(MANIFEST_ID, m)] + CopiedAssignments(b.server, k.copied)
    + (SingleAssignments(b.client, k.rules.singleKeys) + MappedAssignments(b.client, k.rules.mappingKeys, k.rules))
  }

  function PlainLine(a: Assignment): string {
    a.key + "=" + a.value
  }

  function PlainLines(assignments: seq<Assignment>): (r: seq<string>)
    ensures |r| == |assignments| && forall i :: 0 <= i < |r| ==> r[i] == PlainLine(assignments[i])
  {
    seq(|assignments|, i requires 0 <= i < |assignments| => PlainLine(assignments[i]))
  }

  lemma UnquotedIsTrimmed(value: string)
    requires ValueShape(value)
    ensures Strip(value) == value && Trimmed(value)
  {
    StripFacts(value);
    RStripFacts(value);
    LStripFacts(RStrip(value));
    assert |Strip(value)| <= |value|;
  }

  lemma PlainStripped(key: string, value: string)
    requires KeyShape(key) && ValueShape(value)
    ensures Strip(key + "=" + value) == key + "=" + value
  {
    var head, line := key + "=", key + "=" + value;
    UnquotedIsTrimmed(value);
    assert line == head + value && Trimmed(head);
    StripHead(line, head);
    RStripTail(head, value);
    TrimmedStays(value);
  }

  /** A `key=value` line reads back as written. */
  lemma PlainLineReads(a: Assignment)
    requires KeyShape(a.key) && ValueShape(a.value)
    ensures NoBreaks(PlainLine(a)) && LineOk(PlainLine(a)) && AssignmentsOf(PlainLine(a)) == [a]
  {
    var line, key := PlainLine(a), a.key;
    PlainStripped(key, a.value);
    assert line[|key|] == '=' && line[..|key|] == key;
    BeforeUnique(line, |key|);
    assert line[|key| + 1..] == a.value;
    TrimmedStays(key);
    assert !IsBreak('=');
  }

  lemma PlainLinesRead(assignments: seq<Assignment>)
    requires AllOf(ReadsBack, assignments)
    ensures AllOf(NoBreaks, PlainLines(assignments)) && AllOf(LineOk, PlainLines(assignments))
    ensures FlatMap(AssignmentsOf, PlainLines(assignments)) == assignments
  {
    var lines := PlainLines(assignments);
    forall i | 0 <= i < |lines|
      ensures NoBreaks(lines[i]) && LineOk(lines[i]) && AssignmentsOf(lines[i]) == [assignments[i]]
    {
      assert ReadsBack(assignments[i]);
      PlainLineReads(assignments[i]);
    }
    FlatMapSingles(AssignmentsOf, lines, assignments);
  }

  lemma BannerPieces(a: string, b: string, c: string, d: string)
    requires a != "" && a[0] == '#' && d != "" && !IsSpace(d[|d| - 1])
    requires NoBreaks(a) && NoBreaks(b) && NoBreaks(c) && NoBreaks(d)
    ensures var line := a + (b + (c + d)); NoBreaks(line) && LineOk(line) && AssignmentsOf(line) == []
  {
    var line := a + (b + (c + d));
    assert line[0] == '#' && line[|line| - 1] == d[|d| - 1] && !IsSpace('#');
    TrimmedStays(line);
  }

  lemma PiecesHaveNoBreaks()
    ensures NoBreaks("# Generated by ") && NoBreaks("bake_tes3mp_content.py; ")
    ensures NoBreaks("load as an OpenMW ") && NoBreaks("config layer.")
  {
  }

  lemma BannerReads()
    ensures NoBreaks(BANNER) && LineOk(BANNER) && AssignmentsOf(BANNER) == []
  {
    PiecesHaveNoBreaks();
    var a, d := "# Generated by ", "config layer.";
    assert a[0] == '#' && d[|d| - 1] == '.' && !IsSpace('.');
    BannerPieces(a, "bake_tes3mp_content.py; ", "load as an OpenMW ", d);
  }

  lemma PlainConcat(xs: seq<Assignment>, ys: seq<Assignment>)
    ensures PlainLines(xs + ys) == PlainLines(xs) + PlainLines(ys)
  {
  }

  lemma {:induction false} CopiedArePlain(server: seq<Assignment>, copied: seq<Copied>)
    requires forall c :: c in copied ==> ValuesOf(server, c.server) != []
    ensures CopiedLines(server, copied) == PlainLines(CopiedAssignments(server, copied))
  {
    if copied != [] {
      CopiedArePlain(server, copied[1..]);
      var head := [Assignment(copied[0].client, ValuesOf(server, copied[0].server)[0])];
      PlainConcat(head, CopiedAssignments(server, copied[1..]));
      assert PlainLines(head) == [PlainLine(head[0])];
    }
  }

  lemma {:induction false} SinglesArePlain(client: seq<Assignment>, keys: seq<string>)
    requires SingleLines(client, keys).Some?
    ensures SingleLines(client, keys).value == PlainLines(SingleAssignments(client, keys))
  {
    if keys != [] {
      SinglesArePlain(client, keys[1..]);
      var head := [Assignment(keys[0], ValuesOf(client, keys[0])[0])];
      PlainConcat(head, SingleAssignments(client, keys[1..]));
      assert PlainLines(head) == [PlainLine(head[0])];
    }
  }

  lemma {:induction false} ItemsArePlain(key: string, items: seq<Item<int, string>>, rules: Rules)
    ensures MappingText(key, items, rules) == PlainLines(ItemAssignments(key, items, rules))
  {
    if items != [] {
      ItemsArePlain(key, items[1..], rules);
      var value := rules.digits(items[0].key) + "=" + items[0].value;
      var head := [Assignment(key, value)];
      PlainConcat(head, ItemAssignments(key, items[1..], rules));
      assert PlainLines(head) == [key + "=" + value];
      assert key + "=" + value == key + "=" + rules.digits(items[0].key) + "=" + items[0].value;
    }
  }

  lemma {:induction false} MappedArePlain(client: seq<Assignment>, keys: seq<string>, rules: Rules)
    requires MappingLines(client, keys, rules).Some?
    ensures MappingLines(client, keys, rules).value == PlainLines(MappedAssignments(client, keys, rules))
  {
    if keys != [] {
      MappedArePlain(client, keys[1..], rules);
      var items := Mapping(client, keys[0], rules).value;
      ItemsArePlain(keys[0], items, rules);
      PlainConcat(ItemAssignments(keys[0], items, rules), MappedAssignments(client, keys[1..], rules));
    }
  }

  lemma {:induction false} JoinConcat(xs: seq<string>, ys: seq<string>)
    ensures Join(xs + ys) == Join(xs) + Join(ys)
  {
    if xs == [] {
      assert xs + ys == ys;
    } else {
      JoinConcat(xs[1..], ys);
      assert (xs + ys)[0] == xs[0] && (xs + ys)[1..] == xs[1..] + ys;
      assert xs[0] + "\n" + (Join(xs[1..]) + Join(ys)) == (xs[0] + "\n" + Join(xs[1..])) + Join(ys);
    }
  }

  /** The client configuration is a comment and one plain line for each assignment. */
  lemma ClientConfigIsPlain(b: Bake, m: string, k: Tools)
    requires Prints(b, m, k)
    ensures ClientConfig(b, m, k) == Join([BANNER] + PlainLines(ClientAssignments(b, m, k)))
  {
    var first, copied := [Assignment(MANIFEST_ID, m)], CopiedAssignments(b.server, k.copied);
    var singles := SingleAssignments(b.client, k.rules.singleKeys);
    var mapped := MappedAssignments(b.client, k.rules.mappingKeys, k.rules);
    CopiedArePlain(b.server, k.copied);
    SinglesArePlain(b.client, k.rules.singleKeys);
    MappedArePlain(b.client, k.rules.mappingKeys, k.rules);
    PlainConcat(singles, mapped);
    PlainConcat(first, copied);
    PlainConcat(first + copied, singles + mapped);
    FirstLineIsPlain(m);
    var head := [BANNER, MANIFEST_LINE + m] + PlainLines(copied);
    JoinConcat(head, PlainLines(singles + mapped));
    assert head == [BANNER] + (PlainLines(first) + PlainLines(copied));
    Regroup([BANNER], PlainLines(first) + PlainLines(copied), PlainLines(singles + mapped));
  }

  lemma FirstLineIsPlain(m: string)
    ensures PlainLines([Assignment(MANIFEST_ID, m)]) == [MANIFEST_LINE + m]
  {
    assert MANIFEST_ID + "=" == MANIFEST_LINE;
  }

  /** `openmw.cfg` parses to the new manifest, the copied server values, the single client values
      and the client mappings, in that order, and to nothing else. */
  lemma ClientConfigIsInPack(b: Bake, m: string, k: Tools) returns (text: string)
    requires Ready(b, m, k) && AllOf(ReadsBack, ClientAssignments(b, m, k))
    ensures var tree := PlanOf(b, m, k).Tree(); CLIENT_CFG in tree && tree[CLIENT_CFG] == k.rules.utf8(text)
    ensures Assignments(SplitLines(text)) == Some(ClientAssignments(b, m, k))
  {
    text := ClientConfig(b, m, k);
    FileIsThere(PlanOf(b, m, k).Writes(), Publication.File(CLIENT_CFG, k.rules.utf8(text)));
    ClientConfigIsPlain(b, m, k);
    BannerReads();
    PlainLinesRead(ClientAssignments(b, m, k));
    FlatMapOne(AssignmentsOf, BANNER);
    ReadJoined([BANNER], PlainLines(ClientAssignments(b, m, k)));
    assert [] + ClientAssignments(b, m, k) == ClientAssignments(b, m, k);
  }
}
