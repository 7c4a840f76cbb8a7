/**
 The files of a pack.  A manifest does not cover everything that a bake writes, so two bakes
 can have the same manifest and different bytes; the second one is then refused as a
 collision.  This module says exactly when.
 */
module PackTree {
  import opened Bytes
  import opened Seqs
  import opened Text
  import opened Sorting
  import opened Catalog
  import opened ServerConfig
  import opened ConfigRoundTrip
  import opened ConfigSkeleton
  import opened Manifest
  import opened ManifestMeaning
  import MasterOrder
  import Publication
  import PublicationRuns

  type Name = Publication.Name
  type Table = seq<MasterOrder.LoadoutFile>

  const SERVER_CFG: Name := "server.cfg"
  const CLIENT_CFG: Name := "openmw.cfg"
  const BANNER := "# Generated by " + ("bake_tes3mp_content.py; " + ("load as an OpenMW " + "config layer."))
  const MANIFEST_LINE := "tes3mp-content-manifest-id="

  datatype CatalogFile = CatalogFile(key: string, output: Name, normal: Normal)

  datatype ScriptModule = ScriptModule(name: Name, data: Blob)

  /** What a bake has loaded when it starts to write: the lines of the server configuration,
      the assignments of both configurations, catalogs, modules and the content table. */
  datatype Bake = Bake(
    lines: seq<string>,
    server: seq<Assignment>,
    client: seq<Assignment>,
    catalogs: seq<CatalogFile>,
    modules: seq<ScriptModule>,
    table: Table)

  /** A server key and the client key it is copied to. */
  datatype Copied = Copied(server: string, client: string)

  type Digests = map<Name, Blob>

  /** The fixed tables of the baker, and Python's functions: case folding, `bytes.fromhex`,
      SHA-256, and the printing of `pack.json`. */
  datatype Tools = Tools(
    rules: Rules,
    order: seq<string>,
    copied: seq<Copied>,
    fold: string -> string,
    unhex: string -> Blob,
    digest: Blob -> Blob,
    json: (string, Table, Digests) -> Blob)
  {
    ghost predicate Covers(key: string) {
      exists i :: 0 <= i < |rules.serverKeys| && rules.serverKeys[i].key == key && !rules.serverKeys[i].catalog
    }

    /** Copied keys are covered by the manifest, and `pack.json` shows the content table. */
    ghost predicate Valid() {
      && Regular(rules)
      && (forall c :: c in copied ==> Covers(c.server))
      && (forall m, t, a, t', a' :: json(m, t, a) == json(m, t', a') ==> t == t')
    }
  }

  // ----- What is hashed

  function Loadout(table: Table, k: Tools): (r: seq<File>)
    ensures |r| == |table|
  {
    seq(|table|, i requires 0 <= i < |table| => File(k.fold(table[i].name), k.unhex(table[i].digest)))
  }

  function CatalogItem(c: CatalogFile, k: Tools): Item<string, Blob> {
    Item(c.key, k.rules.utf8(Join(c.normal.lines)))
  }

  function CatalogItems(catalogs: seq<CatalogFile>, k: Tools): (r: Catalogs)
    ensures |r| == |catalogs| && forall i :: 0 <= i < |r| ==> r[i] == CatalogItem(catalogs[i], k)
  {
    seq(|catalogs|, i requires 0 <= i < |catalogs| => CatalogItem(catalogs[i], k))
  }

  function ModuleItem(m: ScriptModule, k: Tools): Item<string, Blob> {
    Item(k.fold(m.name), m.data)
  }

  function ModuleItems(modules: seq<ScriptModule>, k: Tools): (r: Catalogs)
    ensures |r| == |modules| && forall i :: 0 <= i < |r| ==> r[i] == ModuleItem(modules[i], k)
  {
    seq(|modules|, i requires 0 <= i < |modules| => ModuleItem(modules[i], k))
  }

  function InputsOf(b: Bake, k: Tools): Inputs {
    Inputs(Loadout(b.table, k), b.server, b.client, CatalogItems(b.catalogs, k), ModuleItems(b.modules, k))
  }

  // ----- What is written

  function OutputNames(catalogs: seq<CatalogFile>): map<string, string> {
    if catalogs == [] then map[]
    else
      var last := catalogs[|catalogs| - 1];
      OutputNames(catalogs[..|catalogs| - 1])[last.key := last.output]
  }

  function PackOf(b: Bake, m: string, k: Tools): Pack {
    Pack(OutputNames(b.catalogs), m, k.order)
  }

  function CopiedLines(server: seq<Assignment>, copied: seq<Copied>): seq<string>
    requires forall c :: c in copied ==> ValuesOf(server, c.server) != []
  {
    if copied == [] then []
    else [copied[0].client + "=" + ValuesOf(server, copied[0].server)[0]] + CopiedLines(server, copied[1..])
  }

  /** `_render_client_config`: the lines after the copied keys are those of the canonical
      client text. */
  function ClientConfig(b: Bake, m: string, k: Tools): string
    requires ClientText(b.client, k.rules).Some?
    requires forall c :: c in k.copied ==> ValuesOf(b.server, c.server) != []
  {
    Join([BANNER, MANIFEST_LINE + m] + CopiedLines(b.server, k.copied)) + ClientText(b.client, k.rules).value
  }

  function CatalogWrite(c: CatalogFile, m: string, k: Tools): Publication.File
    requires ReplaceManifest(c.normal, m).Some?
  {
    Publication.File(c.output, k.rules.utf8(ReplaceManifest(c.normal, m).value))
  }

  function CatalogWrites(catalogs: seq<CatalogFile>, m: string, k: Tools): (r: seq<Publication.File>)
    requires forall i :: 0 <= i < |catalogs| ==> ReplaceManifest(catalogs[i].normal, m).Some?
    ensures |r| == |catalogs| && forall i :: 0 <= i < |r| ==> r[i] == CatalogWrite(catalogs[i], m, k)
  {
    seq(|catalogs|, i requires 0 <= i < |catalogs| => CatalogWrite(catalogs[i], m, k))
  }

  function ModuleWrites(modules: seq<ScriptModule>): (r: seq<Publication.File>)
    ensures |r| == |modules|
    ensures forall i :: 0 <= i < |r| ==> r[i] == Publication.File(modules[i].name, modules[i].data)
  {
    seq(|modules|, i requires 0 <= i < |modules| => Publication.File(modules[i].name, modules[i].data))
  }

  /** Everything a bake needs in order to print its files. */
  ghost predicate Prints(b: Bake, m: string, k: Tools) {
    && Render(b.lines, PackOf(b, m, k)).Some?
    && ClientText(b.client, k.rules).Some?
    && (forall c :: c in k.copied ==> ValuesOf(b.server, c.server) != [])
    && (forall i :: 0 <= i < |b.catalogs| ==> ReplaceManifest(b.catalogs[i].normal, m).Some?)
  }

  ghost function ConfigWrite(b: Bake, m: string, k: Tools): Publication.File
    requires Prints(b, m, k)
  {
    Publication.File(SERVER_CFG, k.rules.utf8(Join(Render(b.lines, PackOf(b, m, k)).value)))
  }

  ghost function ClientWrite(b: Bake, m: string, k: Tools): Publication.File
    requires Prints(b, m, k)
  {
    Publication.File(CLIENT_CFG, k.rules.utf8(ClientConfig(b, m, k)))
  }

  ghost function Artifacts(b: Bake, m: string, k: Tools): seq<Publication.File>
    requires Prints(b, m, k)
  {
    Listed(ConfigWrite(b, m, k), ClientWrite(b, m, k), CatalogWrites(b.catalogs, m, k), ModuleWrites(b.modules))
  }

  ghost function DigestsOf(tree: Publication.Tree, k: Tools): Digests {
    map n | n in tree :: k.digest(tree[n])
  }

  /** What the bake goes on to publish. */
  ghost function PlanOf(b: Bake, m: string, k: Tools): Publication.Plan
    requires Prints(b, m, k)
  {
    var files := Artifacts(b, m, k);
    Publication.Plan(k.rules.utf8(m), files, k.json(m, b.table, DigestsOf(Publication.TreeAfter(files, |files|), k)))
  }

  // ----- Trees and writes

  ghost predicate DistinctFiles(writes: seq<Publication.File>) {
    forall i, j :: 0 <= i < j < |writes| ==> writes[i].name != writes[j].name
  }

  lemma {:induction false} TreeHolds(writes: seq<Publication.File>, n: nat, f: Publication.File)
    requires DistinctFiles(writes) && n <= |writes|
    ensures var tree := Publication.TreeAfter(writes, n);
            (f.name in tree && tree[f.name] == f.data) <==> f in writes[..n]
    ensures f.name in Publication.TreeAfter(writes, n) <==> exists i :: 0 <= i < n && writes[i].name == f.name
  {
    if n > 0 {
      TreeHolds(writes, n - 1, f);
      assert writes[..n] == writes[..n - 1] + [writes[n - 1]];
      if f.name == writes[n - 1].name {
        assert forall i :: 0 <= i < n - 1 ==> writes[i].name != f.name;
        assert f !in writes[..n - 1];
      }
    }
  }

  ghost predicate SameFiles(ws: seq<Publication.File>, vs: seq<Publication.File>) {
    forall f :: f in ws <==> f in vs
  }

  /** Writing files of different names gives the same tree exactly when the files are the
      same, in whatever order. */
  lemma TreeExactly(ws: seq<Publication.File>, vs: seq<Publication.File>)
    requires DistinctFiles(ws) && DistinctFiles(vs)
    ensures Publication.TreeAfter(ws, |ws|) == Publication.TreeAfter(vs, |vs|) <==> SameFiles(ws, vs)
  {
    var s, t := Publication.TreeAfter(ws, |ws|), Publication.TreeAfter(vs, |vs|);
    assert ws[..|ws|] == ws && vs[..|vs|] == vs;
    if s == t {
      forall f
        ensures f in ws <==> f in vs
      {
        TreeHolds(ws, |ws|, f);
        TreeHolds(vs, |vs|, f);
      }
    }
    if SameFiles(ws, vs) {
      TreeIncludes(ws, vs);
      TreeIncludes(vs, ws);
    }
  }

  lemma TreeIncludes(ws: seq<Publication.File>, vs: seq<Publication.File>)
    requires DistinctFiles(ws) && DistinctFiles(vs) && SameFiles(ws, vs)
    ensures var s, t := Publication.TreeAfter(ws, |ws|), Publication.TreeAfter(vs, |vs|);
            forall n :: n in s ==> n in t && t[n] == s[n]
  {
    var s, t := Publication.TreeAfter(ws, |ws|), Publication.TreeAfter(vs, |vs|);
    assert ws[..|ws|] == ws && vs[..|vs|] == vs;
    forall n | n in s
      ensures n in t && t[n] == s[n]
    {
      TreeHolds(ws, |ws|, Publication.File(n, s[n]));
      TreeHolds(vs, |vs|, Publication.File(n, s[n]));
    }
  }

  lemma OneOfAName(writes: seq<Publication.File>, f: Publication.File, g: Publication.File)
    requires DistinctFiles(writes) && f in writes && g in writes && f.name == g.name
    ensures f == g
  {
    var i :| 0 <= i < |writes| && writes[i] == f;
    var j :| 0 <= j < |writes| && writes[j] == g;
  }

  // ----- Lists of writes

  /** Two single files, then two lists, then one more. */
  function Listed(c: Publication.File, d: Publication.File, cs: seq<Publication.File>, ms: seq<Publication.File>):
    seq<Publication.File>
  {
    [c, d] + (cs + ms)
  }

  ghost predicate Named(fs: seq<Publication.File>, name: Name) {
    exists i :: 0 <= i < |fs| && fs[i].name == name
  }

  lemma SameLists(c: Publication.File, d: Publication.File, cs: seq<Publication.File>, ms: seq<Publication.File>,
                  cs': seq<Publication.File>, ms': seq<Publication.File>)
    requires SameFiles(cs, cs') && SameFiles(ms, ms')
    ensures SameFiles(Listed(c, d, cs, ms), Listed(c, d, cs', ms'))
  {
  }

  lemma OwnName(c: Publication.File, d: Publication.File, cs: seq<Publication.File>, ms: seq<Publication.File>,
                e: Publication.File, i: nat)
    requires DistinctFiles(Listed(c, d, cs, ms) + [e]) && i < |ms|
    ensures ms[i].name != c.name && ms[i].name != d.name && ms[i].name != e.name && !Named(cs, ms[i].name)
  {
    var all := Listed(c, d, cs, ms) + [e];
    assert all[0] == c && all[1] == d && all[|all| - 1] == e && all[2 + |cs| + i] == ms[i];
    forall j | 0 <= j < |cs|
      ensures cs[j].name != ms[i].name
    {
      assert all[2 + j] == cs[j];
    }
  }

  lemma ElseListed(c: Publication.File, d: Publication.File, cs: seq<Publication.File>, ms: seq<Publication.File>,
                   e: Publication.File, f: Publication.File)
    requires f in Listed(c, d, cs, ms) + [e]
    requires f.name != c.name && f.name != d.name && f.name != e.name && !Named(cs, f.name)
    ensures f in ms
  {
  }

  // ----- What two bakes share

  /** A bake that has got to its publishing half, with file names that do not collide. */
  ghost predicate Ready(b: Bake, m: string, k: Tools) {
    && Prints(b, m, k)
    && Bakeable(InputsOf(b, k), k.rules)
    && KeysFit(PackOf(b, m, k))
    && NoBreaks(m) && AllOf(NoBreaks, b.lines)
    && (forall i :: 0 <= i < |b.catalogs| ==> NoBreaks(b.catalogs[i].output))
    && DistinctFiles(PlanOf(b, m, k).Writes())
  }

  ghost predicate SameManifest(x: Bake, y: Bake, k: Tools)
    requires Covered(InputsOf(x, k), k.rules).Some? && Covered(InputsOf(y, k), k.rules).Some?
  {
    Stream(Covered(InputsOf(x, k), k.rules).value, k.rules) == Stream(Covered(InputsOf(y, k), k.rules).value, k.rules)
  }

  function ModuleNames(modules: seq<ScriptModule>): set<Name> {
    set i | 0 <= i < |modules| :: modules[i].name
  }

  /** Everything that shows in the files besides what the manifest covers: the parts of the
      server configuration that rendering keeps, the output names, how module names are
      spelled, and the content table. */
  ghost predicate SameUncovered(x: Bake, y: Bake, m: string, k: Tools) {
    && Skeleton(x.lines, PackOf(x, m, k)) == Skeleton(y.lines, PackOf(y, m, k))
    && OutputNames(x.catalogs) == OutputNames(y.catalogs)
    && ModuleNames(x.modules) == ModuleNames(y.modules)
    && x.table == y.table
  }

  ghost predicate DistinctCatalogs(catalogs: seq<CatalogFile>) {
    forall i, j :: 0 <= i < j < |catalogs| ==> catalogs[i].key != catalogs[j].key
  }

  lemma {:induction false} NamesHold(catalogs: seq<CatalogFile>, key: string)
    requires DistinctCatalogs(catalogs)
    ensures key in OutputNames(catalogs) <==> exists i :: 0 <= i < |catalogs| && catalogs[i].key == key
    ensures forall i :: 0 <= i < |catalogs| && catalogs[i].key == key ==>
              key in OutputNames(catalogs) && OutputNames(catalogs)[key] == catalogs[i].output
  {
    if catalogs != [] {
      var n := |catalogs| - 1;
      var front := catalogs[..n];
      assert forall i :: 0 <= i < n ==> front[i] == catalogs[i];
      NamesHold(front, key);
    }
  }

  lemma CatalogsAreDistinct(b: Bake, k: Tools)
    requires Bakeable(InputsOf(b, k), k.rules)
    ensures DistinctCatalogs(b.catalogs)
  {
    var items := CatalogItems(b.catalogs, k);
    forall i, j | 0 <= i < j < |b.catalogs|
      ensures b.catalogs[i].key != b.catalogs[j].key
    {
      assert items[i].key != items[j].key;
    }
  }

  ghost predicate SameCatalogs(xs: seq<CatalogFile>, ys: seq<CatalogFile>, k: Tools) {
    k.rules.Injective() && multiset(CatalogItems(xs, k)) == multiset(CatalogItems(ys, k))
  }

  ghost predicate SameModules(xs: seq<ScriptModule>, ys: seq<ScriptModule>, k: Tools) {
    multiset(ModuleItems(xs, k)) == multiset(ModuleItems(ys, k))
  }

  /** The catalog of the other bake with the same key has the same text. */
  lemma SameCatalog(xs: seq<CatalogFile>, ys: seq<CatalogFile>, k: Tools, i: nat) returns (j: nat)
    requires SameCatalogs(xs, ys, k) && i < |xs|
    ensures j < |ys| && ys[j].key == xs[i].key && Join(ys[j].normal.lines) == Join(xs[i].normal.lines)
  {
    var ps, qs := CatalogItems(xs, k), CatalogItems(ys, k);
    assert ps[i] in multiset(ps);
    assert ps[i] in multiset(qs);
    j :| 0 <= j < |qs| && qs[j] == ps[i];
    assert qs[j] == CatalogItem(ys[j], k) && ps[i] == CatalogItem(xs[i], k);
  }

  lemma SameModule(xs: seq<ScriptModule>, ys: seq<ScriptModule>, k: Tools, i: nat) returns (j: nat)
    requires SameModules(xs, ys, k) && i < |xs|
    ensures j < |ys| && k.fold(ys[j].name) == k.fold(xs[i].name) && ys[j].data == xs[i].data
  {
    var ps, qs := ModuleItems(xs, k), ModuleItems(ys, k);
    assert ps[i] in multiset(ps);
    assert ps[i] in multiset(qs);
    j :| 0 <= j < |qs| && qs[j] == ps[i];
    assert qs[j] == ModuleItem(ys[j], k) && ps[i] == ModuleItem(xs[i], k);
  }

  lemma SharedKey(xs: seq<CatalogFile>, ys: seq<CatalogFile>, k: Tools, key: string)
    requires DistinctCatalogs(xs) && DistinctCatalogs(ys) && SameCatalogs(xs, ys, k) && key in OutputNames(xs)
    ensures key in OutputNames(ys)
  {
    NamesHold(xs, key);
    NamesHold(ys, key);
    var i :| 0 <= i < |xs| && xs[i].key == key;
    var j := SameCatalog(xs, ys, k, i);
  }

  lemma SameCatalogKeys(xs: seq<CatalogFile>, ys: seq<CatalogFile>, k: Tools)
    requires DistinctCatalogs(xs) && DistinctCatalogs(ys) && SameCatalogs(xs, ys, k)
    ensures OutputNames(xs).Keys == OutputNames(ys).Keys
  {
    forall key
      ensures key in OutputNames(xs) <==> key in OutputNames(ys)
    {
      if key in OutputNames(xs) {
        SharedKey(xs, ys, k, key);
      }
      if key in OutputNames(ys) {
        SharedKey(ys, xs, k, key);
      }
    }
  }

  /** Where the output names are the same, the catalog of the other bake has the same one. */
  lemma SameOutput(xs: seq<CatalogFile>, ys: seq<CatalogFile>, k: Tools, i: nat) returns (j: nat)
    requires DistinctCatalogs(xs) && DistinctCatalogs(ys) && SameCatalogs(xs, ys, k) && i < |xs|
    requires OutputNames(xs) == OutputNames(ys)
    ensures j < |ys| && ys[j].output == xs[i].output && Join(ys[j].normal.lines) == Join(xs[i].normal.lines)
  {
    j := SameCatalog(xs, ys, k, i);
    NamesHold(xs, xs[i].key);
    NamesHold(ys, xs[i].key);
  }

  /** What an equal manifest gives. */
  lemma ManifestShares(x: Bake, y: Bake, m: string, k: Tools)
    requires k.Valid() && Ready(x, m, k) && Ready(y, m, k) && SameManifest(x, y, k)
    ensures DistinctCatalogs(x.catalogs) && DistinctCatalogs(y.catalogs)
    ensures SameCatalogs(x.catalogs, y.catalogs, k) && SameModules(x.modules, y.modules, k)
  {
    ManifestMeansExactly(InputsOf(x, k), InputsOf(y, k), k.rules);
    CatalogsAreDistinct(x, k);
    CatalogsAreDistinct(y, k);
  }

  /** Bakes of one manifest load the same files in the same order: names that fold together, and
      the same bytes as far as their digests tell. */
  lemma ManifestCoversTable(x: Bake, y: Bake, m: string, k: Tools)
    requires k.Valid() && Ready(x, m, k) && Ready(y, m, k) && SameManifest(x, y, k)
    ensures |x.table| == |y.table|
    ensures forall i :: 0 <= i < |x.table| ==>
              k.fold(x.table[i].name) == k.fold(y.table[i].name)
              && k.unhex(x.table[i].digest) == k.unhex(y.table[i].digest)
  {
    ManifestMeansExactly(InputsOf(x, k), InputsOf(y, k), k.rules);
    var xs, ys := Loadout(x.table, k), Loadout(y.table, k);
    assert |xs| == |ys|;
    forall i | 0 <= i < |x.table|
      ensures k.fold(x.table[i].name) == k.fold(y.table[i].name)
      ensures k.unhex(x.table[i].digest) == k.unhex(y.table[i].digest)
    {
      assert xs[i] == ys[i];
    }
  }

  // ----- The server configuration

  lemma FilledLine(part: Part, p: Pack)
    requires KeysFit(p) && PartOk(part, p) && NoBreaks(p.manifest) && forall key :: key in p.names ==>
          NoBreaks(p.names[key])
    requires part.Kept? ==> NoBreaks(part.line)
    ensures NoBreaks(Fill(part, p))
  {
    FixedPaths();
    if part.Set? {
      LineHasNoBreaks(part.key, Override(part.key, p.names, p.manifest).value);
    }
  }

  lemma RenderedIsClean(lines: seq<string>, p: Pack)
    requires KeysFit(p) && Render(lines, p).Some? && NoBreaks(p.manifest) && AllOf(NoBreaks, lines)
    requires forall key :: key in p.names ==> NoBreaks(p.names[key])
    ensures AllOf(NoBreaks, Render(lines, p).value)
  {
    var parts := Skeleton(lines, p);
    SkeletonLength(lines, p);
    forall i | 0 <= i < |parts|
      ensures NoBreaks(Render(lines, p).value[i])
    {
      SkeletonFills(lines, p, i);
      if i < |lines| {
        RStripFacts(lines[i]);
      }
      FilledLine(parts[i], p);
    }
  }

  lemma NamesAreClean(b: Bake, m: string, k: Tools)
    requires Ready(b, m, k)
    ensures forall key :: key in OutputNames(b.catalogs) ==> NoBreaks(OutputNames(b.catalogs)[key])
  {
    CatalogsAreDistinct(b, k);
    forall key | key in OutputNames(b.catalogs)
      ensures NoBreaks(OutputNames(b.catalogs)[key])
    {
      NamesHold(b.catalogs, key);
    }
  }

  lemma ConfigExactly(x: Bake, y: Bake, m: string, k: Tools)
    requires k.Valid() && Ready(x, m, k) && Ready(y, m, k) && SameManifest(x, y, k)
    ensures ConfigWrite(x, m, k) == ConfigWrite(y, m, k) <==>
            Skeleton(x.lines, PackOf(x, m, k)) == Skeleton(y.lines, PackOf(y, m, k))
            && OutputNames(x.catalogs) == OutputNames(y.catalogs)
  {
    var p, q := PackOf(x, m, k), PackOf(y, m, k);
    ManifestShares(x, y, m, k);
    SameCatalogKeys(x.catalogs, y.catalogs, k);
    NamesAreClean(x, m, k);
    NamesAreClean(y, m, k);
    RenderedIsClean(x.lines, p);
    RenderedIsClean(y.lines, q);
    RenderExactly(x.lines, y.lines, p, q);
    if ConfigWrite(x, m, k) == ConfigWrite(y, m, k) {
      JoinInjective(Render(x.lines, p).value, Render(y.lines, q).value);
    }
  }

  // ----- The client configuration

  lemma {:induction false} SameCopied(xs: seq<Assignment>, ys: seq<Assignment>, copied: seq<Copied>)
    requires forall c :: c in copied ==>
          ValuesOf(xs, c.server) != [] && ValuesOf(xs, c.server) == ValuesOf(ys, c.server)
    ensures CopiedLines(xs, copied) == CopiedLines(ys, copied)
  {
    if copied != [] {
      SameCopied(xs, ys, copied[1..]);
    }
  }

  /** The client configuration shows nothing that the manifest does not cover. */
  lemma SameClientConfig(x: Bake, y: Bake, m: string, k: Tools)
    requires k.Valid() && Ready(x, m, k) && Ready(y, m, k) && SameManifest(x, y, k)
    ensures ClientWrite(x, m, k) == ClientWrite(y, m, k)
  {
    var a, b := InputsOf(x, k), InputsOf(y, k);
    ManifestMeansExactly(a, b, k.rules);
    CoveredExactly(a, b, k.rules);
    ClientTextExactly(x.client, y.client, k.rules);
    forall c | c in k.copied
      ensures ValuesOf(x.server, c.server) == ValuesOf(y.server, c.server)
    {
      assert k.Covers(c.server);
      var i :| 0 <= i < |k.rules.serverKeys| && k.rules.serverKeys[i].key == c.server && !k.rules.serverKeys[i].catalog;
      assert SameServerValue(x.server, y.server, k.rules.serverKeys[i]);
    }
    SameCopied(x.server, y.server, k.copied);
  }

  // ----- Catalogs and modules

  lemma CatalogWritesIncluded(xs: seq<CatalogFile>, ys: seq<CatalogFile>, m: string, k: Tools)
    requires forall i :: 0 <= i < |xs| ==> ReplaceManifest(xs[i].normal, m).Some?
    requires forall i :: 0 <= i < |ys| ==> ReplaceManifest(ys[i].normal, m).Some?
    requires DistinctCatalogs(xs) && DistinctCatalogs(ys) && SameCatalogs(xs, ys, k)
          && OutputNames(xs) == OutputNames(ys)
    ensures forall f :: f in CatalogWrites(xs, m, k) ==> f in CatalogWrites(ys, m, k)
  {
    var ws, vs := CatalogWrites(xs, m, k), CatalogWrites(ys, m, k);
    forall i | 0 <= i < |ws|
      ensures ws[i] in vs
    {
      var j := SameOutput(xs, ys, k, i);
      assert vs[j] == ws[i];
    }
  }

  lemma ModuleWritesIncluded(xs: seq<ScriptModule>, ys: seq<ScriptModule>, k: Tools)
    requires SameModules(xs, ys, k) && DistinctKeys(ModuleItems(ys, k)) && ModuleNames(xs) <= ModuleNames(ys)
    ensures forall f :: f in ModuleWrites(xs) ==> f in ModuleWrites(ys)
  {
    var ws, vs, items := ModuleWrites(xs), ModuleWrites(ys), ModuleItems(ys, k);
    forall i | 0 <= i < |ws|
      ensures ws[i] in vs
    {
      var j := SameModule(xs, ys, k, i);
      assert xs[i].name in ModuleNames(ys);
      var l :| 0 <= l < |ys| && ys[l].name == xs[i].name;
      assert items[l].key == items[j].key;
      assert vs[j] == ws[i];
    }
  }

  lemma SameCatalogWrites(x: Bake, y: Bake, m: string, k: Tools)
    requires k.Valid() && Ready(x, m, k) && Ready(y, m, k) && SameManifest(x, y, k)
    requires OutputNames(x.catalogs) == OutputNames(y.catalogs)
    ensures SameFiles(CatalogWrites(x.catalogs, m, k), CatalogWrites(y.catalogs, m, k))
  {
    ManifestShares(x, y, m, k);
    CatalogWritesIncluded(x.catalogs, y.catalogs, m, k);
    CatalogWritesIncluded(y.catalogs, x.catalogs, m, k);
  }

  lemma SameModuleWrites(x: Bake, y: Bake, m: string, k: Tools)
    requires k.Valid() && Ready(x, m, k) && Ready(y, m, k) && SameManifest(x, y, k)
    requires ModuleNames(x.modules) == ModuleNames(y.modules)
    ensures SameFiles(ModuleWrites(x.modules), ModuleWrites(y.modules))
  {
    ManifestShares(x, y, m, k);
    ModuleWritesIncluded(x.modules, y.modules, k);
    ModuleWritesIncluded(y.modules, x.modules, k);
  }

  // ----- All files

  lemma ArtifactsAreDistinct(b: Bake, m: string, k: Tools)
    requires Ready(b, m, k)
    ensures DistinctFiles(Artifacts(b, m, k))
  {
    var all, files := PlanOf(b, m, k).Writes(), Artifacts(b, m, k);
    assert forall i :: 0 <= i < |files| ==> all[i] == files[i];
  }

  lemma SameArtifactFiles(x: Bake, y: Bake, m: string, k: Tools)
    requires k.Valid() && Ready(x, m, k) && Ready(y, m, k) && SameManifest(x, y, k) && SameUncovered(x, y, m, k)
    ensures SameFiles(Artifacts(x, m, k), Artifacts(y, m, k))
  {
    ConfigExactly(x, y, m, k);
    SameClientConfig(x, y, m, k);
    SameCatalogWrites(x, y, m, k);
    SameModuleWrites(x, y, m, k);
    SameLists(ConfigWrite(x, m, k), ClientWrite(x, m, k), CatalogWrites(x.catalogs, m, k), ModuleWrites(x.modules),
              CatalogWrites(y.catalogs, m, k), ModuleWrites(y.modules));
  }

  lemma SameUncoveredGivesSamePlan(x: Bake, y: Bake, m: string, k: Tools)
    requires k.Valid() && Ready(x, m, k) && Ready(y, m, k) && SameManifest(x, y, k) && SameUncovered(x, y, m, k)
    ensures PlanOf(x, m, k).Tree() == PlanOf(y, m, k).Tree()
  {
    SameArtifactFiles(x, y, m, k);
    ArtifactsAreDistinct(x, m, k);
    ArtifactsAreDistinct(y, m, k);
    TreeExactly(Artifacts(x, m, k), Artifacts(y, m, k));
    var p, q := PlanOf(x, m, k), PlanOf(y, m, k);
    assert p.metadata == q.metadata;
    TreeExactly(p.Writes(), q.Writes());
  }

  lemma ManifestIsSymmetric(x: Bake, y: Bake, k: Tools)
    requires Covered(InputsOf(x, k), k.rules).Some? && Covered(InputsOf(y, k), k.rules).Some?
    requires SameManifest(x, y, k)
    ensures SameManifest(y, x, k)
  {
  }

  ghost function MetadataWrite(b: Bake, m: string, k: Tools): Publication.File
    requires Prints(b, m, k)
  {
    Publication.File(Publication.METADATA, PlanOf(b, m, k).metadata)
  }

  lemma OutputsIncluded(xs: seq<CatalogFile>, ys: seq<CatalogFile>, m: string, k: Tools, name: Name)
    requires forall i :: 0 <= i < |xs| ==> ReplaceManifest(xs[i].normal, m).Some?
    requires forall i :: 0 <= i < |ys| ==> ReplaceManifest(ys[i].normal, m).Some?
    requires DistinctCatalogs(xs) && DistinctCatalogs(ys) && SameCatalogs(xs, ys, k)
          && OutputNames(xs) == OutputNames(ys)
    requires Named(CatalogWrites(xs, m, k), name)
    ensures Named(CatalogWrites(ys, m, k), name)
  {
    CatalogWritesIncluded(xs, ys, m, k);
    var i :| 0 <= i < |xs| && CatalogWrites(xs, m, k)[i].name == name;
    var f := CatalogWrites(xs, m, k)[i];
    assert f in CatalogWrites(ys, m, k);
    var j :| 0 <= j < |ys| && CatalogWrites(ys, m, k)[j] == f;
  }

  lemma ModuleIsFound(x: Bake, y: Bake, m: string, k: Tools, i: nat)
    requires Prints(x, m, k) && Prints(y, m, k) && i < |x.modules|
    requires DistinctCatalogs(x.catalogs) && DistinctCatalogs(y.catalogs)
    requires SameCatalogs(y.catalogs, x.catalogs, k) && OutputNames(x.catalogs) == OutputNames(y.catalogs)
    requires DistinctFiles(Artifacts(x, m, k) + [MetadataWrite(x, m, k)])
    requires ModuleWrites(x.modules)[i] in Artifacts(y, m, k) + [MetadataWrite(y, m, k)]
    ensures x.modules[i].name in ModuleNames(y.modules)
  {
    var cs, ms := CatalogWrites(x.catalogs, m, k), ModuleWrites(x.modules);
    var cs', ms' := CatalogWrites(y.catalogs, m, k), ModuleWrites(y.modules);
    var f := ms[i];
    OwnName(ConfigWrite(x, m, k), ClientWrite(x, m, k), cs, ms, MetadataWrite(x, m, k), i);
    if Named(cs', f.name) {
      OutputsIncluded(y.catalogs, x.catalogs, m, k, f.name);
    }
    ElseListed(ConfigWrite(y, m, k), ClientWrite(y, m, k), cs', ms', MetadataWrite(y, m, k), f);
    var j :| 0 <= j < |ms'| && ms'[j] == f;
    assert y.modules[j].name == f.name;
  }

  /** Where files and output names are the same, module names are spelled the same. */
  lemma ModulesAreFound(x: Bake, y: Bake, m: string, k: Tools)
    requires k.Valid() && Ready(x, m, k) && Ready(y, m, k) && SameManifest(x, y, k)
    requires SameFiles(PlanOf(x, m, k).Writes(), PlanOf(y, m, k).Writes())
    requires OutputNames(x.catalogs) == OutputNames(y.catalogs)
    ensures ModuleNames(x.modules) <= ModuleNames(y.modules)
  {
    ManifestIsSymmetric(x, y, k);
    ManifestShares(y, x, m, k);
    var ms := ModuleWrites(x.modules);
    forall i | 0 <= i < |ms|
      ensures x.modules[i].name in ModuleNames(y.modules)
    {
      assert ms[i] in PlanOf(x, m, k).Writes();
      ModuleIsFound(x, y, m, k, i);
    }
  }

  lemma SameTreeShowsConfig(x: Bake, y: Bake, m: string, k: Tools)
    requires k.Valid() && Ready(x, m, k) && Ready(y, m, k) && SameManifest(x, y, k)
    requires SameFiles(PlanOf(x, m, k).Writes(), PlanOf(y, m, k).Writes())
    ensures Skeleton(x.lines, PackOf(x, m, k)) == Skeleton(y.lines, PackOf(y, m, k))
    ensures OutputNames(x.catalogs) == OutputNames(y.catalogs) && x.table == y.table
  {
    var vs := PlanOf(y, m, k).Writes();
    assert ConfigWrite(x, m, k) in vs && ConfigWrite(y, m, k) in vs;
    OneOfAName(vs, ConfigWrite(x, m, k), ConfigWrite(y, m, k));
    assert MetadataWrite(x, m, k) in vs && MetadataWrite(y, m, k) in vs;
    OneOfAName(vs, MetadataWrite(x, m, k), MetadataWrite(y, m, k));
    ConfigExactly(x, y, m, k);
  }

  lemma SameTreeShowsUncovered(x: Bake, y: Bake, m: string, k: Tools)
    requires k.Valid() && Ready(x, m, k) && Ready(y, m, k) && SameManifest(x, y, k)
    requires SameFiles(PlanOf(x, m, k).Writes(), PlanOf(y, m, k).Writes())
    ensures SameUncovered(x, y, m, k)
  {
    SameTreeShowsConfig(x, y, m, k);
    ManifestIsSymmetric(x, y, k);
    ModulesAreFound(x, y, m, k);
    ModulesAreFound(y, x, m, k);
  }

  /** Exactly when two bakes with the same manifest write the same pack: if and only if they
      also agree on what the manifest does not cover.  Otherwise the one that comes second is
      refused. */
  lemma SameManifestSameTreeExactly(x: Bake, y: Bake, m: string, k: Tools)
    requires k.Valid() && Ready(x, m, k) && Ready(y, m, k) && SameManifest(x, y, k)
    ensures PlanOf(x, m, k).Tree() == PlanOf(y, m, k).Tree() <==> SameUncovered(x, y, m, k)
  {
    if SameUncovered(x, y, m, k) {
      SameUncoveredGivesSamePlan(x, y, m, k);
    }
    if PlanOf(x, m, k).Tree() == PlanOf(y, m, k).Tree() {
      TreeExactly(PlanOf(x, m, k).Writes(), PlanOf(y, m, k).Writes());
      SameTreeShowsUncovered(x, y, m, k);
    }
  }

  /** So once one of them is published, the other can be published exactly when they agree on
      what the manifest does not cover. */
  lemma SecondBakePublishesExactly(root: Publication.Root, x: Bake, y: Bake, m: string, k: Tools)
    requires k.Valid() && Ready(x, m, k) && Ready(y, m, k) && SameManifest(x, y, k)
    ensures PublicationRuns.CanPublish(PublicationRuns.WithPack(root, PlanOf(x, m, k)), PlanOf(y, m, k)) <==>
            SameUncovered(x, y, m, k)
  {
    SameManifestSameTreeExactly(x, y, m, k);
    PublicationRuns.SecondPublishesExactly(root, PlanOf(x, m, k), PlanOf(y, m, k));
  }

  // ----- Names that collide

  lemma {:induction false} LastWriteStays(writes: seq<Publication.File>, n: nat, i: nat)
    requires i < n <= |writes| && forall j :: i < j < n ==> writes[j].name != writes[i].name
    ensures var tree := Publication.TreeAfter(writes, n);
            writes[i].name in tree && tree[writes[i].name] == writes[i].data
  {
    if i < n - 1 {
      LastWriteStays(writes, n - 1, i);
    }
  }

  /** What the baker does check about file names: catalogs and modules have different ones,
      and no module has that of a configuration. */
  ghost predicate NamesChecked(cs: seq<Publication.File>, ms: seq<Publication.File>) {
    DistinctFiles(cs + ms) && forall i :: 0 <= i < |ms| ==> ms[i].name != SERVER_CFG && ms[i].name != CLIENT_CFG
  }

  lemma FirstFileStays(c: Publication.File, d: Publication.File, cs: seq<Publication.File>, ms: seq<Publication.File>,
                       e: Publication.File)
    requires c.name == SERVER_CFG && d.name == CLIENT_CFG && e.name == Publication.METADATA && NamesChecked(cs, ms)
    ensures var all := Listed(c, d, cs, ms) + [e];
            var tree := Publication.TreeAfter(all, |all|);
            SERVER_CFG in tree
            && (tree[SERVER_CFG] == c.data <==> forall f :: f in cs && f.name == SERVER_CFG ==> f.data == c.data)
  {
    var all := Listed(c, d, cs, ms) + [e];
    assert all[0] == c && all[1] == d && all[|all| - 1] == e;
    assert forall j :: 2 <= j < |all| - 1 ==> all[j] == (cs + ms)[j - 2];
    if j :| 0 <= j < |cs| && cs[j].name == SERVER_CFG {
      assert (cs + ms)[j] == cs[j];
      LastWriteStays(all, |all|, 2 + j);
      forall f | f in cs && f.name == SERVER_CFG
        ensures f == cs[j]
      {
        var l :| 0 <= l < |cs| && cs[l] == f;
        assert (cs + ms)[l] == cs[l];
      }
    } else {
      forall j | 0 < j < |all|
        ensures all[j].name != SERVER_CFG
      {
        assert 2 <= j < 2 + |cs| ==> (cs + ms)[j - 2] == cs[j - 2];
        assert 2 + |cs| <= j < |all| - 1 ==> (cs + ms)[j - 2] == ms[j - 2 - |cs|];
      }
      LastWriteStays(all, |all|, 0);
    }
  }

  /** Exactly when a pack holds the server configuration that was rendered for it: unless a
      catalog that is itself called `server.cfg` is written over it with other bytes. */
  lemma ConfigIsKeptExactly(b: Bake, m: string, k: Tools)
    requires Prints(b, m, k) && NamesChecked(CatalogWrites(b.catalogs, m, k), ModuleWrites(b.modules))
    ensures var tree := PlanOf(b, m, k).Tree();
            SERVER_CFG in tree
            && (tree[SERVER_CFG] == ConfigWrite(b, m, k).data <==>
                forall f :: f in CatalogWrites(b.catalogs, m, k) && f.name == SERVER_CFG ==>
                  f.data == ConfigWrite(b, m, k).data)
  {
    FirstFileStays(ConfigWrite(b, m, k), ClientWrite(b, m, k), CatalogWrites(b.catalogs, m, k),
                   ModuleWrites(b.modules), MetadataWrite(b, m, k));
  }
}
