/**
 What a content manifest covers: the loadout in order, the meaning of the server and client
 configurations, the catalogs and the script modules.
 */
module Manifest {
  import opened Bytes
  import opened Seqs
  import opened Text
  import opened Sorting
  import opened ServerConfig
  import opened ConfigRoundTrip
  import opened ManifestFraming

  /** A content file: its folded name and digest. */
  datatype File = File(name: string, digest: Blob)

  /** A server key that the manifest covers; for a catalog only its presence counts. */
  datatype ServerKey = ServerKey(key: string, required: bool, catalog: bool)

  /** Catalogs by key and script modules by folded name. */
  type Catalogs = seq<Item<string, Blob>>

  datatype Inputs = Inputs(
    loadout: seq<File>,
    server: seq<Assignment>,
    client: seq<Assignment>,
    catalogs: Catalogs,
    modules: Catalogs)

  /** The fixed key lists, and Python's text functions: UTF-8, decimal digits, and the reading
      of an `id=value` mapping, None where it is refused. */
  datatype Rules = Rules(
    serverKeys: seq<ServerKey>,
    singleKeys: seq<string>,
    mappingKeys: seq<string>,
    utf8: string -> Blob,
    digits: int -> string,
    mapping: string -> Option<Item<int, string>>)
  {
    predicate Reads(value: string) {
      mapping(value).Some?
    }

    function ItemOf(value: string): seq<Item<int, string>> {
      if mapping(value).Some? then [mapping(value).value] else []
    }

    ghost predicate Injective() {
      forall s, t :: utf8(s) == utf8(t) ==> s == t
    }
  }

  // ----- Configuration semantics

  /** `_one`: a single value, no value where that is allowed, or an exception. */
  function One(entries: seq<Assignment>, key: string, required: bool): Option<seq<string>> {
    var found := ValuesOf(entries, key);
    if |found| > 1 || (required && found == []) then None else Some(found)
  }

  function ServerLine(entries: seq<Assignment>, k: ServerKey): Option<seq<string>> {
    var found := One(entries, k.key, k.required);
    if found.None? then None
    else if found.value == [] then Some([])
    else Some([k.key + "=" + if k.catalog then "present" else found.value[0]])
  }

  function ServerLines(entries: seq<Assignment>, keys: seq<ServerKey>): Option<seq<string>> {
    if keys == [] then Some([])
    else
      var line, rest := ServerLine(entries, keys[0]), ServerLines(entries, keys[1..]);
      if line.None? || rest.None? then None else Some(line.value + rest.value)
  }

  function SingleLines(entries: seq<Assignment>, keys: seq<string>): Option<seq<string>> {
    if keys == [] then Some([])
    else
      var found, rest := One(entries, keys[0], true), SingleLines(entries, keys[1..]);
      if found.None? || rest.None? then None else Some([keys[0] + "=" + found.value[0]] + rest.value)
  }

  predicate NoRepeats(items: seq<Item<int, string>>) {
    forall i, j :: 0 <= i < j < |items| ==> items[i].key != items[j].key
  }

  /** `sorted(_mapping_values(entries, key).items())`; a repeated id is refused. */
  function Mapping(entries: seq<Assignment>, key: string, rules: Rules): Option<seq<Item<int, string>>> {
    var values := ValuesOf(entries, key);
    var items := FlatMap(rules.ItemOf, values);
    if !AllOf(rules.Reads, values) || !NoRepeats(items) then None else Some(Sort(IntLess, items))
  }

  function MappingText(key: string, items: seq<Item<int, string>>, rules: Rules): seq<string> {
    if items == [] then []
    else [key + "=" + rules.digits(items[0].key) + "=" + items[0].value] + MappingText(key, items[1..], rules)
  }

  function MappingLines(entries: seq<Assignment>, keys: seq<string>, rules: Rules): Option<seq<string>> {
    if keys == [] then Some([])
    else
      var items, rest := Mapping(entries, keys[0], rules), MappingLines(entries, keys[1..], rules);
      if items.None? || rest.None? then None else Some(MappingText(keys[0], items.value, rules) + rest.value)
  }

  /** `_canonical_server_semantics`. */
  function ServerText(entries: seq<Assignment>, rules: Rules): Option<string> {
    var lines := ServerLines(entries, rules.serverKeys);
    if lines.None? then None else Some(Join(lines.value))
  }

  /** `_canonical_client_semantics`. */
  function ClientText(entries: seq<Assignment>, rules: Rules): Option<string> {
    var single := SingleLines(entries, rules.singleKeys);
    var mapped := MappingLines(entries, rules.mappingKeys, rules);
    if single.None? || mapped.None? then None else Some(Join(single.value + mapped.value))
  }

  // ----- The entries

  const LOADOUT := "loadout/"
  const SERVER := "server"
  const CLIENT := "client"
  const CATALOG := "catalog/"
  const MODULE := "script_module/"

  function LoadoutLabel(i: nat, name: string, rules: Rules): string {
    LOADOUT + rules.digits(i) + "/" + name
  }

  /** An entry before its label is encoded. */
  datatype Covering = Covering(name: string, payload: Blob)

  function LoadoutPart(loadout: seq<File>, rules: Rules): (r: seq<Covering>)
    ensures |r| == |loadout|
    ensures forall i :: 0 <= i < |r| ==> r[i] == Covering(LoadoutLabel(i, loadout[i].name, rules), loadout[i].digest)
  {
    seq(|loadout|, i requires 0 <= i < |loadout| =>
      Covering(LoadoutLabel(i, loadout[i].name, rules), loadout[i].digest))
  }

  function KeyedPart(prefix: string, items: Catalogs): (r: seq<Covering>)
    ensures |r| == |items|
    ensures forall i :: 0 <= i < |r| ==> r[i] == Covering(prefix + items[i].key, items[i].value)
  {
    seq(|items|, i requires 0 <= i < |items| => Covering(prefix + items[i].key, items[i].value))
  }

  /** Everything a manifest covers, in the order it is hashed. */
  datatype Contents = Contents(loadout: seq<File>, server: Blob, client: Blob, catalogs: Catalogs, modules: Catalogs) {
    function Parts(rules: Rules): seq<Covering> {
      LoadoutPart(loadout, rules)
      + ([Covering(SERVER, server), Covering(CLIENT, client)]
         + (KeyedPart(CATALOG, catalogs) + KeyedPart(MODULE, modules)))
    }
  }

  function Encoded(parts: seq<Covering>, rules: Rules): (r: seq<Entry>)
    ensures |r| == |parts|
    ensures forall i :: 0 <= i < |r| ==> r[i] == Entry(rules.utf8(parts[i].name), parts[i].payload)
  {
    seq(|parts|, i requires 0 <= i < |parts| => Entry(rules.utf8(parts[i].name), parts[i].payload))
  }

  /** What `compute_manifest` covers: None where an exception is raised. */
  function Covered(x: Inputs, rules: Rules): Option<Contents> {
    var server, client := ServerText(x.server, rules), ClientText(x.client, rules);
    if server.None? || client.None? then None
    else Some(Contents(x.loadout, rules.utf8(server.value), rules.utf8(client.value),
                       Sort(TextLess, x.catalogs), Sort(TextLess, x.modules)))
  }

  /** The stream whose SHA-256 is the manifest. */
  function Stream(c: Contents, rules: Rules): Blob {
    Preimage(Encoded(c.Parts(rules), rules))
  }

  // ----- The hashing loops

  function FramesOf(parts: seq<Covering>, rules: Rules): Blob {
    Frames(Encoded(parts, rules))
  }

  lemma FramesOfConcat(xs: seq<Covering>, ys: seq<Covering>, rules: Rules)
    ensures FramesOf(xs + ys, rules) == FramesOf(xs, rules) + FramesOf(ys, rules)
  {
    FlatMapConcat(Frame, Encoded(xs, rules), Encoded(ys, rules));
    assert Encoded(xs + ys, rules) == Encoded(xs, rules) + Encoded(ys, rules);
  }

  lemma FramesOfOne(c: Covering, rules: Rules)
    ensures FramesOf([c], rules) == Frame(Entry(rules.utf8(c.name), c.payload))
  {
    var e := Entry(rules.utf8(c.name), c.payload);
    assert Encoded([c], rules) == [e];
    FlatMapOne(Frame, e);
  }

  /** `add` for one label. */
  method AddPart(stream: Blob, c: Covering, ghost before: Blob, ghost done: seq<Covering>, rules: Rules)
    returns (r: Blob)
    requires stream == before + FramesOf(done, rules)
    ensures r == before + FramesOf(done + [c], rules)
  {
    r := Add(stream, Entry(rules.utf8(c.name), c.payload));
    FramesOfOne(c, rules);
    FramesOfConcat(done, [c], rules);
    assert (before + FramesOf(done, rules)) + FramesOf([c], rules) ==
      before + (FramesOf(done, rules) + FramesOf([c], rules));
  }

  method AddLoadout(stream: Blob, loadout: seq<File>, rules: Rules) returns (r: Blob)
    ensures r == stream + FramesOf(LoadoutPart(loadout, rules), rules)
  {
    r := stream;
    ghost var parts := LoadoutPart(loadout, rules);
    for index := 0 to |loadout|
      invariant r == stream + FramesOf(parts[..index], rules)
    {
      r := AddPart(r, Covering(LoadoutLabel(index, loadout[index].name, rules), loadout[index].digest),
                   stream, parts[..index], rules);
      assert parts[..index + 1] == parts[..index] + [parts[index]];
    }
    assert parts[..|loadout|] == parts;
  }

  method AddKeyed(stream: Blob, prefix: string, items: Catalogs, rules: Rules) returns (r: Blob)
    ensures r == stream + FramesOf(KeyedPart(prefix, items), rules)
  {
    r := stream;
    ghost var parts := KeyedPart(prefix, items);
    for i := 0 to |items|
      invariant r == stream + FramesOf(parts[..i], rules)
    {
      r := AddPart(r, Covering(prefix + items[i].key, items[i].value), stream, parts[..i], rules);
      assert parts[..i + 1] == parts[..i] + [parts[i]];
    }
    assert parts[..|items|] == parts;
  }

  /** The two configuration entries. */
  method AddConfigs(stream: Blob, server: Blob, client: Blob, rules: Rules) returns (r: Blob)
    ensures r == stream + FramesOf([Covering(SERVER, server), Covering(CLIENT, client)], rules)
  {
    var x, y := Covering(SERVER, server), Covering(CLIENT, client);
    assert stream + FramesOf([], rules) == stream;
    r := AddPart(stream, x, stream, [], rules);
    assert [] + [x] == [x] && [x] + [y] == [x, y];
    r := AddPart(r, y, stream, [x], rules);
  }

  /** The parts of a manifest, appended one after the other, are its stream. */
  lemma PartsMakeStream(c: Contents, rules: Rules)
    ensures Stream(c, rules) ==
            HASH_DOMAIN + FramesOf(LoadoutPart(c.loadout, rules), rules)
            + FramesOf([Covering(SERVER, c.server), Covering(CLIENT, c.client)], rules)
            + FramesOf(KeyedPart(CATALOG, c.catalogs), rules) + FramesOf(KeyedPart(MODULE, c.modules), rules)
  {
    var files, configs := LoadoutPart(c.loadout, rules), [Covering(SERVER, c.server), Covering(CLIENT, c.client)];
    var cats, mods := KeyedPart(CATALOG, c.catalogs), KeyedPart(MODULE, c.modules);
    FramesOfConcat(cats, mods, rules);
    FramesOfConcat(configs, cats + mods, rules);
    FramesOfConcat(files, configs + (cats + mods), rules);
    FiveParts(HASH_DOMAIN, FramesOf(files, rules), FramesOf(configs, rules),
              FramesOf(cats, rules), FramesOf(mods, rules));
  }

  lemma FiveParts(a: Blob, b: Blob, c: Blob, d: Blob, e: Blob)
    ensures a + (b + (c + (d + e))) == a + b + c + d + e
  {
    Regroup(a + b + c, d, e);
    Regroup(a + b, c, d + e);
    Regroup(a, b, c + (d + e));
  }

  /** `compute_manifest`, up to the digest of the stream: None where a configuration is
      refused. */
  method ComputeManifest(x: Inputs, rules: Rules) returns (stream: Option<Blob>)
    ensures stream.Some? <==> Covered(x, rules).Some?
    ensures stream.Some? ==> stream.value == Stream(Covered(x, rules).value, rules)
  {
    var server, client := ServerText(x.server, rules), ClientText(x.client, rules);
    if server.None? || client.None? {
      return None;
    }
    var r := AddLoadout(HASH_DOMAIN, x.loadout, rules);
    r := AddConfigs(r, rules.utf8(server.value), rules.utf8(client.value), rules);
    r := AddKeyed(r, CATALOG, Sort(TextLess, x.catalogs), rules);
    r := AddKeyed(r, MODULE, Sort(TextLess, x.modules), rules);
    PartsMakeStream(Covered(x, rules).value, rules);
    return Some(r);
  }

  // ----- Canonical: order does not matter

  lemma {:induction false} ValuesPermuted(xs: seq<Assignment>, ys: seq<Assignment>, key: string)
    requires multiset(xs) == multiset(ys)
    ensures multiset(ValuesOf(xs, key)) == multiset(ValuesOf(ys, key))
    decreases |xs|
  {
    if xs == [] {
      assert |multiset(ys)| == 0;
    } else {
      var m := MatchHead(xs, ys);
      var before, after := ys[..m], ys[m + 1..];
      ValuesPermuted(xs[1..], before + after, key);
      ValuesConcat(before, [xs[0]] + after, key);
      ValuesConcat([xs[0]], after, key);
      ValuesConcat(before, after, key);
      ValuesConcat([xs[0]], xs[1..], key);
      assert xs == [xs[0]] + xs[1..];
    }
  }

  lemma OnePermuted(xs: seq<Assignment>, ys: seq<Assignment>, key: string, required: bool)
    requires multiset(xs) == multiset(ys)
    ensures One(xs, key, required) == One(ys, key, required)
  {
    ValuesPermuted(xs, ys, key);
    SameSingle(ValuesOf(xs, key), ValuesOf(ys, key));
  }

  lemma SameSingle(xs: seq<string>, ys: seq<string>)
    requires multiset(xs) == multiset(ys)
    ensures |xs| == |ys| && (|xs| <= 1 ==> xs == ys)
  {
    assert |multiset(xs)| == |xs| && |multiset(ys)| == |ys|;
    if |xs| == 1 {
      assert xs[0] in multiset(ys);
    }
  }

  lemma {:induction false} ServerLinesPermuted(xs: seq<Assignment>, ys: seq<Assignment>, keys: seq<ServerKey>)
    requires multiset(xs) == multiset(ys)
    ensures ServerLines(xs, keys) == ServerLines(ys, keys)
  {
    if keys != [] {
      OnePermuted(xs, ys, keys[0].key, keys[0].required);
      ServerLinesPermuted(xs, ys, keys[1..]);
    }
  }

  lemma {:induction false} SingleLinesPermuted(xs: seq<Assignment>, ys: seq<Assignment>, keys: seq<string>)
    requires multiset(xs) == multiset(ys)
    ensures SingleLines(xs, keys) == SingleLines(ys, keys)
  {
    if keys != [] {
      OnePermuted(xs, ys, keys[0], true);
      SingleLinesPermuted(xs, ys, keys[1..]);
    }
  }

  lemma MappingPermuted(xs: seq<Assignment>, ys: seq<Assignment>, key: string, rules: Rules)
    requires multiset(xs) == multiset(ys)
    ensures Mapping(xs, key, rules) == Mapping(ys, key, rules)
  {
    var vs, ws := ValuesOf(xs, key), ValuesOf(ys, key);
    ValuesPermuted(xs, ys, key);
    var items, others := FlatMap(rules.ItemOf, vs), FlatMap(rules.ItemOf, ws);
    FlatMapPermuted(rules.ItemOf, vs, ws);
    if AllOf(rules.Reads, vs) {
      AllOfPermuted(rules.Reads, vs, ws);
    }
    if AllOf(rules.Reads, ws) {
      AllOfPermuted(rules.Reads, ws, vs);
    }
    SortPermuted(items, others);
  }

  lemma SortPermuted(xs: seq<Item<int, string>>, ys: seq<Item<int, string>>)
    requires multiset(xs) == multiset(ys)
    ensures NoRepeats(xs) <==> NoRepeats(ys)
    ensures NoRepeats(xs) ==> Sort(IntLess, xs) == Sort(IntLess, ys)
  {
    if NoRepeats(xs) {
      DistinctPermuted(xs, ys);
      SortForgetsOrder(IntLess, xs, ys);
    }
    if NoRepeats(ys) {
      DistinctPermuted(ys, xs);
    }
  }

  lemma {:induction false} MappingLinesPermuted(xs: seq<Assignment>, ys: seq<Assignment>, keys: seq<string>,
                                                rules: Rules)
    requires multiset(xs) == multiset(ys)
    ensures MappingLines(xs, keys, rules) == MappingLines(ys, keys, rules)
  {
    if keys != [] {
      MappingPermuted(xs, ys, keys[0], rules);
      MappingLinesPermuted(xs, ys, keys[1..], rules);
    }
  }

  /** Canonical: with the key uniqueness that the loaders enforce, the hashed stream does not
      change when server assignments, client lines, catalogs or modules are reordered. */
  lemma OrderIsForgotten(x: Inputs, y: Inputs, rules: Rules)
    requires x.loadout == y.loadout
    requires multiset(x.server) == multiset(y.server) && multiset(x.client) == multiset(y.client)
    requires multiset(x.catalogs) == multiset(y.catalogs) && DistinctKeys(x.catalogs)
    requires multiset(x.modules) == multiset(y.modules) && DistinctKeys(x.modules)
    ensures Covered(x, rules) == Covered(y, rules)
  {
    ServerLinesPermuted(x.server, y.server, rules.serverKeys);
    SingleLinesPermuted(x.client, y.client, rules.singleKeys);
    MappingLinesPermuted(x.client, y.client, rules.mappingKeys, rules);
    TextOrder();
    SortForgetsOrder(TextLess, x.catalogs, y.catalogs);
    SortForgetsOrder(TextLess, x.modules, y.modules);
  }

  // ----- Canonical: where a catalog lies does not matter

  predicate IsCatalogKey(key: string, keys: seq<ServerKey>) {
    exists i :: 0 <= i < |keys| && keys[i].key == key && keys[i].catalog
  }

  /** The same assignments, except that catalog files may lie elsewhere. */
  predicate Moved(xs: seq<Assignment>, ys: seq<Assignment>, keys: seq<ServerKey>) {
    |xs| == |ys|
    && forall i :: 0 <= i < |xs| ==>
         xs[i].key == ys[i].key && (xs[i].value == ys[i].value || IsCatalogKey(xs[i].key, keys))
  }

  lemma {:induction false} MovedValues(xs: seq<Assignment>, ys: seq<Assignment>, keys: seq<ServerKey>, key: string)
    requires Moved(xs, ys, keys)
    ensures |ValuesOf(xs, key)| == |ValuesOf(ys, key)|
    ensures !IsCatalogKey(key, keys) ==> ValuesOf(xs, key) == ValuesOf(ys, key)
  {
    if xs != [] {
      assert forall i :: 0 <= i < |xs[1..]| ==> xs[1..][i] == xs[i + 1] && ys[1..][i] == ys[i + 1];
      MovedValues(xs[1..], ys[1..], keys, key);
    }
  }

  lemma {:induction false} MovedLines(xs: seq<Assignment>, ys: seq<Assignment>, keys: seq<ServerKey>,
                                      some: seq<ServerKey>)
    requires Moved(xs, ys, keys)
    requires forall i :: 0 <= i < |some| ==> (some[i].catalog <==> IsCatalogKey(some[i].key, keys))
    ensures ServerLines(xs, some) == ServerLines(ys, some)
  {
    if some != [] {
      MovedValues(xs, ys, keys, some[0].key);
      MovedLines(xs, ys, keys, some[1..]);
    }
  }

  /** Moving catalog files leaves the hashed stream as it is. */
  lemma PlaceIsForgotten(x: Inputs, server: seq<Assignment>, rules: Rules)
    requires Moved(x.server, server, rules.serverKeys)
    requires forall i, j :: 0 <= i < j < |rules.serverKeys| ==> rules.serverKeys[i].key != rules.serverKeys[j].key
    ensures Covered(x.(server := server), rules) == Covered(x, rules)
  {
    var keys := rules.serverKeys;
    forall i | 0 <= i < |keys|
      ensures keys[i].catalog <==> IsCatalogKey(keys[i].key, keys)
    {
      if IsCatalogKey(keys[i].key, keys) {
        var j :| 0 <= j < |keys| && keys[j].key == keys[i].key && keys[j].catalog;
        assert i == j;
      }
    }
    MovedLines(x.server, server, keys, keys);
  }

  // ----- Injective: equal streams cover the same things

  lemma EncodedInjective(xs: seq<Covering>, ys: seq<Covering>, rules: Rules)
    requires rules.Injective() && Encoded(xs, rules) == Encoded(ys, rules)
    ensures xs == ys
  {
    assert |xs| == |ys|;
    forall i | 0 <= i < |xs|
      ensures xs[i] == ys[i]
    {
      assert Encoded(xs, rules)[i] == Encoded(ys, rules)[i];
    }
  }

  predicate IsLoadout(c: Covering) {
    c.name != "" && c.name[0] == 'l'
  }

  predicate IsCatalog(c: Covering) {
    |c.name| > 1 && c.name[0] == 'c' && c.name[1] == 'a'
  }

  lemma LoadoutPartKind(loadout: seq<File>, rules: Rules)
    ensures AllOf(IsLoadout, LoadoutPart(loadout, rules))
  {
  }

  lemma KeyedPartInjective(prefix: string, xs: Catalogs, ys: Catalogs)
    requires KeyedPart(prefix, xs) == KeyedPart(prefix, ys)
    ensures xs == ys
  {
    assert |xs| == |ys|;
    forall i | 0 <= i < |xs|
      ensures xs[i] == ys[i]
    {
      assert KeyedPart(prefix, xs)[i] == KeyedPart(prefix, ys)[i];
      assert (prefix + xs[i].key)[|prefix|..] == xs[i].key && (prefix + ys[i].key)[|prefix|..] == ys[i].key;
    }
  }

  lemma LoadoutPartInjective(xs: seq<File>, ys: seq<File>, rules: Rules)
    requires LoadoutPart(xs, rules) == LoadoutPart(ys, rules)
    ensures xs == ys
  {
    assert |xs| == |ys|;
    forall i | 0 <= i < |xs|
      ensures xs[i] == ys[i]
    {
      assert LoadoutPart(xs, rules)[i] == LoadoutPart(ys, rules)[i];
      var prefix := LOADOUT + rules.digits(i) + "/";
      assert (prefix + xs[i].name)[|prefix|..] == xs[i].name && (prefix + ys[i].name)[|prefix|..] == ys[i].name;
    }
  }

  /** The part after the loadout: two fixed entries, then catalogs, then modules. */
  function Tail(c: Contents): seq<Covering> {
    [Covering(SERVER, c.server), Covering(CLIENT, c.client)]
    + (KeyedPart(CATALOG, c.catalogs) + KeyedPart(MODULE, c.modules))
  }

  lemma TailInjective(c: Contents, d: Contents)
    requires Tail(c) == Tail(d)
    ensures c.server == d.server && c.client == d.client && c.catalogs == d.catalogs && c.modules == d.modules
  {
    assert Tail(c)[0] == Tail(d)[0] && Tail(c)[1] == Tail(d)[1];
    assert Tail(c)[2..] == KeyedPart(CATALOG, c.catalogs) + KeyedPart(MODULE, c.modules);
    assert Tail(d)[2..] == KeyedPart(CATALOG, d.catalogs) + KeyedPart(MODULE, d.modules);
    SplitByKind(IsCatalog, KeyedPart(CATALOG, c.catalogs), KeyedPart(MODULE, c.modules),
                KeyedPart(CATALOG, d.catalogs), KeyedPart(MODULE, d.modules));
    KeyedPartInjective(CATALOG, c.catalogs, d.catalogs);
    KeyedPartInjective(MODULE, c.modules, d.modules);
  }

  /** Injective: two packs with the same stream have the same loadout in the same order with
      the same digests, the same configuration texts, catalogs and modules. */
  lemma StreamInjective(c: Contents, d: Contents, rules: Rules)
    requires rules.Injective()
    requires AllFit(Encoded(c.Parts(rules), rules)) && AllFit(Encoded(d.Parts(rules), rules))
    requires Stream(c, rules) == Stream(d, rules)
    ensures c == d
  {
    PreimageInjective(Encoded(c.Parts(rules), rules), Encoded(d.Parts(rules), rules));
    EncodedInjective(c.Parts(rules), d.Parts(rules), rules);
    LoadoutPartKind(c.loadout, rules);
    LoadoutPartKind(d.loadout, rules);
    SplitByKind(IsLoadout, LoadoutPart(c.loadout, rules), Tail(c), LoadoutPart(d.loadout, rules), Tail(d));
    LoadoutPartInjective(c.loadout, d.loadout, rules);
    TailInjective(c, d);
  }
}
