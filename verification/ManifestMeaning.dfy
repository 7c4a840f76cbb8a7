/**
 What an equal manifest stream means for the inputs of a bake: the same loadout, the same
 value of every covered key, the same client mappings, and the same catalogs and modules up
 to order; and nothing else.
 */
module ManifestMeaning {
  import opened Bytes
  import opened Seqs
  import opened Text
  import opened Sorting
  import opened ServerConfig
  import opened ConfigRoundTrip
  import opened ManifestFraming
  import opened Manifest

  // ----- Lines grouped by key

  predicate KeyFits(key: string) {
    NoBreaks(key) && forall i :: 0 <= i < |key| ==> key[i] != '='
  }

  /** Lines that assign this key. */
  function Keyed(key: string): string -> bool {
    (line: string) => Before(line) == key
  }

  lemma KeyOfLine(key: string, rest: string)
    requires KeyFits(key)
    ensures Before(key + "=" + rest) == key
  {
    var line := key + "=" + rest;
    BeforeUnique(line, |key|);
    assert line[..|key|] == key;
  }

  lemma LineInjective(key: string, x: string, y: string)
    requires key + "=" + x == key + "=" + y
    ensures x == y
  {
    assert (key + "=" + x)[|key| + 1..] == x && (key + "=" + y)[|key| + 1..] == y;
  }

  /** Each element gives lines that all assign its own key. */
  ghost predicate OwnLines<A>(f: A -> seq<string>, key: A -> string, xs: seq<A>) {
    forall i :: 0 <= i < |xs| ==> AllOf(Keyed(key(xs[i])), f(xs[i]))
  }

  ghost predicate DistinctNames<A>(key: A -> string, xs: seq<A>) {
    forall i, j :: 0 <= i < j < |xs| ==> key(xs[i]) != key(xs[j])
  }

  lemma OtherLines(name: string, other: string, lines: seq<string>)
    requires AllOf(Keyed(other), lines) && name != other
    ensures Filter(Keyed(name), lines) == []
  {
    FilterNone(Keyed(name), lines);
  }

  lemma {:induction false} NoLines<A>(f: A -> seq<string>, key: A -> string, xs: seq<A>, name: string)
    requires OwnLines(f, key, xs) && forall i :: 0 <= i < |xs| ==> key(xs[i]) != name
    ensures Filter(Keyed(name), FlatMap(f, xs)) == []
  {
    if xs != [] {
      assert AllOf(Keyed(key(xs[0])), f(xs[0]));
      OtherLines(name, key(xs[0]), f(xs[0]));
      assert forall i :: 0 <= i < |xs[1..]| ==> xs[1..][i] == xs[i + 1];
      NoLines(f, key, xs[1..], name);
      FilterConcat(Keyed(name), f(xs[0]), FlatMap(f, xs[1..]));
    }
  }

  /** The lines of one element can be picked out again. */
  lemma {:induction false} PickLines<A>(f: A -> seq<string>, key: A -> string, xs: seq<A>, i: nat)
    requires OwnLines(f, key, xs) && DistinctNames(key, xs) && i < |xs|
    ensures Filter(Keyed(key(xs[i])), FlatMap(f, xs)) == f(xs[i])
  {
    var name, rest := key(xs[i]), xs[1..];
    assert forall j :: 0 <= j < |rest| ==> rest[j] == xs[j + 1];
    FilterConcat(Keyed(name), f(xs[0]), FlatMap(f, rest));
    assert AllOf(Keyed(key(xs[0])), f(xs[0]));
    if i == 0 {
      FilterAll(Keyed(name), f(xs[0]));
      NoLines(f, key, rest, name);
      assert f(xs[0]) + [] == f(xs[0]);
    } else {
      OtherLines(name, key(xs[0]), f(xs[0]));
      PickLines(f, key, rest, i - 1);
      assert [] + f(xs[i]) == f(xs[i]);
    }
  }

  lemma {:induction false} SameBlocks<A>(f: A -> seq<string>, g: A -> seq<string>, xs: seq<A>)
    requires forall i :: 0 <= i < |xs| ==> f(xs[i]) == g(xs[i])
    ensures FlatMap(f, xs) == FlatMap(g, xs)
  {
    if xs != [] {
      SameBlocks(f, g, xs[1..]);
    }
  }

  /** Texts made of keyed lines are the same exactly when the lines of every key are. */
  lemma BlocksExactly<A>(f: A -> seq<string>, g: A -> seq<string>, key: A -> string, xs: seq<A>)
    requires OwnLines(f, key, xs) && OwnLines(g, key, xs) && DistinctNames(key, xs)
    ensures FlatMap(f, xs) == FlatMap(g, xs) <==> forall i :: 0 <= i < |xs| ==> f(xs[i]) == g(xs[i])
  {
    if FlatMap(f, xs) == FlatMap(g, xs) {
      forall i | 0 <= i < |xs|
        ensures f(xs[i]) == g(xs[i])
      {
        PickLines(f, key, xs, i);
        PickLines(g, key, xs, i);
      }
    }
    if forall i :: 0 <= i < |xs| ==> f(xs[i]) == g(xs[i]) {
      SameBlocks(f, g, xs);
    }
  }

  lemma JoinInjective(xs: seq<string>, ys: seq<string>)
    requires AllOf(NoBreaks, xs) && AllOf(NoBreaks, ys) && Join(xs) == Join(ys)
    ensures xs == ys
  {
    SplitOfJoin(xs);
    SplitOfJoin(ys);
  }

  // ----- The rules

  /** A client key and how it is read. */
  datatype ClientKey = Single(key: string) | Mapped(key: string)

  function KeyOfServer(k: ServerKey): string { k.key }

  function KeyOfClient(k: ClientKey): string { k.key }

  function Singles(keys: seq<string>): (r: seq<ClientKey>)
    ensures |r| == |keys| && forall i :: 0 <= i < |r| ==> r[i] == Single(keys[i])
  {
    seq(|keys|, i requires 0 <= i < |keys| => Single(keys[i]))
  }

  function Mappeds(keys: seq<string>): (r: seq<ClientKey>)
    ensures |r| == |keys| && forall i :: 0 <= i < |r| ==> r[i] == Mapped(keys[i])
  {
    seq(|keys|, i requires 0 <= i < |keys| => Mapped(keys[i]))
  }

  function ClientKeys(rules: Rules): seq<ClientKey> {
    Singles(rules.singleKeys) + Mappeds(rules.mappingKeys)
  }

  /** The key lists name each key once, digits are decimal digits, and a mapping's value is
      part of the line it is read from. */
  ghost predicate Regular(rules: Rules) {
    && rules.Injective()
    && DistinctNames(KeyOfServer, rules.serverKeys) && DistinctNames(KeyOfClient, ClientKeys(rules))
    && (forall k :: k in rules.serverKeys ==> KeyFits(k.key))
    && (forall k :: k in ClientKeys(rules) ==> KeyFits(k.key))
    && (forall n :: KeyFits(rules.digits(n)))
    && (forall m, n :: rules.digits(m) == rules.digits(n) ==> m == n)
    && (forall v :: NoBreaks(v) && rules.mapping(v).Some? ==> NoBreaks(rules.mapping(v).value.value))
  }

  /** Values as they come from the lines of a file. */
  predicate CleanValues(entries: seq<Assignment>) {
    forall i :: 0 <= i < |entries| ==> NoBreaks(entries[i].value)
  }

  lemma {:induction false} ValuesAreClean(entries: seq<Assignment>, key: string)
    requires CleanValues(entries)
    ensures AllOf(NoBreaks, ValuesOf(entries, key))
  {
    if entries != [] {
      ValuesAreClean(entries[1..], key);
      var head := if entries[0].key == key then [entries[0].value] else [];
      AllOfConcat(NoBreaks, head, ValuesOf(entries[1..], key));
    }
  }

  // ----- Server

  function ServerBlock(entries: seq<Assignment>): ServerKey -> seq<string> {
    (k: ServerKey) => if ServerLine(entries, k).Some? then ServerLine(entries, k).value else []
  }

  lemma {:induction false} ServerBlocks(entries: seq<Assignment>, keys: seq<ServerKey>)
    requires ServerLines(entries, keys).Some?
    ensures ServerLines(entries, keys).value == FlatMap(ServerBlock(entries), keys)
    ensures forall i :: 0 <= i < |keys| ==> ServerLine(entries, keys[i]).Some?
  {
    if keys != [] {
      ServerBlocks(entries, keys[1..]);
    }
  }

  lemma ServerBlockLines(entries: seq<Assignment>, k: ServerKey)
    requires CleanValues(entries) && KeyFits(k.key)
    ensures AllOf(Keyed(k.key), ServerBlock(entries)(k)) && AllOf(NoBreaks, ServerBlock(entries)(k))
  {
    var found := ValuesOf(entries, k.key);
    ValuesAreClean(entries, k.key);
    if found != [] {
      var value := if k.catalog then "present" else found[0];
      assert NoBreaks("present") && !IsBreak('=');
      KeyOfLine(k.key, value);
      assert NoBreaks(k.key + "=" + value);
    }
  }

  /** The same value, or for a catalog the same presence. */
  predicate SameServerValue(xs: seq<Assignment>, ys: seq<Assignment>, k: ServerKey) {
    var found, found' := ValuesOf(xs, k.key), ValuesOf(ys, k.key);
    if k.catalog then found == [] <==> found' == [] else found == found'
  }

  lemma ServerBlockExactly(xs: seq<Assignment>, ys: seq<Assignment>, k: ServerKey)
    requires ServerLine(xs, k).Some? && ServerLine(ys, k).Some?
    ensures ServerBlock(xs)(k) == ServerBlock(ys)(k) <==> SameServerValue(xs, ys, k)
  {
    var found, found' := ValuesOf(xs, k.key), ValuesOf(ys, k.key);
    if !k.catalog && found != [] && found' != [] && ServerBlock(xs)(k) == ServerBlock(ys)(k) {
      assert ServerBlock(xs)(k)[0] == ServerBlock(ys)(k)[0];
      LineInjective(k.key, found[0], found'[0]);
    }
  }

  lemma ServerOwnLines(entries: seq<Assignment>, keys: seq<ServerKey>)
    requires CleanValues(entries) && forall k :: k in keys ==> KeyFits(k.key)
    ensures OwnLines(ServerBlock(entries), KeyOfServer, keys)
    ensures AllOf(NoBreaks, FlatMap(ServerBlock(entries), keys))
  {
    forall i | 0 <= i < |keys|
      ensures AllOf(Keyed(KeyOfServer(keys[i])), ServerBlock(entries)(keys[i]))
      ensures AllOf(NoBreaks, ServerBlock(entries)(keys[i]))
    {
      ServerBlockLines(entries, keys[i]);
    }
    AllOfFlatMap(ServerBlock(entries), NoBreaks, keys);
  }

  lemma ServerTextExactly(xs: seq<Assignment>, ys: seq<Assignment>, rules: Rules)
    requires Regular(rules) && CleanValues(xs) && CleanValues(ys)
    requires ServerText(xs, rules).Some? && ServerText(ys, rules).Some?
    ensures ServerText(xs, rules) == ServerText(ys, rules) <==>
            forall i :: 0 <= i < |rules.serverKeys| ==> SameServerValue(xs, ys, rules.serverKeys[i])
  {
    var keys := rules.serverKeys;
    ServerBlocks(xs, keys);
    ServerBlocks(ys, keys);
    ServerOwnLines(xs, keys);
    ServerOwnLines(ys, keys);
    if ServerText(xs, rules) == ServerText(ys, rules) {
      JoinInjective(FlatMap(ServerBlock(xs), keys), FlatMap(ServerBlock(ys), keys));
    }
    BlocksExactly(ServerBlock(xs), ServerBlock(ys), KeyOfServer, keys);
    forall i | 0 <= i < |keys|
      ensures ServerBlock(xs)(keys[i]) == ServerBlock(ys)(keys[i]) <==> SameServerValue(xs, ys, keys[i])
    {
      ServerBlockExactly(xs, ys, keys[i]);
    }
  }

  // ----- Client

  function ClientBlock(entries: seq<Assignment>, rules: Rules): ClientKey -> seq<string> {
    (k: ClientKey) => BlockOf(entries, rules, k)
  }

  function BlockOf(entries: seq<Assignment>, rules: Rules, k: ClientKey): seq<string> {
    match k
    case Single(key) =>
      var found := One(entries, key, true);
      if found.Some? then [key + "=" + found.value[0]] else []
    case Mapped(key) =>
      var items := Mapping(entries, key, rules);
      if items.Some? then MappingText(key, items.value, rules) else []
  }

  lemma {:induction false} SingleBlocks(entries: seq<Assignment>, keys: seq<string>, rules: Rules)
    requires SingleLines(entries, keys).Some?
    ensures SingleLines(entries, keys).value == FlatMap(ClientBlock(entries, rules), Singles(keys))
    ensures forall i :: 0 <= i < |keys| ==> One(entries, keys[i], true).Some?
  {
    if keys != [] {
      SingleBlocks(entries, keys[1..], rules);
      assert Singles(keys)[1..] == Singles(keys[1..]);
    }
  }

  lemma {:induction false} MappedBlocks(entries: seq<Assignment>, keys: seq<string>, rules: Rules)
    requires MappingLines(entries, keys, rules).Some?
    ensures MappingLines(entries, keys, rules).value == FlatMap(ClientBlock(entries, rules), Mappeds(keys))
    ensures forall i :: 0 <= i < |keys| ==> Mapping(entries, keys[i], rules).Some?
  {
    if keys != [] {
      MappedBlocks(entries, keys[1..], rules);
      assert Mappeds(keys)[1..] == Mappeds(keys[1..]);
    }
  }

  lemma ClientBlocks(entries: seq<Assignment>, rules: Rules)
    requires ClientText(entries, rules).Some?
    ensures ClientText(entries, rules).value == Join(FlatMap(ClientBlock(entries, rules), ClientKeys(rules)))
    ensures forall i :: 0 <= i < |rules.singleKeys| ==> One(entries, rules.singleKeys[i], true).Some?
    ensures forall i :: 0 <= i < |rules.mappingKeys| ==> Mapping(entries, rules.mappingKeys[i], rules).Some?
  {
    SingleBlocks(entries, rules.singleKeys, rules);
    MappedBlocks(entries, rules.mappingKeys, rules);
    FlatMapConcat(ClientBlock(entries, rules), Singles(rules.singleKeys), Mappeds(rules.mappingKeys));
  }

  predicate CleanItem(item: Item<int, string>) {
    NoBreaks(item.value)
  }

  lemma ItemsAreClean(entries: seq<Assignment>, key: string, rules: Rules)
    requires Regular(rules) && CleanValues(entries) && Mapping(entries, key, rules).Some?
    ensures AllOf(CleanItem, Mapping(entries, key, rules).value)
  {
    var values := ValuesOf(entries, key);
    ValuesAreClean(entries, key);
    forall i | 0 <= i < |values|
      ensures AllOf(CleanItem, rules.ItemOf(values[i]))
    {
      assert NoBreaks(values[i]);
    }
    AllOfFlatMap(rules.ItemOf, CleanItem, values);
    var items := FlatMap(rules.ItemOf, values);
    SortContents(IntLess, items);
    AllOfPermuted(CleanItem, items, Sort(IntLess, items));
  }

  function ItemLine(key: string, item: Item<int, string>, rules: Rules): string {
    key + "=" + rules.digits(item.key) + "=" + item.value
  }

  lemma DigitsFit(rules: Rules, m: int, n: int)
    requires Regular(rules)
    ensures KeyFits(rules.digits(m)) && KeyFits(rules.digits(n))
    ensures rules.digits(m) == rules.digits(n) ==> m == n
  {
  }

  lemma ItemLineFits(key: string, item: Item<int, string>, rules: Rules)
    requires Regular(rules) && KeyFits(key) && CleanItem(item)
    ensures Before(ItemLine(key, item, rules)) == key && NoBreaks(ItemLine(key, item, rules))
  {
    var digits := rules.digits(item.key);
    DigitsFit(rules, item.key, item.key);
    var rest := digits + "=" + item.value;
    assert ItemLine(key, item, rules) == key + "=" + rest;
    KeyOfLine(key, rest);
    assert KeyFits(digits) && !IsBreak('=');
  }

  lemma ItemLineInjective(key: string, x: Item<int, string>, y: Item<int, string>, rules: Rules)
    requires Regular(rules) && ItemLine(key, x, rules) == ItemLine(key, y, rules)
    ensures x == y
  {
    var p, q := rules.digits(x.key), rules.digits(y.key);
    DigitsFit(rules, x.key, y.key);
    var r, s := p + "=" + x.value, q + "=" + y.value;
    assert ItemLine(key, x, rules) == key + "=" + r && ItemLine(key, y, rules) == key + "=" + s;
    LineInjective(key, r, s);
    KeyOfLine(p, x.value);
    KeyOfLine(q, y.value);
    LineInjective(p, x.value, y.value);
  }

  lemma {:induction false} MappingTextLines(key: string, items: seq<Item<int, string>>, rules: Rules)
    requires Regular(rules) && KeyFits(key) && AllOf(CleanItem, items)
    ensures AllOf(Keyed(key), MappingText(key, items, rules)) && AllOf(NoBreaks, MappingText(key, items, rules))
  {
    if items != [] {
      ItemLineFits(key, items[0], rules);
      MappingTextLines(key, items[1..], rules);
      var head, rest := [ItemLine(key, items[0], rules)], MappingText(key, items[1..], rules);
      AllOfConcat(Keyed(key), head, rest);
      AllOfConcat(NoBreaks, head, rest);
    }
  }

  lemma {:induction false} MappingTextInjective(key: string, xs: seq<Item<int, string>>,
                                                ys: seq<Item<int, string>>, rules: Rules)
    requires Regular(rules) && MappingText(key, xs, rules) == MappingText(key, ys, rules)
    ensures xs == ys
  {
    if xs != [] && ys != [] {
      var xt, yt := MappingText(key, xs[1..], rules), MappingText(key, ys[1..], rules);
      assert MappingText(key, xs, rules)[0] == MappingText(key, ys, rules)[0];
      ItemLineInjective(key, xs[0], ys[0], rules);
      assert MappingText(key, xs, rules)[1..] == xt && MappingText(key, ys, rules)[1..] == yt;
      MappingTextInjective(key, xs[1..], ys[1..], rules);
      assert xs == [xs[0]] + xs[1..] && ys == [ys[0]] + ys[1..];
    }
  }

  lemma ClientBlockLines(entries: seq<Assignment>, rules: Rules, k: ClientKey)
    requires Regular(rules) && CleanValues(entries) && KeyFits(k.key)
    ensures AllOf(Keyed(k.key), BlockOf(entries, rules, k)) && AllOf(NoBreaks, BlockOf(entries, rules, k))
  {
    match k
    case Single(key) =>
      var found := ValuesOf(entries, key);
      ValuesAreClean(entries, key);
      if found != [] {
        KeyOfLine(key, found[0]);
        assert NoBreaks(found[0]) && !IsBreak('=');
        assert NoBreaks(key + "=" + found[0]);
      }
    case Mapped(key) =>
      if Mapping(entries, key, rules).Some? {
        ItemsAreClean(entries, key, rules);
        MappingTextLines(key, Mapping(entries, key, rules).value, rules);
      }
  }

  lemma ClientOwnLines(entries: seq<Assignment>, rules: Rules)
    requires Regular(rules) && CleanValues(entries)
    ensures OwnLines(ClientBlock(entries, rules), KeyOfClient, ClientKeys(rules))
    ensures AllOf(NoBreaks, FlatMap(ClientBlock(entries, rules), ClientKeys(rules)))
  {
    var keys := ClientKeys(rules);
    forall i | 0 <= i < |keys|
      ensures AllOf(Keyed(KeyOfClient(keys[i])), ClientBlock(entries, rules)(keys[i]))
      ensures AllOf(NoBreaks, ClientBlock(entries, rules)(keys[i]))
    {
      assert keys[i] in keys;
      ClientBlockLines(entries, rules, keys[i]);
    }
    AllOfFlatMap(ClientBlock(entries, rules), NoBreaks, keys);
  }

  /** The same value of a single key, or the same mapping from ids to values. */
  predicate SameClientValue(xs: seq<Assignment>, ys: seq<Assignment>, rules: Rules, k: ClientKey) {
    match k
    case Single(key) => ValuesOf(xs, key) == ValuesOf(ys, key)
    case Mapped(key) => Mapping(xs, key, rules) == Mapping(ys, key, rules)
  }

  ghost predicate Readable(entries: seq<Assignment>, rules: Rules, k: ClientKey) {
    match k
    case Single(key) => One(entries, key, true).Some?
    case Mapped(key) => Mapping(entries, key, rules).Some?
  }

  lemma ClientBlockExactly(xs: seq<Assignment>, ys: seq<Assignment>, rules: Rules, k: ClientKey)
    requires Regular(rules) && Readable(xs, rules, k) && Readable(ys, rules, k)
    ensures BlockOf(xs, rules, k) == BlockOf(ys, rules, k) <==> SameClientValue(xs, ys, rules, k)
  {
    if BlockOf(xs, rules, k) == BlockOf(ys, rules, k) {
      match k
      case Single(key) =>
        var found, found' := ValuesOf(xs, key), ValuesOf(ys, key);
        assert BlockOf(xs, rules, k)[0] == BlockOf(ys, rules, k)[0];
        LineInjective(key, found[0], found'[0]);
      case Mapped(key) =>
        MappingTextInjective(key, Mapping(xs, key, rules).value, Mapping(ys, key, rules).value, rules);
    }
  }

  lemma ClientTextExactly(xs: seq<Assignment>, ys: seq<Assignment>, rules: Rules)
    requires Regular(rules) && CleanValues(xs) && CleanValues(ys)
    requires ClientText(xs, rules).Some? && ClientText(ys, rules).Some?
    ensures ClientText(xs, rules) == ClientText(ys, rules) <==>
            forall i :: 0 <= i < |ClientKeys(rules)| ==> SameClientValue(xs, ys, rules, ClientKeys(rules)[i])
  {
    var keys, f, g := ClientKeys(rules), ClientBlock(xs, rules), ClientBlock(ys, rules);
    ClientBlocks(xs, rules);
    ClientBlocks(ys, rules);
    ClientOwnLines(xs, rules);
    ClientOwnLines(ys, rules);
    if ClientText(xs, rules) == ClientText(ys, rules) {
      JoinInjective(FlatMap(f, keys), FlatMap(g, keys));
    }
    BlocksExactly(f, g, KeyOfClient, keys);
    forall i | 0 <= i < |keys|
      ensures f(keys[i]) == g(keys[i]) <==> SameClientValue(xs, ys, rules, keys[i])
    {
      ClientBlockExactly(xs, ys, rules, keys[i]);
    }
  }

  // ----- The manifest

  ghost predicate SameMeaning(x: Inputs, y: Inputs, rules: Rules) {
    && x.loadout == y.loadout
    && (forall i :: 0 <= i < |rules.serverKeys| ==> SameServerValue(x.server, y.server, rules.serverKeys[i]))
    && (forall i :: 0 <= i < |ClientKeys(rules)| ==> SameClientValue(x.client, y.client, rules, ClientKeys(rules)[i]))
    && multiset(x.catalogs) == multiset(y.catalogs)
    && multiset(x.modules) == multiset(y.modules)
  }

  lemma SortExactly(xs: Catalogs, ys: Catalogs)
    requires DistinctKeys(xs)
    ensures Sort(TextLess, xs) == Sort(TextLess, ys) <==> multiset(xs) == multiset(ys)
  {
    SortContents(TextLess, xs);
    SortContents(TextLess, ys);
    if multiset(xs) == multiset(ys) {
      TextOrder();
      SortForgetsOrder(TextLess, xs, ys);
    }
  }

  /** Inputs a bake can have: their configurations are accepted, values are single lines, and
      catalog keys, module names and lengths are as the loaders ensure. */
  ghost predicate Bakeable(x: Inputs, rules: Rules) {
    && Covered(x, rules).Some? && CleanValues(x.server) && CleanValues(x.client)
    && DistinctKeys(x.catalogs) && DistinctKeys(x.modules)
    && AllFit(Encoded(Covered(x, rules).value.Parts(rules), rules))
  }

  lemma CoveredExactly(x: Inputs, y: Inputs, rules: Rules)
    requires Regular(rules) && Bakeable(x, rules) && Bakeable(y, rules)
    ensures Covered(x, rules) == Covered(y, rules) <==> SameMeaning(x, y, rules)
  {
    ServerTextExactly(x.server, y.server, rules);
    ClientTextExactly(x.client, y.client, rules);
    SortExactly(x.catalogs, y.catalogs);
    SortExactly(x.modules, y.modules);
  }

  /** Exactly what a manifest stands for: the hashed streams of two bakes are equal if and only
      if the bakes agree on the loadout, on every covered configuration value, and on the
      catalogs and modules up to order. */
  lemma ManifestMeansExactly(x: Inputs, y: Inputs, rules: Rules)
    requires Regular(rules) && Bakeable(x, rules) && Bakeable(y, rules)
    ensures Stream(Covered(x, rules).value, rules) == Stream(Covered(y, rules).value, rules) <==>
            SameMeaning(x, y, rules)
  {
    CoveredExactly(x, y, rules);
    if Stream(Covered(x, rules).value, rules) == Stream(Covered(y, rules).value, rules) {
      StreamInjective(Covered(x, rules).value, Covered(y, rules).value, rules);
    }
  }
}
