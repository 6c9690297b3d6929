/** Listing the stored metrics in order, and exporting them as text, one family after another. */
module MetricExport {
  import opened Outcomes
  import opened TextOrder
  import opened CanonicalArguments
  import opened MetricStore
  import opened PrometheusText

  // ---- the order of listings ---------------------------------------------------------------

  predicate LabelsLess(a: seq<Entry>, b: seq<Entry>) {
    if b == [] then false
    else if a == [] then true
    else if a[0].key != b[0].key then Less(a[0].key, b[0].key)
    else if a[0].value != b[0].value then Less(a[0].value, b[0].value)
    else LabelsLess(a[1..], b[1..])
  }

  predicate KeyLess(a: Key, b: Key) {
    if a.0 != b.0 then Less(a.0, b.0) else LabelsLess(a.1, b.1)
  }

  /** The first different entry decides, by its key and then by its value, or the end of the shorter listing. */
  ghost predicate LabelsDifferAt(a: seq<Entry>, b: seq<Entry>, k: int) {
    && 0 <= k <= |a| && k < |b|
    && (forall i :: 0 <= i < k ==> a[i] == b[i])
    && (k == |a| || Less(a[k].key, b[k].key) || (a[k].key == b[k].key && Less(a[k].value, b[k].value)))
  }

  lemma {:induction false} LabelsLessByFirstDifference(a: seq<Entry>, b: seq<Entry>)
    ensures (exists k :: LabelsDifferAt(a, b, k)) ==> LabelsLess(a, b)
    ensures LabelsLess(a, b) ==> exists k :: LabelsDifferAt(a, b, k)
  {
    if a != [] && b != [] {
      if a[0] == b[0] {
        LabelsLessByFirstDifference(a[1..], b[1..]);
        if k :| LabelsDifferAt(a[1..], b[1..], k) { LabelsDifferLater(a, b, k); }
        if k :| LabelsDifferAt(a, b, k) { LabelsDifferEarlier(a, b, k); }
      } else {
        LessIrreflexive(a[0].key);
        if k :| LabelsDifferAt(a, b, k) { assert LabelsDifferAt(a, b, 0); }
        if LabelsLess(a, b) { assert LabelsDifferAt(a, b, 0); }
      }
    } else if b != [] {
      assert LabelsDifferAt(a, b, 0);
    }
  }

  lemma LabelsDifferLater(a: seq<Entry>, b: seq<Entry>, k: int)
    requires a != [] && b != [] && a[0] == b[0] && LabelsDifferAt(a[1..], b[1..], k)
    ensures LabelsDifferAt(a, b, k + 1)
  {
    forall i | 0 <= i < k + 1 ensures a[i] == b[i] { if i > 0 { assert a[1..][i - 1] == b[1..][i - 1]; } }
  }

  lemma LabelsDifferEarlier(a: seq<Entry>, b: seq<Entry>, k: int)
    requires a != [] && b != [] && a[0] == b[0] && LabelsDifferAt(a, b, k)
    ensures LabelsDifferAt(a[1..], b[1..], k - 1)
  {
    LessIrreflexive(a[0].key);
    LessIrreflexive(a[0].value);
  }

  lemma {:induction false} LabelsTotal(a: seq<Entry>, b: seq<Entry>)
    ensures LabelsLess(a, b) || LabelsLess(b, a) || a == b
  {
    if a != [] && b != [] {
      LessTotal(a[0].key, b[0].key);
      LessTotal(a[0].value, b[0].value);
      if a[0] == b[0] {
        LabelsTotal(a[1..], b[1..]);
        assert a == [a[0]] + a[1..] && b == [b[0]] + b[1..];
      }
    }
  }

  lemma {:induction false} LabelsTransitive(a: seq<Entry>, b: seq<Entry>, c: seq<Entry>)
    requires LabelsLess(a, b) && LabelsLess(b, c)
    ensures LabelsLess(a, c)
  {
    if a != [] {
      if Less(a[0].key, b[0].key) {
        LessAsymmetric(a[0].key, b[0].key);
        if Less(b[0].key, c[0].key) {
          LessTransitive(a[0].key, b[0].key, c[0].key);
          LessAsymmetric(a[0].key, c[0].key);
        }
      } else if a[0].key == b[0].key == c[0].key {
        if Less(a[0].value, b[0].value) {
          LessAsymmetric(a[0].value, b[0].value);
          if Less(b[0].value, c[0].value) {
            LessTransitive(a[0].value, b[0].value, c[0].value);
            LessAsymmetric(a[0].value, c[0].value);
          }
        } else if b[0].value == c[0].value {
          LabelsTransitive(a[1..], b[1..], c[1..]);
        }
      }
    }
  }

  lemma KeyTotal(a: Key, b: Key)
    ensures KeyLess(a, b) || KeyLess(b, a) || a == b
  {
    LessTotal(a.0, b.0);
    LabelsTotal(a.1, b.1);
  }

  lemma KeyTransitive(a: Key, b: Key, c: Key)
    requires KeyLess(a, b) && KeyLess(b, c)
    ensures KeyLess(a, c)
  {
    if a.0 != b.0 {
      LessAsymmetric(a.0, b.0);
      if b.0 != c.0 { LessTransitive(a.0, b.0, c.0); LessAsymmetric(a.0, c.0); }
    } else if b.0 == c.0 {
      LabelsTransitive(a.1, b.1, c.1);
    }
  }

  ghost predicate Listed(s: seq<Metric>) {
    forall i, j :: 0 <= i < j < |s| ==> KeyLess(KeyOf(s[i]), KeyOf(s[j]))
  }

  function InsertMetric(m: Metric, s: seq<Metric>): seq<Metric> {
    if s == [] || KeyLess(KeyOf(m), KeyOf(s[0])) then [m] + s else [s[0]] + InsertMetric(m, s[1..])
  }

  lemma {:induction false} InsertKeepsListed(m: Metric, s: seq<Metric>)
    requires Listed(s) && forall x :: x in s ==> KeyOf(x) != KeyOf(m)
    ensures Listed(InsertMetric(m, s))
    ensures forall x :: x in InsertMetric(m, s) <==> x in s || x == m
  {
    if s != [] {
      assert s == [s[0]] + s[1..];
      if KeyLess(KeyOf(m), KeyOf(s[0])) {
        forall j | 0 <= j < |s| ensures KeyLess(KeyOf(m), KeyOf(s[j])) {
          if j > 0 { KeyTransitive(KeyOf(m), KeyOf(s[0]), KeyOf(s[j])); }
        }
      } else {
        KeyTotal(KeyOf(m), KeyOf(s[0]));
        InsertKeepsListed(m, s[1..]);
        forall x | x in InsertMetric(m, s[1..]) ensures KeyLess(KeyOf(s[0]), KeyOf(x)) {
          if x in s[1..] {
            var i :| 0 <= i < |s[1..]| && s[1..][i] == x;
            assert s[i + 1] == x;
          }
        }
      }
    }
  }

  predicate Wanted(m: Metric, assetId: Option<string>, name: Option<string>) {
    && (assetId.Some? ==> "asset_id" in AsMap(m.labels) && AsMap(m.labels)["asset_id"] == assetId.value)
    && (name.Some? ==> m.name == name.value)
  }

  /** Of the given name, and carrying the asset as its label, where these are asked for. */
  ghost predicate AskedFor(m: Metric, assetId: Option<string>, name: Option<string>) {
    (assetId.Some? ==> Entry("asset_id", assetId.value) in m.labels) && (name.Some? ==> m.name == name.value)
  }

  lemma {:induction false} MapHoldsEntries(s: seq<Entry>, key: string, value: string)
    requires DistinctKeys(s)
    ensures Entry(key, value) in s <==> key in AsMap(s) && AsMap(s)[key] == value
  {
    if s != [] {
      MapHoldsEntries(s[1..], key, value);
      assert s == [s[0]] + s[1..];
      forall i | 0 <= i < |s[1..]| ensures s[1..][i].key != s[0].key { assert s[0].key != s[i + 1].key; }
    }
  }

  lemma WantedMeans(m: Metric, assetId: Option<string>, name: Option<string>)
    ensures Wanted(m, assetId, name) <==> AskedFor(m, assetId, name)
  {
    AscendingIsDistinct(m.labels);
    if assetId.Some? { MapHoldsEntries(m.labels, "asset_id", assetId.value); }
  }

  lemma AscendingIsDistinct(s: seq<Entry>)
    requires Ascending(s)
    ensures DistinctKeys(s)
  {
    forall i, j | 0 <= i < j < |s| ensures s[i].key != s[j].key { LessAsymmetric(s[i].key, s[j].key); }
  }

  /** Exactly the wanted metrics, each once, ordered by name and then by labels. */
  method ListMetrics(registered: set<string>, stored: map<Key, Metric>, assetId: Option<string>, name: Option<string>)
    returns (r: seq<Metric>)
    requires Consistent(registered, stored)
    ensures Listed(r)
    ensures forall m :: m in r <==> KeyOf(m) in stored && stored[KeyOf(m)] == m && Wanted(m, assetId, name)
    ensures forall m :: m in r <==> KeyOf(m) in stored && stored[KeyOf(m)] == m && AskedFor(m, assetId, name)
  {
    forall m: Metric ensures Wanted(m, assetId, name) <==> AskedFor(m, assetId, name) { WantedMeans(m, assetId, name); }
    r := [];
    if name.Some? && name.value !in registered {
      return;
    }
    var pending := stored.Keys;
    while pending != {}
      invariant pending <= stored.Keys && Listed(r)
      invariant forall m :: m in r
                  <==> KeyOf(m) in stored.Keys - pending && stored[KeyOf(m)] == m && Wanted(m, assetId, name)
      decreases pending
    {
      var k :| k in pending;
      pending := pending - {k};
      if Wanted(stored[k], assetId, name) {
        InsertKeepsListed(stored[k], r);
        r := InsertMetric(stored[k], r);
      }
    }
  }

  // ---- families ----------------------------------------------------------------------------

  ghost predicate Described(help: map<string, string>, listing: seq<Metric>) {
    forall m :: m in listing ==> m.name in help
  }

  function SampleOf(m: Metric): Item {
    Sample(m.name, m.labels, m.value)
  }

  function Header(help: map<string, string>, name: string): seq<Item>
    requires name in help
  {
    [Help(name, help[name]), Kind(name, "gauge")]
  }

  /** A sample, after its family's header where the name changes. */
  function ItemsOf(help: map<string, string>, previous: Option<string>, m: Metric): seq<Item>
    requires m.name in help
  {
    (if previous == Some(m.name) then [] else Header(help, m.name)) + [SampleOf(m)]
  }

  function Items(help: map<string, string>, previous: Option<string>, listing: seq<Metric>): seq<Item>
    requires Described(help, listing)
    decreases listing
  {
    if listing == [] then []
    else
      ItemsOf(help, previous, listing[0]) + Items(help, Some(listing[0].name), listing[1..])
  }

  function Samples(items: seq<Item>): seq<Item> {
    if items == [] then [] else (if items[0].Sample? then [items[0]] else []) + Samples(items[1..])
  }

  lemma {:induction false} SamplesConcat(a: seq<Item>, b: seq<Item>)
    ensures Samples(a + b) == Samples(a) + Samples(b)
  {
    if a == [] {
      assert a + b == b;
    } else {
      var first := if a[0].Sample? then [a[0]] else [];
      assert (a + b)[1..] == a[1..] + b && (a + b)[0] == a[0];
      SamplesConcat(a[1..], b);
      assert Samples(a + b) == first + (Samples(a[1..]) + Samples(b));
    }
  }

  lemma NoSampleInHeader(help: map<string, string>, name: string)
    requires name in help
    ensures Samples(Header(help, name)) == []
  {
    var kind := Header(help, name)[1..];
    assert kind[1..] == [] && Samples(kind) == [];
  }

  /** Each metric gives one sample, in listing order. */
  lemma {:induction false} SamplesOnce(help: map<string, string>, previous: Option<string>, listing: seq<Metric>)
    requires Described(help, listing)
    ensures var samples := Samples(Items(help, previous, listing));
            |samples| == |listing| && forall i :: 0 <= i < |listing| ==> samples[i] == SampleOf(listing[i])
    decreases listing
  {
    if listing != [] {
      var m := listing[0];
      var head := if previous == Some(m.name) then [] else Header(help, m.name);
      var tail := Items(help, Some(m.name), listing[1..]);
      SamplesOnce(help, Some(m.name), listing[1..]);
      NoSampleInHeader(help, m.name);
      SamplesConcat(head + [SampleOf(m)], tail);
      SamplesConcat(head, [SampleOf(m)]);
      assert [SampleOf(m)][1..] == [];
    }
  }

  /** The items form families: a help line, its type line, then samples of that name, and no family
    * name comes back.
    */
  ghost predicate InFamilies(previous: Option<string>, items: seq<Item>) {
    && (forall i :: 0 <= i < |items| ==> InPlace(previous, items, i))
    && (forall i, j :: 0 <= i < j < |items| && items[i].Help? && items[j].Help? ==> items[i].name != items[j].name)
    && (previous.Some? ==> forall i :: 0 <= i < |items| && items[i].Help? ==> items[i].name != previous.value)
  }

  ghost predicate InPlace(previous: Option<string>, items: seq<Item>, i: int)
    requires 0 <= i < |items|
  {
    match items[i]
    case Help(name, _) => i + 1 < |items| && items[i + 1] == Kind(name, "gauge")
    case Kind(name, _) => 0 < i < |items| - 1 && items[i - 1].Help? && items[i - 1].name == name && items[i + 1].Sample?
    case Sample(name, _, _) =>
      if i == 0 then previous == Some(name) else items[i - 1].name == name && !items[i - 1].Help?
  }

  lemma {:induction false} NamesComeFromListing(help: map<string, string>, previous: Option<string>,
                                                listing: seq<Metric>)
    requires Described(help, listing)
    ensures forall item :: item in Items(help, previous, listing) ==>
              exists i :: 0 <= i < |listing| && listing[i].name == item.name
    decreases listing
  {
    if listing != [] {
      NamesComeFromListing(help, Some(listing[0].name), listing[1..]);
      forall item | item in Items(help, previous, listing)
        ensures exists i :: 0 <= i < |listing| && listing[i].name == item.name
      {
        if item in Items(help, Some(listing[0].name), listing[1..]) {
          var i :| 0 <= i < |listing[1..]| && listing[1..][i].name == item.name;
          assert listing[i + 1].name == item.name;
        } else {
          assert listing[0].name == item.name;
        }
      }
    }
  }

  lemma {:induction false} LaterHelps(help: map<string, string>, name: string, listing: seq<Metric>)
    requires Described(help, listing) && Listed(listing)
    requires forall i :: 0 <= i < |listing| ==> listing[i].name == name || Less(name, listing[i].name)
    ensures forall item :: item in Items(help, Some(name), listing) && item.Help? ==> item.name != name
  {
    if listing != [] {
      var m := listing[0];
      if m.name == name {
        LaterHelps(help, name, listing[1..]);
      } else {
        LessAsymmetric(name, m.name);
        NamesComeFromListing(help, Some(m.name), listing[1..]);
        forall item | item in Items(help, Some(m.name), listing[1..]) ensures item.name != name {
          var i :| 0 <= i < |listing[1..]| && listing[1..][i].name == item.name;
          assert KeyLess(KeyOf(listing[0]), KeyOf(listing[i + 1]));
          if m.name != item.name {
            LessTransitive(name, m.name, item.name);
            LessAsymmetric(name, item.name);
          }
        }
      }
    }
  }

  lemma PrependFamilies(previous: Option<string>, head: seq<Item>, sample: Item, tail: seq<Item>)
    requires sample.Sample? && InFamilies(Some(sample.name), tail)
    requires head == [] || (exists text :: head == [Help(sample.name, text), Kind(sample.name, "gauge")])
    requires head == [] <==> previous == Some(sample.name)
    requires previous.Some? ==> forall i :: 0 <= i < |tail| && tail[i].Help? ==> tail[i].name != previous.value
    ensures InFamilies(previous, head + [sample] + tail)
  {
    var items, n := head + [sample] + tail, |head| + 1;
    assert items[|head|] == sample;
    forall i | n <= i < |items| ensures items[i] == tail[i - n] {}
    forall i | 0 <= i < |items| ensures InPlace(previous, items, i) {
      if i >= n { assert InPlace(Some(sample.name), tail, i - n); }
    }
  }

  /** A listing's items form families: each family header comes once, before its samples. */
  lemma {:induction false} ItemsInFamilies(help: map<string, string>, previous: Option<string>, listing: seq<Metric>)
    requires Described(help, listing) && Listed(listing)
    requires previous.Some? ==> forall i :: 0 <= i < |listing| ==>
                                  listing[i].name == previous.value || Less(previous.value, listing[i].name)
    ensures InFamilies(previous, Items(help, previous, listing))
    decreases listing
  {
    if listing != [] {
      var m := listing[0];
      forall i | 0 <= i < |listing[1..]| ensures listing[1..][i].name == m.name || Less(m.name, listing[1..][i].name) {
        assert KeyLess(KeyOf(listing[0]), KeyOf(listing[i + 1]));
      }
      ItemsInFamilies(help, Some(m.name), listing[1..]);
      var head := if previous == Some(m.name) then [] else Header(help, m.name);
      var tail := Items(help, Some(m.name), listing[1..]);
      if previous.Some? { LaterHelps(help, previous.value, listing); }
      forall i | 0 <= i < |tail| ensures tail[i] in Items(help, previous, listing) {
        assert Items(help, previous, listing)[|head| + 1 + i] == tail[i];
      }
      PrependFamilies(previous, head, SampleOf(m), tail);
    }
  }

  // ---- the export --------------------------------------------------------------------------

  /** What names and numbers must look like for the text to be readable. */
  ghost predicate Printable(help: map<string, string>, listing: seq<Metric>) {
    forall m :: m in listing ==>
      && IsName(m.name) && m.name in help && OneLine(help[m.name]) && OneLine(m.value)
      && forall i :: 0 <= i < |m.labels| ==> IsName(m.labels[i].key)
  }

  lemma {:induction false} ItemsWellFormed(help: map<string, string>, previous: Option<string>, listing: seq<Metric>)
    requires Printable(help, listing) && Described(help, listing)
    ensures forall i :: 0 <= i < |Items(help, previous, listing)| ==> WellFormed(Items(help, previous, listing)[i])
    decreases listing
  {
    if listing != [] {
      ItemsWellFormed(help, Some(listing[0].name), listing[1..]);
      assert listing[0] in listing;
    }
  }

  /** Well-formed items come from printable metrics, but for the help text of a family begun before. */
  lemma {:induction false} WellFormedItems(help: map<string, string>, previous: Option<string>, listing: seq<Metric>)
    requires Described(help, listing)
    requires forall i :: 0 <= i < |Items(help, previous, listing)| ==> WellFormed(Items(help, previous, listing)[i])
    requires previous.Some? ==> previous.value in help && OneLine(help[previous.value])
    ensures Printable(help, listing)
    decreases listing
  {
    if listing != [] {
      var m, items := listing[0], Items(help, previous, listing);
      var head, tail := ItemsOf(help, previous, m), Items(help, Some(m.name), listing[1..]);
      assert items == head + tail;
      forall i | 0 <= i < |head| ensures WellFormed(head[i]) { assert items[i] == head[i]; }
      forall i | 0 <= i < |tail| ensures WellFormed(tail[i]) { assert items[|head| + i] == tail[i]; }
      assert head[|head| - 1] == SampleOf(m);
      if previous != Some(m.name) { assert head[0] == Help(m.name, help[m.name]); }
      WellFormedItems(help, Some(m.name), listing[1..]);
      assert listing == [m] + listing[1..];
    }
  }

  /** The exported text parses back, item by item, exactly when names are identifiers and help texts and
    * numbers hold no line feed. The items are the stored samples, one each, in listing order, each under
    * its own family header, which comes once.
    */
  lemma ExportReadsBack(help: map<string, string>, listing: seq<Metric>)
    requires Described(help, listing) && Listed(listing)
    ensures var items := Items(help, None, listing);
            && (ReadText(Text(items)) == Some(items) <==> Printable(help, listing))
            && InFamilies(None, items)
            && |Samples(items)| == |listing|
            && forall i :: 0 <= i < |listing| ==> Samples(items)[i] == SampleOf(listing[i])
  {
    ReadsBackExactly(Items(help, None, listing));
    if Printable(help, listing) { ItemsWellFormed(help, None, listing); }
    if ReadText(Text(Items(help, None, listing))) == Some(Items(help, None, listing)) {
      WellFormedItems(help, None, listing);
    }
    ItemsInFamilies(help, None, listing);
    SamplesOnce(help, None, listing);
  }

  // ---- the exporter's loops ----------------------------------------------------------------

  function Gather(names: seq<string>, grouped: map<string, seq<Metric>>): seq<Metric>
    requires forall n :: n in names ==> n in grouped
  {
    if names == [] then [] else Gather(names[..|names| - 1], grouped) + grouped[names[|names| - 1]]
  }

  lemma {:induction false} GatherIgnoresOthers(names: seq<string>, grouped: map<string, seq<Metric>>, name: string,
                                               group: seq<Metric>)
    requires name !in names && forall n :: n in names ==> n in grouped
    ensures Gather(names, grouped[name := group]) == Gather(names, grouped)
  {
    if names != [] { GatherIgnoresOthers(names[..|names| - 1], grouped, name, group); }
  }

  ghost predicate Grouped(names: seq<string>, grouped: map<string, seq<Metric>>, prefix: seq<Metric>) {
    && (forall n :: n in names <==> n in grouped)
    && (forall i, j :: 0 <= i < j < |names| ==> Less(names[i], names[j]))
    && (forall n :: n in grouped ==> grouped[n] != [] && forall m :: m in grouped[n] ==> m.name == n)
    && Gather(names, grouped) == prefix
    && (names == [] <==> prefix == [])
    && (names != [] ==> names[|names| - 1] == prefix[|prefix| - 1].name)
  }

  lemma LaterName(names: seq<string>, grouped: map<string, seq<Metric>>, prefix: seq<Metric>, m: Metric)
    requires Grouped(names, grouped, prefix) && Listed(prefix + [m]) && names != []
    ensures names[|names| - 1] == m.name || Less(names[|names| - 1], m.name)
    ensures forall i :: 0 <= i < |names| - 1 ==> Less(names[i], m.name) && names[i] != m.name
  {
    var last, all := prefix[|prefix| - 1], prefix + [m];
    assert KeyLess(KeyOf(all[|prefix| - 1]), KeyOf(all[|prefix|]));
    assert last.name == m.name || Less(last.name, m.name);
    forall i | 0 <= i < |names| - 1 ensures Less(names[i], m.name) && names[i] != m.name {
      if last.name != m.name { LessTransitive(names[i], last.name, m.name); }
      LessAsymmetric(names[i], m.name);
    }
  }

  lemma JoinsGroup(names: seq<string>, grouped: map<string, seq<Metric>>, prefix: seq<Metric>, m: Metric)
    requires Grouped(names, grouped, prefix) && Listed(prefix + [m]) && m.name in grouped
    ensures Grouped(names, grouped[m.name := grouped[m.name] + [m]], prefix + [m])
  {
    var n := |names| - 1;
    LaterName(names, grouped, prefix, m);
    assert names[n] == m.name;
    GatherIgnoresOthers(names[..n], grouped, m.name, grouped[m.name] + [m]);
  }

  lemma OpensGroup(names: seq<string>, grouped: map<string, seq<Metric>>, prefix: seq<Metric>, m: Metric)
    requires Grouped(names, grouped, prefix) && Listed(prefix + [m]) && m.name !in grouped
    ensures Grouped(names + [m.name], grouped[m.name := [m]], prefix + [m])
  {
    if names != [] { LaterName(names, grouped, prefix, m); }
    assert (names + [m.name])[..|names|] == names;
    GatherIgnoresOthers(names, grouped, m.name, [m]);
  }

  lemma {:induction false} ItemsSnoc(help: map<string, string>, previous: Option<string>, a: seq<Metric>, m: Metric)
    requires Described(help, a) && m.name in help && Described(help, a + [m])
    ensures Items(help, previous, a + [m])
            == Items(help, previous, a) + ItemsOf(help, if a == [] then previous else Some(a[|a| - 1].name), m)
    decreases a
  {
    if a == [] {
      assert a + [m] == [m] && [m][1..] == [];
    } else {
      var rest, name := a[1..], Some(a[0].name);
      var more := a + [m];
      assert more[1..] == rest + [m] && more[0] == a[0];
      assert rest != [] ==> rest[|rest| - 1] == a[|a| - 1];
      ItemsSnoc(help, name, rest, m);
    }
  }

  function LinesFor(items: seq<Item>): seq<string> {
    seq(|items|, i requires 0 <= i < |items| => Line(items[i]))
  }

  lemma LinesForConcat(a: seq<Item>, b: seq<Item>)
    ensures LinesFor(a + b) == LinesFor(a) + LinesFor(b)
  {
  }

  function Join(lines: seq<string>): string {
    if lines == [] then "" else if |lines| == 1 then lines[0] else lines[0] + "\n" + Join(lines[1..])
  }

  lemma {:induction false} JoinIsText(items: seq<Item>)
    ensures Join(LinesFor(items)) + "\n" == Text(items)
  {
    if items == [] {
      assert LinesFor(items) == [];
    } else if |items| == 1 {
      assert LinesFor(items) == [Line(items[0])] && LinesOf(items[1..]) == "";
    } else {
      assert LinesFor(items)[1..] == LinesFor(items[1..]);
      JoinIsText(items[1..]);
    }
  }

  /** Metrics are grouped by name, in listing order. */
  method GroupByName(listing: seq<Metric>) returns (names: seq<string>, grouped: map<string, seq<Metric>>)
    requires Listed(listing)
    ensures Grouped(names, grouped, listing)
  {
    names, grouped := [], map[];
    for i := 0 to |listing|
      invariant Grouped(names, grouped, listing[..i])
    {
      var m := listing[i];
      assert listing[..i + 1] == listing[..i] + [m];
      if m.name in grouped {
        JoinsGroup(names, grouped, listing[..i], m);
        grouped := grouped[m.name := grouped[m.name] + [m]];
      } else {
        OpensGroup(names, grouped, listing[..i], m);
        names := names + [m.name];
        grouped := grouped[m.name := [m]];
      }
    }
    assert listing[..|listing|] == listing;
  }

  /** The items up to sample `j` of a family, its header included. */
  ghost function Opened(help: map<string, string>, name: string, family: seq<Metric>, done: seq<Metric>, j: nat)
    : seq<Item>
    requires j <= |family| && Described(help, done + family[..j]) && name in help
  {
    Items(help, None, done + family[..j]) + if j == 0 then Header(help, name) else []
  }

  lemma OneMoreSample(help: map<string, string>, name: string, family: seq<Metric>, done: seq<Metric>, j: nat)
    requires j < |family| && name in help && Described(help, done + family)
             && forall m :: m in family ==> m.name == name
    requires done == [] || done[|done| - 1].name != name
    ensures Described(help, done + family[..j]) && Described(help, done + family[..j + 1])
    ensures Opened(help, name, family, done, j + 1) == Opened(help, name, family, done, j) + [SampleOf(family[j])]
    ensures LinesFor(Opened(help, name, family, done, j + 1))
            == LinesFor(Opened(help, name, family, done, j)) + [Line(SampleOf(family[j]))]
  {
    var prefix, m := done + family[..j], family[j];
    assert prefix + [m] == done + family[..j + 1];
    assert done + family == prefix + family[j..];
    forall x | x in prefix + [m] ensures x in done + family { assert m in family; }
    assert m in family;
    forall x | x in prefix ensures x in prefix + [m] {}
    ItemsSnoc(help, None, prefix, m);
    assert j > 0 ==> prefix[|prefix| - 1] == family[j - 1] && family[j - 1] in family;
    assert Opened(help, name, family, done, j + 1) == Opened(help, name, family, done, j) + [SampleOf(m)];
    LinesForConcat(Opened(help, name, family, done, j), [SampleOf(m)]);
    assert LinesFor([SampleOf(m)]) == [Line(SampleOf(m))];
  }

  /** One family: its header, then its samples. */
  method FamilyLines(help: map<string, string>, name: string, family: seq<Metric>, ghost done: seq<Metric>)
    returns (lines: seq<string>)
    requires Described(help, done + family) && family != [] && name in help
             && forall m :: m in family ==> m.name == name
    requires done == [] || done[|done| - 1].name != name
    ensures Described(help, done)
    ensures LinesFor(Items(help, None, done + family)) == LinesFor(Items(help, None, done)) + lines
  {
    assert forall m :: m in done ==> m in done + family;
    lines := [Line(Help(name, help[name])), Line(Kind(name, "gauge"))];
    LinesForConcat(Items(help, None, done), Header(help, name));
    assert lines == LinesFor(Header(help, name)) && done + family[..0] == done;
    for j := 0 to |family|
      invariant Described(help, done + family[..j])
      invariant LinesFor(Items(help, None, done)) + lines == LinesFor(Opened(help, name, family, done, j))
    {
      OneMoreSample(help, name, family, done, j);
      lines := lines + [Line(SampleOf(family[j]))];
    }
    assert family[..|family|] == family;
    assert Items(help, None, done + family) + [] == Items(help, None, done + family);
  }

  method ExportText(help: map<string, string>, stored: map<Key, Metric>) returns (text: string, listing: seq<Metric>)
    requires Consistent(help.Keys, stored)
    ensures Listed(listing) && Described(help, listing)
    ensures forall m :: m in listing <==> KeyOf(m) in stored && stored[KeyOf(m)] == m
    ensures text == Text(Items(help, None, listing))
  {
    listing := ListMetrics(help.Keys, stored, None, None);
    var names, grouped := GroupByName(listing);
    var lines := AllLines(help, names, grouped, listing);
    JoinIsText(Items(help, None, listing));
    text := Join(lines) + "\n";
  }

  method AllLines(help: map<string, string>, names: seq<string>, grouped: map<string, seq<Metric>>,
                  ghost listing: seq<Metric>)
    returns (lines: seq<string>)
    requires Grouped(names, grouped, listing) && Described(help, listing)
    ensures lines == LinesFor(Items(help, None, listing))
  {
    lines := [];
    for g := 0 to |names|
      invariant Described(help, Gather(names[..g], grouped))
      invariant lines == LinesFor(Items(help, None, Gather(names[..g], grouped)))
    {
      NextFamily(help, names, grouped, listing, g);
      var more := FamilyLines(help, names[g], grouped[names[g]], Gather(names[..g], grouped));
      lines := lines + more;
    }
    assert names[..|names|] == names;
  }

  lemma NextFamily(help: map<string, string>, names: seq<string>, grouped: map<string, seq<Metric>>,
                   listing: seq<Metric>, g: nat)
    requires Grouped(names, grouped, listing) && Described(help, listing) && g < |names|
    ensures var done, family := Gather(names[..g], grouped), grouped[names[g]];
            && Gather(names[..g + 1], grouped) == done + family
            && Described(help, done + family) && family != [] && names[g] in help
            && (forall m :: m in family ==> m.name == names[g])
            && (done == [] || done[|done| - 1].name != names[g])
  {
    var done, family := Gather(names[..g], grouped), grouped[names[g]];
    GatherNext(names, grouped, g);
    forall m | m in done + family ensures m in listing {
      assert m in Gather(names[..g + 1], grouped);
    }
    assert family[0] in family && family[0] in done + family;
    GatherEnds(names[..g], grouped);
    if g > 0 { LessAsymmetric(names[g - 1], names[g]); }
  }

  lemma GatherNext(names: seq<string>, grouped: map<string, seq<Metric>>, g: nat)
    requires g < |names| && forall n :: n in names ==> n in grouped
    ensures Gather(names[..g + 1], grouped) == Gather(names[..g], grouped) + grouped[names[g]]
    ensures forall m :: m in Gather(names[..g + 1], grouped) ==> m in Gather(names, grouped)
  {
    assert names[..g + 1][..g] == names[..g];
    GatherPrefix(names, grouped, g + 1);
  }

  lemma GatherEnds(names: seq<string>, grouped: map<string, seq<Metric>>)
    requires forall n :: n in names ==> n in grouped && grouped[n] != [] && forall m :: m in grouped[n] ==> m.name == n
    ensures var all := Gather(names, grouped);
            if names == [] then all == [] else all != [] && all[|all| - 1].name == names[|names| - 1]
  {
    if names != [] {
      var last := grouped[names[|names| - 1]];
      assert last[|last| - 1] in last;
    }
  }

  lemma {:induction false} GatherPrefix(names: seq<string>, grouped: map<string, seq<Metric>>, g: nat)
    requires g <= |names| && forall n :: n in names ==> n in grouped
    ensures Gather(names[..g], grouped) <= Gather(names, grouped)
  {
    if g == |names| {
      assert names[..g] == names;
    } else {
      var n := |names| - 1;
      assert names[..n][..g] == names[..g];
      GatherPrefix(names[..n], grouped, g);
    }
  }
}
