/** backend/streamlit/utils/data_processor.py: the aggregations behind the
    analytics dashboard's tag, funnel, channel-comparison and publish-time
    views. A DataFrame is a sequence of rows; the metric column of a row is an
    integer; pandas' `mean` is the exact quotient of the sum by the count.
    pandas' `sort_values` is not stable, so only the descending order and the
    contents are claimed of it; the model picks the stable order `SortDesc`,
    which is one of the orders pandas may produce. */
module DataProcessor {
  import opened Wrappers
  import opened Text
  import opened Sorting

  /** A decoded JSON value. */
  datatype Json =
    | JNull
    | JBool(b: bool)
    | JNumber(x: real)
    | JString(s: string)
    | JArray(items: seq<Json>)
    | JObject(entries: seq<(string, Json)>)

  /** The `tags_json` cell of a row: missing (`None`), JSON text (a Python
      `str`), or a value pandas already holds decoded (a list, a number, ...). */
  datatype Cell = Missing | Text(text: string) | Decoded(value: Json)

  /** Python truthiness of a cell. */
  predicate Truthy(c: Cell) {
    match c
    case Missing => false
    case Text(s) => s != ""
    case Decoded(j) =>
      match j
      case JNull => false
      case JBool(b) => b
      case JNumber(x) => x != 0.0
      case JString(s) => s != ""
      case JArray(xs) => xs != []
      case JObject(es) => es != []
  }

  /** The string elements of `items` that are not blank, in order and unchanged. */
  function KeepTags(items: seq<Json>): (r: seq<string>)
    ensures forall i :: 0 <= i < |r| ==> Strip(r[i]) != ""
  {
    if items == [] then []
    else
      var last := items[|items| - 1];
      KeepTags(items[..|items| - 1]) + (if last.JString? && Strip(last.s) != "" then [last.s] else [])
  }

  /** The kept tags are exactly the non-blank strings among the items. */
  lemma {:induction false} KeepTagsMembers(items: seq<Json>)
    ensures forall t :: t in KeepTags(items) <==> JString(t) in items && Strip(t) != ""
  {
    if items != [] {
      var init := items[..|items| - 1];
      KeepTagsMembers(init);
      assert items == init + [items[|items| - 1]];
    }
  }

  /** Keeping distributes over concatenation: the order of the items is the order of the tags. */
  lemma {:induction false} KeepTagsConcat(a: seq<Json>, b: seq<Json>)
    ensures KeepTags(a + b) == KeepTags(a) + KeepTags(b)
    decreases |b|
  {
    if b == [] {
      assert a + b == a;
    } else {
      var b' := b[..|b| - 1];
      assert (a + b)[..|a + b| - 1] == a + b';
      KeepTagsConcat(a, b');
    }
  }

  /** `_extract_tags`: nothing for a falsy cell, for text `decode` (`json.loads`)
      rejects, or for a value that is not a list; otherwise the non-blank strings of the list. */
  function ExtractTags(cell: Cell, decode: string -> Option<Json>): (r: seq<string>)
    ensures !Truthy(cell) ==> r == []
    ensures cell.Text? && cell.text != "" && decode(cell.text).None? ==> r == []
    ensures cell.Decoded? && !cell.value.JArray? ==> r == []
    ensures cell.Decoded? && cell.value.JArray? ==> r == KeepTags(cell.value.items)
    ensures cell.Text? && cell.text != "" && decode(cell.text).Some? && decode(cell.text).value.JArray? ==>
      r == KeepTags(decode(cell.text).value.items)
    ensures forall i :: 0 <= i < |r| ==> Strip(r[i]) != ""
  {
    if !Truthy(cell) then []
    else
      var tags := if cell.Text? then decode(cell.text) else Some(cell.value);
      if tags.None? || !tags.value.JArray? then [] else KeepTags(tags.value.items)
  }

  /** A row of the videos DataFrame: its `tags_json` cell and its metric value. */
  datatype Row = Row(tagsJson: Cell, metric: int)

  /** One `{'tag': tag, metric: value}` record. */
  datatype TagMetric = TagMetric(tag: string, value: int)

  /** The records a row with tags `tags` and metric value `metric` contributes: one per tag occurrence. */
  function RowTagMetrics(tags: seq<string>, metric: int): (r: seq<TagMetric>)
    ensures |r| == |tags|
    ensures forall k :: 0 <= k < |r| ==> r[k] == TagMetric(tags[k], metric)
  {
    seq(|tags|, k requires 0 <= k < |tags| => TagMetric(tags[k], metric))
  }

  /** `tag_metrics` after all rows. */
  function TagMetrics(rows: seq<Row>, decode: string -> Option<Json>): seq<TagMetric>
  {
    if rows == [] then []
    else
      var row := rows[|rows| - 1];
      TagMetrics(rows[..|rows| - 1], decode) + RowTagMetrics(ExtractTags(row.tagsJson, decode), row.metric)
  }

  /** The inner loop: one record per tag of the row, appended in order. */
  method AppendRowMetrics(acc: seq<TagMetric>, tags: seq<string>, metric: int) returns (out: seq<TagMetric>)
    ensures out == acc + RowTagMetrics(tags, metric)
  {
    out := acc;
    for k := 0 to |tags|
      invariant out == acc + RowTagMetrics(tags, metric)[..k]
    {
      out := out + [TagMetric(tags[k], metric)];
      assert RowTagMetrics(tags, metric)[..k + 1] == RowTagMetrics(tags, metric)[..k] + [TagMetric(tags[k], metric)];
    }
    assert RowTagMetrics(tags, metric)[..|tags|] == RowTagMetrics(tags, metric);
  }

  /** The loops of `process_tag_performance` that fill `tag_metrics`. */
  method CollectTagMetrics(rows: seq<Row>, decode: string -> Option<Json>) returns (tagMetrics: seq<TagMetric>)
    ensures tagMetrics == TagMetrics(rows, decode)
  {
    tagMetrics := [];
    for r := 0 to |rows|
      invariant tagMetrics == TagMetrics(rows[..r], decode)
    {
      assert rows[..r + 1][..r] == rows[..r];
      var tags := ExtractTags(rows[r].tagsJson, decode);
      if tags != [] {
        tagMetrics := AppendRowMetrics(tagMetrics, tags, rows[r].metric);
      }
    }
    assert rows[..|rows|] == rows;
  }

  /** The tag column of the records. */
  function TagsOf(ms: seq<TagMetric>): (r: seq<string>)
    ensures |r| == |ms| && forall i :: 0 <= i < |ms| ==> r[i] == ms[i].tag
  {
    seq(|ms|, i requires 0 <= i < |ms| => ms[i].tag)
  }

  /** Number of records of `tag`. */
  function CountOf(ms: seq<TagMetric>, tag: string): nat
  {
    if ms == [] then 0
    else CountOf(ms[..|ms| - 1], tag) + (if ms[|ms| - 1].tag == tag then 1 else 0)
  }

  /** Sum of the values of the records of `tag`. */
  function SumOf(ms: seq<TagMetric>, tag: string): int
  {
    if ms == [] then 0
    else SumOf(ms[..|ms| - 1], tag) + (if ms[|ms| - 1].tag == tag then ms[|ms| - 1].value else 0)
  }

  /** The distinct tags of the records. */
  function TagSet(ms: seq<TagMetric>): set<string>
  {
    set t | t in TagsOf(ms)
  }

  /** A tag has records exactly when it is in the tag column. */
  lemma {:induction false} CountOfPositive(ms: seq<TagMetric>, tag: string)
    ensures CountOf(ms, tag) > 0 <==> tag in TagsOf(ms)
  {
    if ms != [] {
      var init := ms[..|ms| - 1];
      CountOfPositive(init, tag);
      assert TagsOf(ms) == TagsOf(init) + [ms[|ms| - 1].tag];
    }
  }

  lemma {:induction false} NoRecordsNoSum(ms: seq<TagMetric>, tag: string)
    ensures CountOf(ms, tag) == 0 ==> SumOf(ms, tag) == 0
  {
    if ms != [] {
      NoRecordsNoSum(ms[..|ms| - 1], tag);
    }
  }

  lemma {:induction false} CountSumConcat(a: seq<TagMetric>, b: seq<TagMetric>, tag: string)
    ensures CountOf(a + b, tag) == CountOf(a, tag) + CountOf(b, tag)
    ensures SumOf(a + b, tag) == SumOf(a, tag) + SumOf(b, tag)
    decreases |b|
  {
    if b == [] {
      assert a + b == a;
    } else {
      var b' := b[..|b| - 1];
      assert (a + b)[..|a + b| - 1] == a + b';
      CountSumConcat(a, b', tag);
    }
  }

  /** Number of occurrences of `t` in `s`. */
  function Occurrences(s: seq<string>, t: string): nat
  {
    if s == [] then 0 else Occurrences(s[..|s| - 1], t) + (if s[|s| - 1] == t then 1 else 0)
  }

  lemma {:induction false} RowCountSum(tags: seq<string>, metric: int, tag: string, n: nat)
    requires n <= |tags|
    ensures CountOf(RowTagMetrics(tags, metric)[..n], tag) == Occurrences(tags[..n], tag)
    ensures SumOf(RowTagMetrics(tags, metric)[..n], tag) == Occurrences(tags[..n], tag) * metric
  {
    var ms := RowTagMetrics(tags, metric);
    if n > 0 {
      RowCountSum(tags, metric, tag, n - 1);
      assert ms[..n][..n - 1] == ms[..n - 1];
      assert tags[..n][..n - 1] == tags[..n - 1];
    }
  }

  /** Each row adds, for every tag, its metric once per occurrence of the tag in
      its tag list: duplicates within a row count each time, and a row without
      tags adds nothing. */
  lemma {:induction false} RowContribution(rows: seq<Row>, row: Row, decode: string -> Option<Json>, tag: string)
    ensures CountOf(TagMetrics(rows + [row], decode), tag) ==
      CountOf(TagMetrics(rows, decode), tag) + Occurrences(ExtractTags(row.tagsJson, decode), tag)
    ensures SumOf(TagMetrics(rows + [row], decode), tag) ==
      SumOf(TagMetrics(rows, decode), tag) + Occurrences(ExtractTags(row.tagsJson, decode), tag) * row.metric
  {
    var tags := ExtractTags(row.tagsJson, decode);
    assert (rows + [row])[..|rows|] == rows;
    CountSumConcat(TagMetrics(rows, decode), RowTagMetrics(tags, row.metric), tag);
    RowCountSum(tags, row.metric, tag, |tags|);
    assert RowTagMetrics(tags, row.metric)[..|tags|] == RowTagMetrics(tags, row.metric);
    assert tags[..|tags|] == tags;
  }

  /** A row of the tag performance table: a tag and the mean metric of its records. */
  datatype TagMean = TagMean(tag: string, mean: real)

  function MeanOf(m: TagMean): real {
    m.mean
  }

  /** The mean of the records of each of `keys`, in the order of `keys`. */
  function Means(ms: seq<TagMetric>, keys: seq<string>): (r: seq<TagMean>)
    requires forall i :: 0 <= i < |keys| ==> CountOf(ms, keys[i]) > 0
    ensures |r| == |keys|
    ensures forall i :: 0 <= i < |r| ==>
      r[i].tag == keys[i] && r[i].mean == SumOf(ms, keys[i]) as real / CountOf(ms, keys[i]) as real
  {
    if keys == [] then []
    else
      var k := keys[|keys| - 1];
      Means(ms, keys[..|keys| - 1]) + [TagMean(k, SumOf(ms, k) as real / CountOf(ms, k) as real)]
  }

  /** `groupby('tag')[metric].mean()`: one row per tag, tags in increasing order. */
  function GroupMeans(ms: seq<TagMetric>): (r: seq<TagMean>)
    ensures |r| == |SortedDistinct(TagsOf(ms))|
    ensures forall i :: 0 <= i < |r| ==>
      r[i].tag == SortedDistinct(TagsOf(ms))[i] && CountOf(ms, r[i].tag) > 0 &&
      r[i].mean == SumOf(ms, r[i].tag) as real / CountOf(ms, r[i].tag) as real
  {
    var keys := SortedDistinct(TagsOf(ms));
    SortedDistinctSpec(TagsOf(ms));
    forall i | 0 <= i < |keys| ensures CountOf(ms, keys[i]) > 0 {
      CountOfPositive(ms, keys[i]);
    }
    Means(ms, keys)
  }

  /** `process_tag_performance`: empty for no rows or no tag records; otherwise
      the per-tag means in descending order of the mean. */
  function TagPerformance(rows: seq<Row>, decode: string -> Option<Json>): (r: seq<TagMean>)
    ensures rows == [] ==> r == []
  {
    var ms := TagMetrics(rows, decode);
    if rows == [] || ms == [] then [] else SortDesc(GroupMeans(ms), MeanOf)
  }

  method ProcessTagPerformance(rows: seq<Row>, decode: string -> Option<Json>) returns (r: seq<TagMean>)
    ensures r == TagPerformance(rows, decode)
  {
    if rows == [] {
      return [];
    }
    var tagMetrics := CollectTagMetrics(rows, decode);
    if tagMetrics == [] {
      return [];
    }
    r := SortDesc(GroupMeans(tagMetrics), MeanOf);
  }

  /** The tags of `keys` are exactly the tags with records, each once. */
  ghost predicate KeysOf(ms: seq<TagMetric>, keys: seq<string>) {
    Distinct(keys) &&
    (forall i :: 0 <= i < |keys| ==> CountOf(ms, keys[i]) > 0) &&
    (forall t :: CountOf(ms, t) > 0 ==> t in keys)
  }

  /** The means of the tags of `ms`, in any order of the tags, reordered by
      descending mean, have one row per tag with records, no tag twice, and
      each row's mean is that of its tag. */
  lemma {:induction false} RankedMeansSpec(ms: seq<TagMetric>, keys: seq<string>)
    requires KeysOf(ms, keys)
    ensures SortedDesc(SortDesc(Means(ms, keys), MeanOf), MeanOf)
    ensures forall t :: (exists i :: 0 <= i < |SortDesc(Means(ms, keys), MeanOf)| && SortDesc(Means(ms, keys), MeanOf)[i].tag == t) <==>
      CountOf(ms, t) > 0
    ensures forall i, j :: 0 <= i < j < |SortDesc(Means(ms, keys), MeanOf)| ==>
      SortDesc(Means(ms, keys), MeanOf)[i].tag != SortDesc(Means(ms, keys), MeanOf)[j].tag
    ensures forall i :: 0 <= i < |SortDesc(Means(ms, keys), MeanOf)| ==>
      var m := SortDesc(Means(ms, keys), MeanOf)[i];
      m.mean == SumOf(ms, m.tag) as real / CountOf(ms, m.tag) as real
  {
    var g := Means(ms, keys);
    var r := SortDesc(g, MeanOf);
    SortDescSpec(g, MeanOf);
    forall i | 0 <= i < |r| ensures r[i] in g {
      assert r[i] in multiset(r);
    }
    MeansPresent(ms, keys, g, r);
    MeansDistinct(ms, keys, g, r);
  }

  /** Every tag with records has a row, and only those. */
  lemma {:induction false} MeansPresent(ms: seq<TagMetric>, keys: seq<string>, g: seq<TagMean>, r: seq<TagMean>)
    requires KeysOf(ms, keys) && g == Means(ms, keys) && multiset(r) == multiset(g)
    ensures forall t :: (exists i :: 0 <= i < |r| && r[i].tag == t) <==> CountOf(ms, t) > 0
  {
    forall t ensures (exists i :: 0 <= i < |r| && r[i].tag == t) <==> CountOf(ms, t) > 0 {
      if CountOf(ms, t) > 0 {
        var k :| 0 <= k < |keys| && keys[k] == t;
        assert g[k] in multiset(r);
        var i :| 0 <= i < |r| && r[i] == g[k];
      }
      if exists i :: 0 <= i < |r| && r[i].tag == t {
        var i :| 0 <= i < |r| && r[i].tag == t;
        assert r[i] in multiset(g);
      }
    }
  }

  /** No tag has two rows. */
  lemma {:induction false} MeansDistinct(ms: seq<TagMetric>, keys: seq<string>, g: seq<TagMean>, r: seq<TagMean>)
    requires KeysOf(ms, keys) && g == Means(ms, keys) && multiset(r) == multiset(g)
    ensures forall i, j :: 0 <= i < j < |r| ==> r[i].tag != r[j].tag
  {
    PermutationDistinct(g, r);
    forall i, j | 0 <= i < j < |r| ensures r[i].tag != r[j].tag {
      assert r[i] in multiset(g) && r[j] in multiset(g);
      var a :| 0 <= a < |g| && g[a] == r[i];
      var b :| 0 <= b < |g| && g[b] == r[j];
      assert a != b;
      assert g[a].tag == keys[a] && g[b].tag == keys[b];
    }
  }

  /** A reordering of a sequence without repeats has none. */
  lemma {:induction false} PermutationDistinct<T>(g: seq<T>, r: seq<T>)
    requires Distinct(g) && multiset(r) == multiset(g)
    ensures Distinct(r)
  {
    forall i, j | 0 <= i < j < |r| ensures r[i] != r[j] {
      if r[i] == r[j] {
        MultisetTwice(r, i, j);
        assert r[i] in multiset(g);
        var a :| 0 <= a < |g| && g[a] == r[i];
        DistinctOnce(g, a);
        assert false;
      }
    }
  }

  /** The tags of `ms` in increasing order are its tags with records, each once. */
  lemma SortedKeys(ms: seq<TagMetric>)
    ensures KeysOf(ms, SortedDistinct(TagsOf(ms)))
  {
    var keys := SortedDistinct(TagsOf(ms));
    SortedDistinctSpec(TagsOf(ms));
    StrictlyIncreasingDistinct(keys);
    forall t | CountOf(ms, t) > 0 ensures t in keys {
      CountOfPositive(ms, t);
    }
    forall i | 0 <= i < |keys| ensures CountOf(ms, keys[i]) > 0 {
      CountOfPositive(ms, keys[i]);
    }
  }

  /** The table is in descending order of the mean and has exactly one row for
      each tag that occurs, carrying the mean of that tag's records. */
  lemma {:induction false} TagPerformanceSpec(rows: seq<Row>, decode: string -> Option<Json>)
    ensures SortedDesc(TagPerformance(rows, decode), MeanOf)
    ensures forall t :: (exists i :: 0 <= i < |TagPerformance(rows, decode)| && TagPerformance(rows, decode)[i].tag == t) <==>
      CountOf(TagMetrics(rows, decode), t) > 0
    ensures forall i, j :: 0 <= i < j < |TagPerformance(rows, decode)| ==>
      TagPerformance(rows, decode)[i].tag != TagPerformance(rows, decode)[j].tag
    ensures forall i :: 0 <= i < |TagPerformance(rows, decode)| ==>
      var m := TagPerformance(rows, decode)[i];
      m.mean == SumOf(TagMetrics(rows, decode), m.tag) as real / CountOf(TagMetrics(rows, decode), m.tag) as real
  {
    var ms := TagMetrics(rows, decode);
    if rows != [] && ms != [] {
      RankedGroupMeans(ms);
    } else {
      assert ms == [];
    }
  }

  /** The per-tag means of `ms`, in descending order, are the table
      `TagPerformanceSpec` describes. */
  lemma RankedGroupMeans(ms: seq<TagMetric>)
    ensures var r := SortDesc(GroupMeans(ms), MeanOf);
      && SortedDesc(r, MeanOf)
      && (forall t :: (exists i :: 0 <= i < |r| && r[i].tag == t) <==> CountOf(ms, t) > 0)
      && (forall i, j :: 0 <= i < j < |r| ==> r[i].tag != r[j].tag)
      && (forall i :: 0 <= i < |r| ==> r[i].mean == SumOf(ms, r[i].tag) as real / CountOf(ms, r[i].tag) as real)
  {
    var keys := SortedDistinct(TagsOf(ms));
    SortedKeys(ms);
    assert GroupMeans(ms) == Means(ms, keys);
    RankedMeansSpec(ms, keys);
  }

  /** Two positions of a sequence holding one value make it occur twice. */
  lemma {:induction false} MultisetTwice<T>(s: seq<T>, i: nat, j: nat)
    requires i < j < |s| && s[i] == s[j]
    ensures multiset(s)[s[i]] >= 2
  {
    assert s == s[..i] + [s[i]] + s[i + 1..j] + [s[j]] + s[j + 1..];
  }

  /** In a sequence without repeats every element occurs once. */
  lemma {:induction false} DistinctOnce<T>(s: seq<T>, a: nat)
    requires Distinct(s) && a < |s|
    ensures multiset(s)[s[a]] == 1
  {
    assert s == s[..a] + [s[a]] + s[a + 1..];
    assert s[a] !in s[..a];
    assert s[a] !in s[a + 1..];
  }

  /** The number of combinations `compute_tag_combinations` keeps by default. */
  const DefaultTopCombinations := 20

  /** `' + '.join((a, b))`: the key of a tag pair. */
  function PairKey(a: string, b: string): string
  {
    a + " + " + b
  }

  /** The first `m` pairs `(tags[i], tags[q])` with `i < q`, in increasing `q`. */
  function PairsFrom(tags: seq<string>, i: nat, m: nat): (r: seq<(string, string)>)
    requires i + m < |tags|
    ensures |r| == m && forall k :: 0 <= k < m ==> r[k] == (tags[i], tags[i + 1 + k])
  {
    seq(m, k requires 0 <= k < m => (tags[i], tags[i + 1 + k]))
  }

  /** The pairs `(tags[p], tags[q])` with `p < q` and `p < i`, in the order
      `itertools.combinations` yields them. */
  function PairsBefore(tags: seq<string>, i: nat): seq<(string, string)>
    requires i <= |tags|
  {
    if i == 0 then [] else PairsBefore(tags, i - 1) + PairsFrom(tags, i - 1, |tags| - i)
  }

  /** `itertools.combinations(tags, 2)`. */
  function Combinations(tags: seq<string>): seq<(string, string)>
  {
    PairsBefore(tags, |tags|)
  }

  /** Every pair comes from two positions `p < q`, with `p < i`. */
  lemma {:induction false} PairsSound(tags: seq<string>, i: nat, n: nat) returns (p: nat, q: nat)
    requires i <= |tags| && n < |PairsBefore(tags, i)|
    ensures p < q < |tags| && p < i && PairsBefore(tags, i)[n] == (tags[p], tags[q])
  {
    var prev := PairsBefore(tags, i - 1);
    if n < |prev| {
      p, q := PairsSound(tags, i - 1, n);
    } else {
      p, q := i - 1, i + (n - |prev|);
    }
  }

  /** Every two positions `p < q`, with `p < i`, give a pair. */
  lemma {:induction false} PairsComplete(tags: seq<string>, i: nat, p: nat, q: nat) returns (n: nat)
    requires i <= |tags| && p < q < |tags| && p < i
    ensures n < |PairsBefore(tags, i)| && PairsBefore(tags, i)[n] == (tags[p], tags[q])
  {
    var prev := PairsBefore(tags, i - 1);
    if p < i - 1 {
      n := PairsComplete(tags, i - 1, p, q);
    } else {
      n := |prev| + (q - i);
    }
  }

  /** There are `i * (2|tags| - i - 1) / 2` pairs whose first position is below `i`. */
  lemma {:induction false} PairsCount(tags: seq<string>, i: nat)
    requires i <= |tags|
    ensures 2 * |PairsBefore(tags, i)| == i * (2 * |tags| - i - 1)
  {
    if i > 0 {
      PairsCount(tags, i - 1);
      calc {
        2 * |PairsBefore(tags, i)|;
        2 * |PairsBefore(tags, i - 1)| + 2 * (|tags| - i);
        (i - 1) * (2 * |tags| - i) + 2 * (|tags| - i);
        i * (2 * |tags| - i - 1);
      }
    }
  }

  /** Positions of distinct tags give distinct pairs. */
  lemma {:induction false} PairsDistinct(tags: seq<string>, i: nat)
    requires i <= |tags| && Distinct(tags)
    ensures Distinct(PairsBefore(tags, i))
  {
    if i > 0 {
      PairsDistinct(tags, i - 1);
      var prev := PairsBefore(tags, i - 1);
      var block := PairsFrom(tags, i - 1, |tags| - i);
      var r := prev + block;
      forall x, y | 0 <= x < y < |r| ensures r[x] != r[y] {
        if x < |prev| && y >= |prev| {
          var p, q := PairsSound(tags, i - 1, x);
          assert r[y].0 == tags[i - 1];
        }
      }
    }
  }

  /** For strictly increasing tags (`sorted(set(...))`), the combinations are
      exactly the pairs `(a, b)` of tags with `a < b`, each once, and there are
      `n * (n - 1) / 2` of them. */
  lemma {:induction false} CombinationsSpec(tags: seq<string>)
    requires StrictlyIncreasing(tags)
    ensures forall n :: 0 <= n < |Combinations(tags)| ==>
      Combinations(tags)[n].0 in tags && Combinations(tags)[n].1 in tags && LexLess(Combinations(tags)[n].0, Combinations(tags)[n].1)
    ensures forall a, b :: a in tags && b in tags && LexLess(a, b) ==> (a, b) in Combinations(tags)
    ensures Distinct(Combinations(tags))
    ensures 2 * |Combinations(tags)| == |tags| * (|tags| - 1)
  {
    CombinationsSound(tags);
    CombinationsComplete(tags);
    StrictlyIncreasingDistinct(tags);
    PairsDistinct(tags, |tags|);
    PairsCount(tags, |tags|);
  }

  /** Each combination is two tags, the first below the second. */
  lemma CombinationsSound(tags: seq<string>)
    requires StrictlyIncreasing(tags)
    ensures forall n :: 0 <= n < |Combinations(tags)| ==>
      Combinations(tags)[n].0 in tags && Combinations(tags)[n].1 in tags && LexLess(Combinations(tags)[n].0, Combinations(tags)[n].1)
  {
    var cs := Combinations(tags);
    forall n | 0 <= n < |cs| ensures cs[n].0 in tags && cs[n].1 in tags && LexLess(cs[n].0, cs[n].1) {
      var p, q := PairsSound(tags, |tags|, n);
    }
  }

  /** Every two tags, the first below the second, form a combination. */
  lemma CombinationsComplete(tags: seq<string>)
    requires StrictlyIncreasing(tags)
    ensures forall a, b :: a in tags && b in tags && LexLess(a, b) ==> (a, b) in Combinations(tags)
  {
    forall a, b | a in tags && b in tags && LexLess(a, b) ensures (a, b) in Combinations(tags) {
      var p :| 0 <= p < |tags| && tags[p] == a;
      var q :| 0 <= q < |tags| && tags[q] == b;
      if q < p {
        LexLessAsymmetric(b, a);
      } else if q == p {
        LexLessIrreflexive(a);
      } else {
        var n := PairsComplete(tags, |tags|, p, q);
      }
    }
  }

  /** A record per pair, keyed by the pair's key, carrying `metric`. */
  function PairRecords(ps: seq<(string, string)>, metric: int): (r: seq<TagMetric>)
    ensures |r| == |ps|
    ensures forall k :: 0 <= k < |ps| ==> r[k] == TagMetric(PairKey(ps[k].0, ps[k].1), metric)
  {
    seq(|ps|, k requires 0 <= k < |ps| => TagMetric(PairKey(ps[k].0, ps[k].1), metric))
  }

  /** `sorted(set(_extract_tags(...)))` of a row. */
  function RowTags(row: Row, decode: string -> Option<Json>): seq<string>
  {
    SortedDistinct(ExtractTags(row.tagsJson, decode))
  }

  lemma RowTagsIncreasing(row: Row, decode: string -> Option<Json>)
    ensures StrictlyIncreasing(RowTags(row, decode))
  {
    SortedDistinctSpec(ExtractTags(row.tagsJson, decode));
  }

  /** What one row appends to `combo_metrics`: nothing when it has fewer than
      two distinct tags, else its metric under the key of each combination of
      its distinct tags in increasing order. */
  function RowComboRecords(row: Row, decode: string -> Option<Json>): seq<TagMetric>
  {
    var tags := RowTags(row, decode);
    if |tags| < 2 then [] else PairRecords(Combinations(tags), row.metric)
  }

  /** Everything the rows append, in order. */
  function ComboRecords(rows: seq<Row>, decode: string -> Option<Json>): seq<TagMetric>
  {
    if rows == [] then []
    else ComboRecords(rows[..|rows| - 1], decode) + RowComboRecords(rows[|rows| - 1], decode)
  }

  /** The position of the pair `(a, b)` among the combinations of increasing tags. */
  lemma {:induction false} CombinationIndex(tags: seq<string>, a: string, b: string) returns (n: nat)
    requires StrictlyIncreasing(tags) && a in tags && b in tags && LexLess(a, b)
    ensures n < |Combinations(tags)| && Combinations(tags)[n] == (a, b)
  {
    CombinationsSpec(tags);
    n :| 0 <= n < |Combinations(tags)| && Combinations(tags)[n] == (a, b);
  }

  /** The records of the combinations of increasing tags: `n * (n - 1) / 2`
      of them, all carrying `metric`, one under the key of every pair `a < b`. */
  lemma {:induction false} PairRecordsSpec(tags: seq<string>, metric: int)
    requires StrictlyIncreasing(tags)
    ensures 2 * |PairRecords(Combinations(tags), metric)| == |tags| * (|tags| - 1)
    ensures forall k :: 0 <= k < |PairRecords(Combinations(tags), metric)| ==> PairRecords(Combinations(tags), metric)[k].value == metric
    ensures forall a, b :: a in tags && b in tags && LexLess(a, b) ==> TagMetric(PairKey(a, b), metric) in PairRecords(Combinations(tags), metric)
  {
    PairsCount(tags, |tags|);
    forall a, b | a in tags && b in tags && LexLess(a, b)
      ensures TagMetric(PairKey(a, b), metric) in PairRecords(Combinations(tags), metric)
    {
      var n := CombinationIndex(tags, a, b);
      assert PairRecords(Combinations(tags), metric)[n] == TagMetric(PairKey(a, b), metric);
    }
  }

  /** A row with `n` distinct tags appends `n * (n - 1) / 2` values, all its
      metric, one under the key of every pair `a < b` of its distinct tags;
      with fewer than two distinct tags it appends nothing. */
  lemma {:induction false} RowComboSpec(row: Row, decode: string -> Option<Json>)
    ensures 2 * |RowComboRecords(row, decode)| == |RowTags(row, decode)| * (|RowTags(row, decode)| - 1)
    ensures forall k :: 0 <= k < |RowComboRecords(row, decode)| ==> RowComboRecords(row, decode)[k].value == row.metric
    ensures forall a, b :: a in RowTags(row, decode) && b in RowTags(row, decode) && LexLess(a, b) ==>
      TagMetric(PairKey(a, b), row.metric) in RowComboRecords(row, decode)
  {
    var tags := RowTags(row, decode);
    if |tags| >= 2 {
      RowTagsIncreasing(row, decode);
      PairRecordsSpec(tags, row.metric);
    } else {
      assert RowComboRecords(row, decode) == [];
      assert |tags| == 0 || |tags| - 1 == 0;
      forall a, b | a in tags && b in tags ensures !LexLess(a, b) {
        assert a == tags[0] && b == tags[0];
        LexLessIrreflexive(a);
      }
    }
  }

  /** Position `|a| + 1` of a pair key is the separator's `+`, and, when `a`
      has no `+`, the first one. */
  lemma FirstPlus(a: string, b: string)
    requires '+' !in a
    ensures PairKey(a, b)[|a| + 1] == '+'
    ensures forall i :: 0 <= i <= |a| ==> PairKey(a, b)[i] != '+'
  {
    forall i | 0 <= i <= |a| ensures PairKey(a, b)[i] != '+' {
      if i < |a| {
        assert PairKey(a, b)[i] == a[i];
      }
    }
  }

  /** Keys of pairs whose first tags have no `+` determine the pair. */
  lemma PairKeyInjective(a: string, b: string, c: string, d: string)
    requires '+' !in a && '+' !in c && PairKey(a, b) == PairKey(c, d)
    ensures a == c && b == d
  {
    var k := PairKey(a, b);
    FirstPlus(a, b);
    FirstPlus(c, d);
    assert |a| == |c|;
    assert a == k[..|a|] == c;
    assert b == k[|a| + 3..] == d;
  }

  /** Two records of one key make its count at least two. */
  lemma {:induction false} CountOfTwo(ms: seq<TagMetric>, x: nat, y: nat)
    requires x < y < |ms| && ms[x].tag == ms[y].tag
    ensures CountOf(ms, ms[x].tag) >= 2
  {
    var t := ms[x].tag;
    CountAt(ms, x);
    var rest := ms[x + 1..];
    assert rest[y - x - 1] == ms[y];
    CountAt(rest, y - x - 1);
  }

  /** The record at `x` adds one to its tag's count. */
  lemma CountAt(ms: seq<TagMetric>, x: nat)
    requires x < |ms|
    ensures CountOf(ms, ms[x].tag) == CountOf(ms[..x], ms[x].tag) + 1 + CountOf(ms[x + 1..], ms[x].tag)
  {
    var t := ms[x].tag;
    assert ms == ms[..x] + [ms[x]] + ms[x + 1..];
    CountSumConcat(ms[..x] + [ms[x]], ms[x + 1..], t);
    CountSumConcat(ms[..x], [ms[x]], t);
    assert CountOf([ms[x]], t) == 1 by {
      assert [ms[x]][..0] == [];
    }
  }

  /** Tags that contain the separator can make two different pairs share a key:
      a row holding "a", "a + b", "b + c" and "c" appends its metric twice under
      "a + b + c". */
  lemma PairKeyCollision(tags: seq<string>, metric: int)
    requires StrictlyIncreasing(tags)
    requires "a" in tags && "a + b" in tags && "b + c" in tags && "c" in tags
    ensures CountOf(PairRecords(Combinations(tags), metric), "a + b + c") >= 2
  {
    var ms := PairRecords(Combinations(tags), metric);
    assert LexLess("a", "b + c");
    assert LexLess("a + b", "c");
    var x := CombinationIndex(tags, "a", "b + c");
    var y := CombinationIndex(tags, "a + b", "c");
    assert ms[x].tag == "a + b + c" == ms[y].tag;
    if x < y {
      CountOfTwo(ms, x, y);
    } else {
      CountOfTwo(ms, y, x);
    }
  }

  /** Sum of a list of values. */
  function Sum(vs: seq<int>): int
  {
    if vs == [] then 0 else Sum(vs[..|vs| - 1]) + vs[|vs| - 1]
  }

  /** The `combo_metrics` dict: the value lists by key, and the keys in
      insertion order, which is the order `items()` yields them in. */
  datatype ComboDict = ComboDict(values: map<string, seq<int>>, order: seq<string>)

  /** Every key is listed once in `order`, and every list is non-empty. */
  ghost predicate WellFormed(d: ComboDict) {
    Distinct(d.order) &&
    (forall k :: k in d.values <==> k in d.order) &&
    (forall k :: k in d.values ==> d.values[k] != [])
  }

  /** `combo_metrics.setdefault(key, []).append(value)`. */
  function Append(d: ComboDict, key: string, value: int): ComboDict
  {
    if key in d.values then ComboDict(d.values[key := d.values[key] + [value]], d.order)
    else ComboDict(d.values[key := [value]], d.order + [key])
  }

  /** The dict after appending every record of `ms` in order. */
  function AppendAll(d: ComboDict, ms: seq<TagMetric>): (r: ComboDict)
    requires WellFormed(d)
    ensures WellFormed(r)
  {
    if ms == [] then d
    else
      var d' := AppendAll(d, ms[..|ms| - 1]);
      var x := ms[|ms| - 1];
      assert x.tag !in d'.values ==> x.tag !in d'.order;
      Append(d', x.tag, x.value)
  }

  const EmptyDict := ComboDict(map[], [])

  lemma {:induction false} AppendAllSnoc(d: ComboDict, ms: seq<TagMetric>, x: TagMetric)
    requires WellFormed(d)
    ensures AppendAll(d, ms + [x]) == Append(AppendAll(d, ms), x.tag, x.value)
  {
    assert (ms + [x])[..|ms|] == ms;
  }

  lemma {:induction false} AppendAllConcat(d: ComboDict, a: seq<TagMetric>, b: seq<TagMetric>)
    requires WellFormed(d)
    ensures AppendAll(d, a + b) == AppendAll(AppendAll(d, a), b)
    decreases |b|
  {
    if b == [] {
      assert a + b == a;
    } else {
      var b', x := b[..|b| - 1], b[|b| - 1];
      var d1 := AppendAll(d, a);
      assert a + b == (a + b') + [x];
      AppendAllSnoc(d, a + b', x);
      AppendAllConcat(d, a, b');
      assert AppendAll(d1, b) == Append(AppendAll(d1, b'), x.tag, x.value);
    }
  }

  /** Grouping the records into a dict: a key is present exactly when it has
      records, its list holds one value per record and sums to their sum, and
      the insertion order lists each such key once. */
  lemma {:induction false} AppendAllSpec(ms: seq<TagMetric>)
    ensures forall k :: k in AppendAll(EmptyDict, ms).values <==> CountOf(ms, k) > 0
    ensures forall k :: k in AppendAll(EmptyDict, ms).values ==>
      |AppendAll(EmptyDict, ms).values[k]| == CountOf(ms, k) && Sum(AppendAll(EmptyDict, ms).values[k]) == SumOf(ms, k)
    ensures KeysOf(ms, AppendAll(EmptyDict, ms).order)
  {
    var d := AppendAll(EmptyDict, ms);
    if ms != [] {
      var init := ms[..|ms| - 1];
      var x := ms[|ms| - 1];
      AppendAllSpec(init);
      var d0 := AppendAll(EmptyDict, init);
      assert d == Append(d0, x.tag, x.value);
      forall k | k in d.values
        ensures |d.values[k]| == CountOf(ms, k) && Sum(d.values[k]) == SumOf(ms, k)
      {
        if k == x.tag {
          NoRecordsNoSum(init, k);
          var vs := if k in d0.values then d0.values[k] else [];
          assert d.values[k] == vs + [x.value];
          assert (vs + [x.value])[..|vs|] == vs;
          assert Sum(vs + [x.value]) == Sum(vs) + x.value;
          assert SumOf(ms, k) == SumOf(init, k) + x.value;
        } else {
          assert d.values[k] == d0.values[k];
        }
      }
    }
  }

  /** `float(np.mean(values))` for each key, in the dict's order. */
  function ComboMeans(d: ComboDict): (r: seq<TagMean>)
    requires WellFormed(d)
    ensures |r| == |d.order|
    ensures forall i :: 0 <= i < |r| ==>
      r[i].tag == d.order[i] && r[i].mean == Sum(d.values[d.order[i]]) as real / |d.values[d.order[i]]| as real
  {
    seq(|d.order|, i requires 0 <= i < |d.order| =>
      var vs := d.values[d.order[i]];
      TagMean(d.order[i], Sum(vs) as real / |vs| as real))
  }

  /** `compute_tag_combinations`: empty for no rows or when no row has two
      distinct tags; otherwise the mean per combination key, in descending order
      of the mean, cut to the first `topN`. */
  function TagCombinations(rows: seq<Row>, decode: string -> Option<Json>, topN: nat := DefaultTopCombinations): (r: seq<TagMean>)
    ensures rows == [] ==> r == []
  {
    if rows == [] then []
    else
      var d := AppendAll(EmptyDict, ComboRecords(rows, decode));
      if d.values == map[] then [] else Take(SortDesc(ComboMeans(d), MeanOf), topN)
  }

  /** `combo_metrics.setdefault(key, []).append(value)` on the dict's two parts. */
  method SetDefaultAppend(values0: map<string, seq<int>>, order0: seq<string>, key: string, value: int)
    returns (values: map<string, seq<int>>, order: seq<string>)
    ensures ComboDict(values, order) == Append(ComboDict(values0, order0), key, value)
  {
    values, order := values0, order0;
    if key !in values {
      values := values[key := []];
      order := order + [key];
    }
    values := values[key := values[key] + [value]];
    assert [] + [value] == [value];
  }

  /** The `setdefault(...).append(...)` loop over the combinations of one row. */
  method AppendCombinations(values0: map<string, seq<int>>, order0: seq<string>, tags: seq<string>, metric: int)
    returns (values: map<string, seq<int>>, order: seq<string>)
    requires WellFormed(ComboDict(values0, order0))
    ensures ComboDict(values, order) == AppendAll(ComboDict(values0, order0), PairRecords(Combinations(tags), metric))
  {
    var combos := Combinations(tags);
    values, order := values0, order0;
    for k := 0 to |combos|
      invariant ComboDict(values, order) == AppendAll(ComboDict(values0, order0), PairRecords(combos[..k], metric))
    {
      var key := PairKey(combos[k].0, combos[k].1);
      values, order := SetDefaultAppend(values, order, key, metric);
      assert PairRecords(combos[..k + 1], metric) == PairRecords(combos[..k], metric) + [TagMetric(key, metric)];
      AppendAllSnoc(ComboDict(values0, order0), PairRecords(combos[..k], metric), TagMetric(key, metric));
    }
    assert combos[..|combos|] == combos;
  }

  /** The dict after one more row: the row's records appended, or the dict
      unchanged for a row with fewer than two distinct tags. */
  lemma {:induction false} ComboRecordsStep(rows: seq<Row>, n: nat, decode: string -> Option<Json>)
    requires n < |rows|
    ensures var tags := SortedDistinct(ExtractTags(rows[n].tagsJson, decode));
      var before := AppendAll(EmptyDict, ComboRecords(rows[..n], decode));
      AppendAll(EmptyDict, ComboRecords(rows[..n + 1], decode)) ==
        if |tags| < 2 then before else AppendAll(before, PairRecords(Combinations(tags), rows[n].metric))
  {
    var prefix := ComboRecords(rows[..n], decode);
    assert rows[..n + 1][..n] == rows[..n];
    assert ComboRecords(rows[..n + 1], decode) == prefix + RowComboRecords(rows[n], decode);
    AppendAllConcat(EmptyDict, prefix, RowComboRecords(rows[n], decode));
  }

  method ComputeTagCombinations(rows: seq<Row>, decode: string -> Option<Json>, topN: nat := DefaultTopCombinations) returns (r: seq<TagMean>)
    ensures r == TagCombinations(rows, decode, topN)
  {
    if rows == [] {
      return [];
    }
    var values: map<string, seq<int>> := map[];
    var order: seq<string> := [];
    for n := 0 to |rows|
      invariant ComboDict(values, order) == AppendAll(EmptyDict, ComboRecords(rows[..n], decode))
    {
      ComboRecordsStep(rows, n, decode);
      var tags := SortedDistinct(ExtractTags(rows[n].tagsJson, decode));
      if |tags| < 2 {
        continue;
      }
      values, order := AppendCombinations(values, order, tags, rows[n].metric);
    }
    assert rows[..|rows|] == rows;
    if values == map[] {
      return [];
    }
    r := Take(SortDesc(ComboMeans(ComboDict(values, order)), MeanOf), topN);
  }

  /** The dict's means are the means of the records, key by key. */
  lemma {:induction false} ComboMeansAreMeans(ms: seq<TagMetric>)
    ensures KeysOf(ms, AppendAll(EmptyDict, ms).order)
    ensures ComboMeans(AppendAll(EmptyDict, ms)) == Means(ms, AppendAll(EmptyDict, ms).order)
  {
    AppendAllSpec(ms);
  }

  /** The combination table has at most `topN` rows, in descending order of the
      mean, and it is empty only when `topN` is 0 or no row has two distinct tags. */
  lemma {:induction false} TagCombinationsSpec(rows: seq<Row>, decode: string -> Option<Json>, topN: nat)
    ensures |TagCombinations(rows, decode, topN)| <= topN
    ensures SortedDesc(TagCombinations(rows, decode, topN), MeanOf)
    ensures TagCombinations(rows, decode, topN) == [] <==> topN == 0 || ComboRecords(rows, decode) == []
  {
    var ms := ComboRecords(rows, decode);
    if ms == [] {
      assert AppendAll(EmptyDict, ms) == EmptyDict;
    } else {
      var order := TagCombinationsUnfold(rows, decode, topN);
      RankedTop(ms, order, topN);
    }
  }

  /** No key is in the combination table twice, and each row carries the mean
      of its key's values. */
  lemma {:induction false} TagCombinationsRows(rows: seq<Row>, decode: string -> Option<Json>, topN: nat)
    ensures MeanRows(ComboRecords(rows, decode), TagCombinations(rows, decode, topN))
  {
    var ms := ComboRecords(rows, decode);
    if ms == [] {
      assert AppendAll(EmptyDict, ms) == EmptyDict;
    } else {
      var order := TagCombinationsUnfold(rows, decode, topN);
      RankedTop(ms, order, topN);
    }
  }

  /** The table holds `topN` rows, or one row per combination key when there
      are fewer keys than that. */
  lemma {:induction false} TagCombinationsLength(rows: seq<Row>, decode: string -> Option<Json>, topN: nat)
    ensures var n := |TagSet(ComboRecords(rows, decode))|;
      |TagCombinations(rows, decode, topN)| == if topN < n then topN else n
  {
    var ms := ComboRecords(rows, decode);
    if ms == [] {
      assert AppendAll(EmptyDict, ms) == EmptyDict;
      assert TagSet(ms) == {};
    } else {
      var order := TagCombinationsUnfold(rows, decode, topN);
      RankedTop(ms, order, topN);
      KeysCount(ms, order);
    }
  }

  /** A list of the keys holds each tag with records once, so it is as long as
      there are distinct tags. */
  lemma {:induction false} KeysCount(ms: seq<TagMetric>, keys: seq<string>)
    requires KeysOf(ms, keys)
    ensures |keys| == |TagSet(ms)|
  {
    assert (set t | t in keys) == TagSet(ms) by {
      forall t
        ensures t in keys <==> t in TagsOf(ms)
      {
        CountOfPositive(ms, t);
      }
    }
    DistinctCard(keys);
  }

  /** Every combination key left out of the table has a mean no larger than
      that of any row kept. */
  lemma {:induction false} TagCombinationsTop(rows: seq<Row>, decode: string -> Option<Json>, topN: nat, t: string)
    requires CountOf(ComboRecords(rows, decode), t) > 0
    ensures (exists i :: 0 <= i < |TagCombinations(rows, decode, topN)| && TagCombinations(rows, decode, topN)[i].tag == t) ||
      (forall i :: 0 <= i < |TagCombinations(rows, decode, topN)| ==>
        TagCombinations(rows, decode, topN)[i].mean >=
          SumOf(ComboRecords(rows, decode), t) as real / CountOf(ComboRecords(rows, decode), t) as real)
  {
    var ms := ComboRecords(rows, decode);
    var order := TagCombinationsUnfold(rows, decode, topN);
    RankedTopLeftOut(ms, order, topN, t);
  }

  /** With a key present, the table is the cut of the ranked means of the
      dict's keys. */
  lemma {:induction false} TagCombinationsUnfold(rows: seq<Row>, decode: string -> Option<Json>, topN: nat)
    returns (order: seq<string>)
    requires ComboRecords(rows, decode) != []
    ensures KeysOf(ComboRecords(rows, decode), order) && order != []
    ensures TagCombinations(rows, decode, topN) == Take(SortDesc(Means(ComboRecords(rows, decode), order), MeanOf), topN)
  {
    var ms := ComboRecords(rows, decode);
    var d := AppendAll(EmptyDict, ms);
    var t := ms[0].tag;
    CountOfPositive(ms, t);
    ComboMeansAreMeans(ms);
    assert t in d.order;
    assert d.values != map[] by {
      assert t in d.values;
    }
    assert rows != [] by {
      assert ms != [];
    }
    assert TagCombinations(rows, decode, topN) == Take(SortDesc(ComboMeans(d), MeanOf), topN);
    order := d.order;
  }

  /** The first `topN` means in descending order keep the facts of
      `RankedMeansSpec` about the rows they hold. */
  lemma {:induction false} RankedTop(ms: seq<TagMetric>, keys: seq<string>, topN: nat)
    requires KeysOf(ms, keys)
    ensures var r := Take(SortDesc(Means(ms, keys), MeanOf), topN);
      |r| == (if topN < |keys| then topN else |keys|) && (|r| == 0 <==> topN == 0 || keys == [])
    ensures SortedDesc(Take(SortDesc(Means(ms, keys), MeanOf), topN), MeanOf)
    ensures MeanRows(ms, Take(SortDesc(Means(ms, keys), MeanOf), topN))
  {
    var s := SortDesc(Means(ms, keys), MeanOf);
    var r := Take(s, topN);
    RankedMeansRows(ms, keys);
    MeanRowsPrefix(ms, s, |r|);
    TakeKeepsLargest(s, topN, MeanOf);
  }

  /** Rows with distinct tags, each holding the mean of its tag's records. */
  predicate MeanRows(ms: seq<TagMetric>, s: seq<TagMean>) {
    && (forall i, j :: 0 <= i < j < |s| ==> s[i].tag != s[j].tag)
    && (forall i :: 0 <= i < |s| ==> CountOf(ms, s[i].tag) > 0 && s[i].mean == SumOf(ms, s[i].tag) as real / CountOf(ms, s[i].tag) as real)
  }

  lemma MeanRowsPrefix(ms: seq<TagMetric>, s: seq<TagMean>, n: nat)
    requires MeanRows(ms, s) && n <= |s|
    ensures MeanRows(ms, s[..n])
  {
    var r := s[..n];
    forall i | 0 <= i < n ensures r[i] == s[i] {}
  }

  /** The ranked rows, as `MeanRows`. */
  lemma RankedMeansRows(ms: seq<TagMetric>, keys: seq<string>)
    requires KeysOf(ms, keys)
    ensures MeanRows(ms, SortDesc(Means(ms, keys), MeanOf))
    ensures SortedDesc(SortDesc(Means(ms, keys), MeanOf), MeanOf)
    ensures |SortDesc(Means(ms, keys), MeanOf)| == |keys|
  {
    var g := Means(ms, keys);
    var s := SortDesc(g, MeanOf);
    SortDescSpec(g, MeanOf);
    assert |s| == |multiset(s)| == |multiset(g)| == |g|;
    MeansPermutationRows(ms, keys, g, s);
  }

  /** Any reordering of the means has the rows `MeanRows` describes. */
  lemma MeansPermutationRows(ms: seq<TagMetric>, keys: seq<string>, g: seq<TagMean>, r: seq<TagMean>)
    requires KeysOf(ms, keys) && g == Means(ms, keys) && multiset(r) == multiset(g)
    ensures MeanRows(ms, r)
  {
    MeansDistinct(ms, keys, g, r);
    forall i | 0 <= i < |r|
      ensures CountOf(ms, r[i].tag) > 0 && r[i].mean == SumOf(ms, r[i].tag) as real / CountOf(ms, r[i].tag) as real
    {
      assert r[i] in multiset(g);
      var a :| 0 <= a < |g| && g[a] == r[i];
    }
  }

  /** A tag with records that the first `topN` leave out has a mean no larger
      than any they keep. */
  lemma {:induction false} RankedTopLeftOut(ms: seq<TagMetric>, keys: seq<string>, topN: nat, t: string)
    requires KeysOf(ms, keys) && CountOf(ms, t) > 0
    ensures var r := Take(SortDesc(Means(ms, keys), MeanOf), topN);
      (exists i :: 0 <= i < |r| && r[i].tag == t) ||
      (forall i :: 0 <= i < |r| ==> r[i].mean >= SumOf(ms, t) as real / CountOf(ms, t) as real)
  {
    var g := Means(ms, keys);
    var s := SortDesc(g, MeanOf);
    SortDescSpec(g, MeanOf);
    var j := RowOfTag(ms, keys, g, s, t);
    MeansPermutationRows(ms, keys, g, s);
    RowsLeftOut(ms, s, topN, j);
  }

  /** A tag with records has a row in any reordering of the means. */
  lemma RowOfTag(ms: seq<TagMetric>, keys: seq<string>, g: seq<TagMean>, r: seq<TagMean>, t: string) returns (j: nat)
    requires KeysOf(ms, keys) && g == Means(ms, keys) && multiset(r) == multiset(g) && CountOf(ms, t) > 0
    ensures j < |r| && r[j].tag == t
  {
    var k :| 0 <= k < |keys| && keys[k] == t;
    assert g[k] in multiset(r);
    j :| 0 <= j < |r| && r[j] == g[k];
  }

  /** In descending rows, the row at `j` is either kept by the first `topN`
      or has a mean no larger than any kept row's. */
  lemma RowsLeftOut(ms: seq<TagMetric>, s: seq<TagMean>, topN: nat, j: nat)
    requires MeanRows(ms, s) && SortedDesc(s, MeanOf) && j < |s|
    ensures var r := Take(s, topN);
      (exists i :: 0 <= i < |r| && r[i].tag == s[j].tag) ||
      (forall i :: 0 <= i < |r| ==> r[i].mean >= SumOf(ms, s[j].tag) as real / CountOf(ms, s[j].tag) as real)
  {
    var r := Take(s, topN);
    TakeKeepsLargest(s, topN, MeanOf);
    if j < |r| {
      assert r[j] == s[j];
    } else {
      assert MeanOf(s[j]) == SumOf(ms, s[j].tag) as real / CountOf(ms, s[j].tag) as real;
    }
  }

  /** The count columns of a video row. */
  datatype VideoCounts = VideoCounts(viewCount: int, likeCount: int, commentCount: int)

  /** One funnel stage: its name, its total and its conversion from the stage before. */
  datatype Stage = Stage(stage: string, value: int, conversion: real)

  /** `df[column].sum()`. */
  function ColumnSum(vs: seq<VideoCounts>, column: VideoCounts -> int): int
  {
    if vs == [] then 0 else ColumnSum(vs[..|vs| - 1], column) + column(vs[|vs| - 1])
  }

  function Views(v: VideoCounts): int { v.viewCount }
  function Likes(v: VideoCounts): int { v.likeCount }
  function Comments(v: VideoCounts): int { v.commentCount }

  /** `safe_ratio`: the quotient, or 0.0 when the denominator is 0. */
  function SafeRatio(numerator: int, denominator: int): (r: real)
    ensures denominator == 0 ==> r == 0.0
    ensures denominator != 0 ==> r * denominator as real == numerator as real
  {
    if denominator != 0 then numerator as real / denominator as real else 0.0
  }

  /** `compute_funnel_metrics`: nothing for no videos, else the view, like and
      comment stages with their column totals. */
  function FunnelMetrics(vs: seq<VideoCounts>): (r: seq<Stage>)
    ensures vs == [] <==> r == []
    ensures r != [] ==> |r| == 3 && r[0].stage == "視聴" && r[1].stage == "いいね" && r[2].stage == "コメント"
  {
    if vs == [] then []
    else
      var totalViews := ColumnSum(vs, Views);
      var totalLikes := ColumnSum(vs, Likes);
      var totalComments := ColumnSum(vs, Comments);
      [Stage("視聴", totalViews, 1.0),
       Stage("いいね", totalLikes, SafeRatio(totalLikes, totalViews)),
       Stage("コメント", totalComments, SafeRatio(totalComments, totalLikes))]
  }

  /** Column totals are additive over the rows. */
  lemma {:induction false} ColumnSumConcat(a: seq<VideoCounts>, b: seq<VideoCounts>, column: VideoCounts -> int)
    ensures ColumnSum(a + b, column) == ColumnSum(a, column) + ColumnSum(b, column)
    decreases |b|
  {
    if b == [] {
      assert a + b == a;
    } else {
      assert (a + b)[..|a + b| - 1] == a + b[..|b| - 1];
      ColumnSumConcat(a, b[..|b| - 1], column);
    }
  }

  /** Column totals keep a row-wise bound: when no row has more of `lo` than of
      `hi`, neither does the total. */
  lemma {:induction false} ColumnSumMonotone(vs: seq<VideoCounts>, lo: VideoCounts -> int, hi: VideoCounts -> int)
    requires forall i :: 0 <= i < |vs| ==> lo(vs[i]) <= hi(vs[i])
    ensures ColumnSum(vs, lo) <= ColumnSum(vs, hi)
  {
    if vs != [] {
      ColumnSumMonotone(vs[..|vs| - 1], lo, hi);
    }
  }

  /** Every stage after the first converts its predecessor's total into its own:
      `value == conversion * previous value` whenever the previous total is not
      0; a 0 previous total gives conversion 0.0 instead of a division error. */
  lemma FunnelChain(vs: seq<VideoCounts>)
    requires vs != []
    ensures forall k :: 1 <= k < 3 ==>
      (FunnelMetrics(vs)[k - 1].value != 0 ==>
        FunnelMetrics(vs)[k].conversion * FunnelMetrics(vs)[k - 1].value as real == FunnelMetrics(vs)[k].value as real) &&
      (FunnelMetrics(vs)[k - 1].value == 0 ==> FunnelMetrics(vs)[k].conversion == 0.0)
    ensures FunnelMetrics(vs)[0].value == ColumnSum(vs, Views)
    ensures FunnelMetrics(vs)[1].value == ColumnSum(vs, Likes)
    ensures FunnelMetrics(vs)[2].value == ColumnSum(vs, Comments)
  {
    var views, likes, comments := ColumnSum(vs, Views), ColumnSum(vs, Likes), ColumnSum(vs, Comments);
    var f := FunnelMetrics(vs);
    assert f == [Stage("視聴", views, 1.0), Stage("いいね", likes, SafeRatio(likes, views)),
                 Stage("コメント", comments, SafeRatio(comments, likes))];
    assert f[0].value == views && f[1].value == likes && f[2].value == comments;
    assert f[1].conversion == SafeRatio(likes, views) && f[2].conversion == SafeRatio(comments, likes);
  }

  /** For counts that are not negative, with no video having more likes than
      views or more comments than likes, every conversion lies in [0, 1]. */
  lemma {:induction false} FunnelConversionBounds(vs: seq<VideoCounts>)
    requires vs != []
    requires forall i :: 0 <= i < |vs| ==> 0 <= vs[i].commentCount <= vs[i].likeCount <= vs[i].viewCount
    ensures forall k :: 0 <= k < 3 ==> 0.0 <= FunnelMetrics(vs)[k].conversion <= 1.0
  {
    ColumnSumMonotone(vs, Likes, Views);
    ColumnSumMonotone(vs, Comments, Likes);
    ColumnSumMonotone(vs, Zero, Comments);
    assert ColumnSum(vs, Zero) == 0 by {
      ZeroSum(vs);
    }
    var views, likes, comments := ColumnSum(vs, Views), ColumnSum(vs, Likes), ColumnSum(vs, Comments);
    RatioBounds(likes, views);
    RatioBounds(comments, likes);
  }

  function Zero(v: VideoCounts): int { 0 }

  lemma {:induction false} ZeroSum(vs: seq<VideoCounts>)
    ensures ColumnSum(vs, Zero) == 0
  {
    if vs != [] {
      ZeroSum(vs[..|vs| - 1]);
    }
  }

  lemma RatioBounds(numerator: int, denominator: int)
    requires 0 <= numerator <= denominator
    ensures 0.0 <= SafeRatio(numerator, denominator) <= 1.0
  {
    if denominator != 0 {
      assert numerator as real / denominator as real <= 1.0;
    }
  }

  /** A row of the channel list, with the columns the comparison keeps. */
  datatype Channel = Channel(id: int, title: string, subscriberCount: int, viewCount: int, videoCount: int)

  function SubscribersOf(c: Channel): real {
    c.subscriberCount as real
  }

  /** `[channel for channel in channels if channel['id'] in selected_ids]`. */
  function SelectChannels(channels: seq<Channel>, selectedIds: seq<int>): (r: seq<Channel>)
    ensures forall c :: c in r <==> c in channels && c.id in selectedIds
    ensures |r| <= |channels|
  {
    if channels == [] then []
    else
      var c := channels[|channels| - 1];
      SelectChannels(channels[..|channels| - 1], selectedIds) + (if c.id in selectedIds then [c] else [])
  }

  /** Selection keeps every selected channel as often as the list holds it. */
  lemma {:induction false} SelectChannelsCounts(channels: seq<Channel>, selectedIds: seq<int>, c: Channel)
    ensures multiset(SelectChannels(channels, selectedIds))[c] == if c.id in selectedIds then multiset(channels)[c] else 0
  {
    if channels != [] {
      var init, last := channels[..|channels| - 1], channels[|channels| - 1];
      SelectChannelsCounts(init, selectedIds, c);
      assert channels == init + [last];
      assert multiset(channels) == multiset(init) + multiset{last};
      var tail := if last.id in selectedIds then [last] else [];
      assert multiset(SelectChannels(channels, selectedIds)) == multiset(SelectChannels(init, selectedIds)) + multiset(tail);
    }
  }

  /** `build_channel_comparison`: nothing for an empty selection or when no
      channel is selected; else the selected channels by descending subscriber count. */
  function ChannelComparison(channels: seq<Channel>, selectedIds: seq<int>): (r: seq<Channel>)
    ensures selectedIds == [] ==> r == []
  {
    if selectedIds == [] then []
    else
      var selected := SelectChannels(channels, selectedIds);
      if selected == [] then [] else SortDesc(selected, SubscribersOf)
  }

  /** The comparison holds exactly the listed channels whose id is selected,
      each as often as the list holds it, in descending subscriber order. */
  lemma {:induction false} ChannelComparisonSpec(channels: seq<Channel>, selectedIds: seq<int>)
    ensures SortedDesc(ChannelComparison(channels, selectedIds), SubscribersOf)
    ensures forall c: Channel ::
      (multiset(ChannelComparison(channels, selectedIds))[c] == if c.id in selectedIds then multiset(channels)[c] else 0)
    ensures forall c :: c in ChannelComparison(channels, selectedIds) <==> c in channels && c.id in selectedIds
  {
    var selected := SelectChannels(channels, selectedIds);
    var r := ChannelComparison(channels, selectedIds);
    if selectedIds != [] {
      SortDescSpec(selected, SubscribersOf);
      assert multiset(r) == multiset(selected);
      forall c: Channel ensures multiset(r)[c] == if c.id in selectedIds then multiset(channels)[c] else 0 {
        SelectChannelsCounts(channels, selectedIds, c);
      }
      forall c: Channel ensures c in r <==> c in channels && c.id in selectedIds {
        assert c in r <==> c in multiset(r);
        assert c in selected <==> c in multiset(selected);
      }
    }
  }

  /** The publish-time slots to suggest by default. */
  const DefaultTopSlots := 5

  /** A cell of the stacked weekday-by-hour heatmap. */
  datatype Slot = Slot(weekday: string, hour: int, value: real)

  function ValueOf(s: Slot): real {
    s.value
  }

  /** `suggest_publish_slots`: nothing for a missing or empty heatmap; else the
      `topN` cells of highest value, in descending order. `heatmap` holds the
      heatmap's cells stacked row by row; `stack()` drops NaN cells, so the
      sequence holds only the cells that have a value. */
  function SuggestPublishSlots(heatmap: Option<seq<Slot>>, topN: nat := DefaultTopSlots): (r: seq<Slot>)
    ensures heatmap.None? || heatmap.value == [] ==> r == []
  {
    if heatmap.None? || heatmap.value == [] then [] else Take(SortDesc(heatmap.value, ValueOf), topN)
  }

  /** At most `topN` slots, in descending order of value, each a cell of the
      heatmap, and none worth less than a cell left out; exactly `topN` when the
      heatmap has that many cells. */
  lemma {:induction false} SuggestPublishSlotsSpec(heatmap: Option<seq<Slot>>, topN: nat)
    ensures |SuggestPublishSlots(heatmap, topN)| <= topN
    ensures heatmap.Some? && topN <= |heatmap.value| ==> |SuggestPublishSlots(heatmap, topN)| == topN
    ensures SortedDesc(SuggestPublishSlots(heatmap, topN), ValueOf)
    ensures heatmap.Some? ==> multiset(SuggestPublishSlots(heatmap, topN)) <= multiset(heatmap.value)
    ensures heatmap.Some? ==> forall c :: c in multiset(heatmap.value) - multiset(SuggestPublishSlots(heatmap, topN)) ==>
      forall i :: 0 <= i < |SuggestPublishSlots(heatmap, topN)| ==> SuggestPublishSlots(heatmap, topN)[i].value >= c.value
  {
    if heatmap.Some? && heatmap.value != [] {
      var s := SortDesc(heatmap.value, ValueOf);
      SortDescSpec(heatmap.value, ValueOf);
      TakeKeepsLargest(s, topN, ValueOf);
      TakeLeftOut(s, topN, ValueOf);
    }
  }
}
