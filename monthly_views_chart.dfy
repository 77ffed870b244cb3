/** components/features/charts/MonthlyViewsChart.tsx: views summed per
    publish month. A `reduce` fills a dictionary keyed "YYYY-MM" (a bucket is
    created at the first video of its month, labelled "YYYY年M月", and every
    video of that month adds its views); the entries are then sorted by key
    and their values plotted, or a no-data message shown when there are none.

    The bucketing is stated for any key function `key` (the component uses
    `KeyOf`), so that its proofs need not look inside the key strings; what
    they need of `KeyOf` is that videos sharing a key share their label
    (`KeyDeterminesLabel`). */
module MonthlyViewsChart {
  import opened Text
  import opened Decimal
  import opened VideoTypes

  datatype MonthPoint = MonthPoint(month: string, views: int)

  /** What the component renders. */
  datatype Rendered = NoData | Line(data: seq<MonthPoint>)

  /** `${year}-${String(month).padStart(2, "0")}`. */
  function MonthKey(d: YearMonth): string
  {
    IntToString(d.year) + "-" + PadStart2(IntToString(d.month))
  }

  /** `${year}年${month}月`. */
  function MonthLabel(d: YearMonth): string
  {
    IntToString(d.year) + "年" + IntToString(d.month) + "月"
  }

  function KeyOf(v: Video): string
  {
    MonthKey(v.publishedAt)
  }

  function LabelOf(v: Video): string
  {
    MonthLabel(v.publishedAt)
  }

  /** The key list after a video keyed `k`: `k` joins at the end the first time it is seen. */
  function AddKey<K(==)>(keys: seq<K>, k: K): seq<K>
  {
    if k in keys then keys else keys + [k]
  }

  /** The dictionary after a video keyed `k`, labelled `monthLabel`, with `views` views (lines 16-19). */
  function AddViews<K(==)>(acc: map<K, MonthPoint>, k: K, monthLabel: string, views: int): map<K, MonthPoint>
  {
    var p := if k in acc then acc[k] else MonthPoint(monthLabel, 0);
    acc[k := MonthPoint(p.month, p.views + views)]
  }

  /** The keys of the dictionary in insertion order (the order `Object.entries` lists them in). */
  function FirstKeys<K(==)>(vs: seq<Video>, key: Video -> K): seq<K>
  {
    if vs == [] then [] else AddKey(FirstKeys(vs[..|vs| - 1], key), key(vs[|vs| - 1]))
  }

  /** The dictionary the `reduce` builds over `vs`. */
  function Buckets<K(==)>(vs: seq<Video>, key: Video -> K, labelOf: Video -> string): map<K, MonthPoint>
  {
    if vs == [] then map[]
    else
      var v := vs[|vs| - 1];
      AddViews(Buckets(vs[..|vs| - 1], key, labelOf), key(v), labelOf(v), v.latestStats.viewCount)
  }

  /** Total views of the videos of `vs` whose key is `k`. */
  function ViewsIn<K(==)>(vs: seq<Video>, key: Video -> K, k: K): int
  {
    if vs == [] then 0
    else ViewsIn(vs[..|vs| - 1], key, k) + (if key(vs[|vs| - 1]) == k then vs[|vs| - 1].latestStats.viewCount else 0)
  }

  function TotalViews(vs: seq<Video>): int
  {
    if vs == [] then 0 else TotalViews(vs[..|vs| - 1]) + vs[|vs| - 1].latestStats.viewCount
  }

  function SumViews(ps: seq<MonthPoint>): int
  {
    if ps == [] then 0 else SumViews(ps[..|ps| - 1]) + ps[|ps| - 1].views
  }

  /** The `reduce` callback: the bucket of `monthKey` is created on first sight
      with the video's label and no views, then the video's views are added to
      it in place. */
  method AddVideo<K(==)>(keys: seq<K>, acc: map<K, MonthPoint>, monthKey: K, monthLabel: string, views: int)
    returns (keys': seq<K>, acc': map<K, MonthPoint>)
    requires forall k :: k in acc <==> k in keys
    ensures keys' == AddKey(keys, monthKey) && acc' == AddViews(acc, monthKey, monthLabel, views)
    ensures forall k :: k in acc' <==> k in keys'
  {
    keys', acc' := keys, acc;
    if monthKey !in acc' {
      acc' := acc'[monthKey := MonthPoint(monthLabel, 0)];
      keys' := keys' + [monthKey];
    }
    var point := acc'[monthKey];
    acc' := acc'[monthKey := point.(views := point.views + views)];
    if monthKey !in acc {
      assert acc' == acc[monthKey := MonthPoint(monthLabel, 0 + views)];
    }
  }

  lemma StepOf<K>(vs: seq<Video>, key: Video -> K, labelOf: Video -> string, i: nat)
    requires i < |vs|
    ensures FirstKeys(vs[..i + 1], key) == AddKey(FirstKeys(vs[..i], key), key(vs[i]))
    ensures Buckets(vs[..i + 1], key, labelOf) ==
      AddViews(Buckets(vs[..i], key, labelOf), key(vs[i]), labelOf(vs[i]), vs[i].latestStats.viewCount)
  {
    assert vs[..i + 1][..i] == vs[..i];
  }

  /** The `videos.reduce(...)` of lines 11-21: the dictionary and the order in
      which its keys were inserted. */
  method BucketByMonth(videos: seq<Video>) returns (keys: seq<string>, acc: map<string, MonthPoint>)
    ensures keys == FirstKeys(videos, KeyOf)
    ensures acc == Buckets(videos, KeyOf, LabelOf)
  {
    keys, acc := [], map[];
    var i := 0;
    while i < |videos|
      invariant 0 <= i <= |videos|
      invariant keys == FirstKeys(videos[..i], KeyOf)
      invariant acc == Buckets(videos[..i], KeyOf, LabelOf)
      invariant forall k :: k in acc <==> k in keys
    {
      var video := videos[i];
      StepOf(videos, KeyOf, LabelOf, i);
      keys, acc := AddVideo(keys, acc, KeyOf(video), LabelOf(video), video.latestStats.viewCount);
      i := i + 1;
    }
    assert videos[..i] == videos;
  }

  /** The values of `acc` listed in the order of `ks`. */
  function Rows(acc: map<string, MonthPoint>, ks: seq<string>): (r: seq<MonthPoint>)
    requires forall k :: k in ks ==> k in acc
    ensures |r| == |ks|
    ensures forall i :: 0 <= i < |ks| ==> r[i] == acc[ks[i]]
  {
    if ks == [] then [] else Rows(acc, ks[..|ks| - 1]) + [acc[ks[|ks| - 1]]]
  }

  /** `Object.entries(acc).sort(by key).map(value)`: the keys are distinct, so
      sorting the entries is sorting the keys. */
  function ChartData(keys: seq<string>, acc: map<string, MonthPoint>): seq<MonthPoint>
    requires forall k :: k in keys ==> k in acc
  {
    SortedDistinctSpec(keys);
    Rows(acc, SortedDistinct(keys))
  }

  function Render(data: seq<MonthPoint>): Rendered
  {
    if |data| == 0 then NoData else Line(data)
  }

  /** The sorted month keys of `vs`. */
  function MonthlyKeys(vs: seq<Video>): seq<string>
  {
    SortedDistinct(FirstKeys(vs, KeyOf))
  }

  function MonthlyData(vs: seq<Video>): seq<MonthPoint>
  {
    BucketsDomain(vs, KeyOf, LabelOf);
    ChartData(FirstKeys(vs, KeyOf), Buckets(vs, KeyOf, LabelOf))
  }

  /** The whole component: bucketing, then the sorted chart data, then the
      no-data check. */
  method MonthlyViews(videos: seq<Video>) returns (r: Rendered)
    ensures r == Render(MonthlyData(videos))
  {
    var keys, acc := BucketByMonth(videos);
    BucketsDomain(videos, KeyOf, LabelOf);
    r := Render(ChartData(keys, acc));
  }

  /** The key list has no repeats. */
  lemma {:induction false} FirstKeysDistinct<K>(vs: seq<Video>, key: Video -> K)
    ensures Distinct(FirstKeys(vs, key))
  {
    if vs != [] {
      FirstKeysDistinct(vs[..|vs| - 1], key);
    }
  }

  /** The key of every video is in the key list. */
  lemma {:induction false} FirstKeysCover<K>(vs: seq<Video>, key: Video -> K)
    ensures forall i :: 0 <= i < |vs| ==> key(vs[i]) in FirstKeys(vs, key)
  {
    if vs != [] {
      var init := vs[..|vs| - 1];
      FirstKeysCover(init, key);
      forall i | 0 <= i < |vs| ensures key(vs[i]) in FirstKeys(vs, key) {
        if i < |init| {
          assert vs[i] == init[i];
        }
      }
    }
  }

  /** Every key in the key list is the key of some video. */
  lemma {:induction false} FirstKeyWitness<K>(vs: seq<Video>, key: Video -> K, k: K) returns (j: nat)
    requires k in FirstKeys(vs, key)
    ensures j < |vs| && key(vs[j]) == k
  {
    var init := vs[..|vs| - 1];
    if k in FirstKeys(init, key) {
      j := FirstKeyWitness(init, key, k);
      assert vs[j] == init[j];
    } else {
      j := |vs| - 1;
    }
  }

  /** The dictionary has a bucket for exactly the keys in the key list. */
  lemma {:induction false} BucketsDomain<K>(vs: seq<Video>, key: Video -> K, labelOf: Video -> string)
    ensures forall k :: k in Buckets(vs, key, labelOf) <==> k in FirstKeys(vs, key)
  {
    if vs != [] {
      BucketsDomain(vs[..|vs| - 1], key, labelOf);
    }
  }

  /** Every bucket holds the views of its key, and a key without a bucket has no views. */
  lemma {:induction false} BucketsViews<K>(vs: seq<Video>, key: Video -> K, labelOf: Video -> string)
    ensures forall k :: k in Buckets(vs, key, labelOf) ==> Buckets(vs, key, labelOf)[k].views == ViewsIn(vs, key, k)
    ensures forall k :: k !in Buckets(vs, key, labelOf) ==> ViewsIn(vs, key, k) == 0
  {
    if vs != [] {
      var init, v := vs[..|vs| - 1], vs[|vs| - 1];
      BucketsViews(init, key, labelOf);
      var acc := Buckets(init, key, labelOf);
      forall k | k in Buckets(vs, key, labelOf)
        ensures Buckets(vs, key, labelOf)[k].views == ViewsIn(vs, key, k)
      {
        if k == key(v) && k !in acc {
          assert ViewsIn(init, key, k) == 0;
        }
      }
    }
  }

  /** Every bucket holds at least one video of its key. */
  lemma BucketWitness<K>(vs: seq<Video>, key: Video -> K, labelOf: Video -> string, k: K) returns (j: nat)
    requires k in Buckets(vs, key, labelOf)
    ensures j < |vs| && key(vs[j]) == k
  {
    BucketsDomain(vs, key, labelOf);
    j := FirstKeyWitness(vs, key, k);
  }

  /** When videos sharing a key share their label, every bucket carries the
      label of every one of its videos (the first one sets it). */
  lemma {:induction false} BucketsLabel<K>(vs: seq<Video>, key: Video -> K, labelOf: Video -> string)
    requires forall a, b :: key(a) == key(b) ==> labelOf(a) == labelOf(b)
    ensures forall i :: 0 <= i < |vs| ==>
      (key(vs[i]) in Buckets(vs, key, labelOf) && Buckets(vs, key, labelOf)[key(vs[i])].month == labelOf(vs[i]))
  {
    if vs != [] {
      var init, v := vs[..|vs| - 1], vs[|vs| - 1];
      BucketsLabel(init, key, labelOf);
      var acc := Buckets(init, key, labelOf);
      if key(v) in acc {
        var j := BucketWitness(init, key, labelOf, key(v));
        assert acc[key(v)].month == labelOf(init[j]) == labelOf(v);
      }
      forall i | 0 <= i < |vs|
        ensures key(vs[i]) in Buckets(vs, key, labelOf) && Buckets(vs, key, labelOf)[key(vs[i])].month == labelOf(vs[i])
      {
        if i < |init| {
          assert vs[i] == init[i];
        }
      }
    }
  }

  /** The month of a key can be read back from it: distinct months have distinct keys. */
  lemma MonthKeyInjective(a: YearMonth, b: YearMonth)
    requires MonthKey(a) == MonthKey(b)
    ensures a == b
  {
    var s := MonthKey(a);
    PadStart2TwoDigits(a.month);
    PadStart2TwoDigits(b.month);
    var ma, mb := PadStart2(IntToString(a.month)), PadStart2(IntToString(b.month));
    assert s == IntToString(a.year) + "-" + ma;
    assert s[..|s| - 3] == IntToString(a.year) && s[|s| - 2..] == ma;
    assert s == IntToString(b.year) + "-" + mb;
    assert s[..|s| - 3] == IntToString(b.year) && s[|s| - 2..] == mb;
    IntToStringInjective(a.year, b.year);
  }

  lemma KeyDeterminesLabel()
    ensures forall a, b :: KeyOf(a) == KeyOf(b) ==> LabelOf(a) == LabelOf(b)
  {
    forall a, b | KeyOf(a) == KeyOf(b) ensures LabelOf(a) == LabelOf(b) {
      MonthKeyInjective(a.publishedAt, b.publishedAt);
    }
  }

  /** Sum over the keys `ks` of the views in each. */
  function SumViewsIn<K(==)>(vs: seq<Video>, key: Video -> K, ks: seq<K>): int
  {
    if ks == [] then 0 else SumViewsIn(vs, key, ks[..|ks| - 1]) + ViewsIn(vs, key, ks[|ks| - 1])
  }

  lemma {:induction false} SumViewsInSnoc<K>(vs: seq<Video>, key: Video -> K, v: Video, ks: seq<K>)
    requires Distinct(ks)
    ensures SumViewsIn(vs + [v], key, ks) ==
      SumViewsIn(vs, key, ks) + (if key(v) in ks then v.latestStats.viewCount else 0)
  {
    if ks != [] {
      var init := ks[..|ks| - 1];
      assert Distinct(init);
      SumViewsInSnoc(vs, key, v, init);
      assert (vs + [v])[..|vs + [v]| - 1] == vs;
      assert ks == init + [ks[|ks| - 1]];
    }
  }

  lemma {:induction false} SumViewsInEmpty<K>(key: Video -> K, ks: seq<K>)
    ensures SumViewsIn([], key, ks) == 0
  {
    if ks != [] {
      SumViewsInEmpty(key, ks[..|ks| - 1]);
    }
  }

  /** Summing the buckets of a list of distinct keys that covers every video counts every view once. */
  lemma {:induction false} SumViewsInAll<K>(vs: seq<Video>, key: Video -> K, ks: seq<K>)
    requires Distinct(ks)
    requires forall i :: 0 <= i < |vs| ==> key(vs[i]) in ks
    ensures SumViewsIn(vs, key, ks) == TotalViews(vs)
  {
    if vs == [] {
      SumViewsInEmpty(key, ks);
    } else {
      var init := vs[..|vs| - 1];
      SumViewsInAll(init, key, ks);
      SumViewsInSnoc(init, key, vs[|vs| - 1], ks);
      assert init + [vs[|vs| - 1]] == vs;
    }
  }

  lemma {:induction false} RowsSum(vs: seq<Video>, ks: seq<string>)
    requires forall k :: k in ks ==> k in Buckets(vs, KeyOf, LabelOf)
    ensures SumViews(Rows(Buckets(vs, KeyOf, LabelOf), ks)) == SumViewsIn(vs, KeyOf, ks)
  {
    if ks != [] {
      var init := ks[..|ks| - 1];
      RowsSum(vs, init);
      BucketsViews(vs, KeyOf, LabelOf);
      assert Rows(Buckets(vs, KeyOf, LabelOf), ks)[..|ks| - 1] == Rows(Buckets(vs, KeyOf, LabelOf), init);
    }
  }

  /** No view is lost or counted twice: the plotted views add up to the views of all videos. */
  lemma ViewsConserved(vs: seq<Video>)
    ensures SumViews(MonthlyData(vs)) == TotalViews(vs)
  {
    var ks := MonthlyKeys(vs);
    FirstKeysCover(vs, KeyOf);
    SortedDistinctSpec(FirstKeys(vs, KeyOf));
    StrictlyIncreasingDistinct(ks);
    BucketsDomain(vs, KeyOf, LabelOf);
    RowsSum(vs, ks);
    SumViewsInAll(vs, KeyOf, ks);
  }

  /** The plotted months: in strictly increasing key order, one for each month that has videos and no other. */
  lemma MonthlyKeysSpec(vs: seq<Video>)
    ensures StrictlyIncreasing(MonthlyKeys(vs))
    ensures forall i :: 0 <= i < |vs| ==> KeyOf(vs[i]) in MonthlyKeys(vs)
    ensures forall k :: k in MonthlyKeys(vs) ==> exists i :: 0 <= i < |vs| && KeyOf(vs[i]) == k
  {
    SortedDistinctSpec(FirstKeys(vs, KeyOf));
    FirstKeysCover(vs, KeyOf);
    forall k | k in MonthlyKeys(vs) ensures exists i :: 0 <= i < |vs| && KeyOf(vs[i]) == k {
      var j := FirstKeyWitness(vs, KeyOf, k);
    }
  }

  /** One point per plotted month, carrying the views of that month. */
  lemma MonthlyDataViews(vs: seq<Video>)
    ensures |MonthlyData(vs)| == |MonthlyKeys(vs)|
    ensures forall n :: 0 <= n < |MonthlyKeys(vs)| ==>
      MonthlyData(vs)[n].views == ViewsIn(vs, KeyOf, MonthlyKeys(vs)[n])
  {
    SortedDistinctSpec(FirstKeys(vs, KeyOf));
    BucketsDomain(vs, KeyOf, LabelOf);
    BucketsViews(vs, KeyOf, LabelOf);
  }

  /** Each point is labelled with the "YYYY年M月" label of every video of its month. */
  lemma MonthlyDataLabels(vs: seq<Video>)
    ensures forall n, i :: 0 <= n < |MonthlyKeys(vs)| && 0 <= i < |vs| && KeyOf(vs[i]) == MonthlyKeys(vs)[n] ==>
      MonthlyData(vs)[n].month == LabelOf(vs[i])
  {
    SortedDistinctSpec(FirstKeys(vs, KeyOf));
    BucketsDomain(vs, KeyOf, LabelOf);
    KeyDeterminesLabel();
    BucketsLabel(vs, KeyOf, LabelOf);
  }

  /** The no-data message is shown exactly when there are no videos. */
  lemma NoDataIffEmpty(vs: seq<Video>)
    ensures Render(MonthlyData(vs)) == NoData <==> vs == []
  {
    MonthlyDataViews(vs);
    if vs != [] {
      FirstKeysCover(vs, KeyOf);
      SortedDistinctSpec(FirstKeys(vs, KeyOf));
      assert KeyOf(vs[0]) in MonthlyKeys(vs);
    }
  }

  /** For four-digit years the code-point order of keys is the calendar order of months. */
  lemma MonthKeyOrder(a: YearMonth, b: YearMonth)
    requires 1000 <= a.year <= 9999 && 1000 <= b.year <= 9999
    ensures LexLess(MonthKey(a), MonthKey(b)) <==> a.year < b.year || (a.year == b.year && a.month < b.month)
  {
    var ya, yb := IntToString(a.year), IntToString(b.year);
    var ma, mb := PadStart2(IntToString(a.month)), PadStart2(IntToString(b.month));
    assert Pow10(3) == 1000 && Pow10(4) == 10000;
    NatToStringLength(a.year, 4);
    NatToStringLength(b.year, 4);
    PadStart2TwoDigits(a.month);
    PadStart2TwoDigits(b.month);
    assert MonthKey(a) == ya + ("-" + ma) && MonthKey(b) == yb + ("-" + mb);
    LexLessConcat(ya, yb, "-" + ma, "-" + mb);
    LexLessConcat("-", "-", ma, mb);
    LexLessIrreflexive("-");
    DigitsOrder(ya, yb);
    DigitsOrder(ma, mb);
  }

  /** With four-digit years the points run in calendar order: a video plotted at
      an earlier point was published in an earlier month. */
  lemma MonthlyDataChronological(vs: seq<Video>, n: nat, m: nat, i: nat, j: nat)
    requires forall t :: 0 <= t < |vs| ==> 1000 <= vs[t].publishedAt.year <= 9999
    requires n < m < |MonthlyKeys(vs)| && i < |vs| && j < |vs|
    requires KeyOf(vs[i]) == MonthlyKeys(vs)[n] && KeyOf(vs[j]) == MonthlyKeys(vs)[m]
    ensures vs[i].publishedAt.year < vs[j].publishedAt.year ||
      (vs[i].publishedAt.year == vs[j].publishedAt.year && vs[i].publishedAt.month < vs[j].publishedAt.month)
  {
    SortedDistinctSpec(FirstKeys(vs, KeyOf));
    MonthKeyOrder(vs[i].publishedAt, vs[j].publishedAt);
  }
}
