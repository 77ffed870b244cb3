/** components/features/charts/TopVideosChart.tsx: the caller's video array is
    sorted in place by views, highest first; the first ten become bars whose
    titles are cut to 30 characters. */
module TopVideosChart {
  import opened Text
  import opened Sorting
  import opened VideoTypes

  datatype Bar = Bar(title: string, views: int)

  const MaxBars := 10
  const MaxTitle := 30

  /** `videos.sort((a, b) => b.latestStats.viewCount - a.latestStats.viewCount)`:
      an in-place stable sort, here by insertion. The array ends up holding
      exactly the stable descending order of its old contents. */
  method SortByViews(a: array<Video>)
    modifies a
    ensures a[..] == SortDesc(old(a[..]), Views)
  {
    ghost var a0 := a[..];
    var i := 0;
    while i < a.Length
      invariant 0 <= i <= a.Length
      invariant a[..i] == SortDesc(a0[..i], Views)
      invariant a[i..] == a0[i..]
    {
      assert a[i] == a0[i];
      InsertAt(a, i);
      assert a0[..i + 1][..i] == a0[..i];
      i := i + 1;
    }
    assert a[..] == a[..a.Length] && a0 == a0[..a.Length];
  }

  /** One step of the insertion sort: `a[i]` moves left past the videos with
      fewer views, which shift one place right. */
  method InsertAt(a: array<Video>, i: int)
    requires 0 <= i < a.Length
    modifies a
    ensures a[..i + 1] == InsertDesc(old(a[i]), old(a[..i]), Views)
    ensures a[i + 1..] == old(a[i + 1..])
  {
    ghost var p := a[..i];
    var x := a[i];
    var j := i;
    while j > 0 && a[j - 1].latestStats.viewCount < x.latestStats.viewCount
      invariant 0 <= j <= i
      invariant forall t :: 0 <= t < j ==> a[t] == p[t]
      invariant forall t :: j < t <= i ==> a[t] == p[t - 1]
      invariant forall t :: i < t < a.Length ==> a[t] == old(a[t])
      invariant forall t :: j <= t < i ==> Views(p[t]) < Views(x)
    {
      a[j] := a[j - 1];
      j := j - 1;
    }
    a[j] := x;
    InsertDescShifted(a[..i + 1], p, x, j, Views);
  }

  /** `.slice(0, 10).map(...)` over the sorted videos. */
  function TopBars(sorted: seq<Video>): (r: seq<Bar>)
    ensures |r| == if |sorted| < MaxBars then |sorted| else MaxBars
  {
    var n := if |sorted| < MaxBars then |sorted| else MaxBars;
    seq(n, i requires 0 <= i < n => Bar(Truncate(sorted[i].title, MaxTitle), sorted[i].latestStats.viewCount))
  }

  /** The `topVideos` pipeline: sort the caller's array, then take the bars. */
  method TopVideos(a: array<Video>) returns (bars: seq<Bar>)
    modifies a
    ensures a[..] == SortDesc(old(a[..]), Views)
    ensures bars == TopBars(a[..])
  {
    SortByViews(a);
    bars := TopBars(a[..]);
  }

  /** What the chart shows for a list of videos: the bars of its descending order. */
  function Chart(videos: seq<Video>): seq<Bar>
  {
    TopBars(SortDesc(videos, Views))
  }

  /** At most ten bars, one per video while there are fewer, and none exactly
      when there are no videos (the no-data branch). */
  lemma ChartLength(videos: seq<Video>)
    ensures |Chart(videos)| == if |videos| < 10 then |videos| else 10
    ensures Chart(videos) == [] <==> videos == []
  {
  }

  /** Bar views are non-increasing, each bar shows the views and the (possibly
      cut) title of the video at its rank, and every video left out has no
      more views than any bar. */
  lemma ChartOrder(videos: seq<Video>)
    ensures forall i, j :: 0 <= i < j < |Chart(videos)| ==> Chart(videos)[i].views >= Chart(videos)[j].views
    ensures forall i :: 0 <= i < |Chart(videos)| ==>
      Chart(videos)[i].views == SortDesc(videos, Views)[i].latestStats.viewCount &&
      Chart(videos)[i].title == Truncate(SortDesc(videos, Views)[i].title, 30)
    ensures forall i, k :: 0 <= i < |Chart(videos)| <= k < |videos| ==>
      Chart(videos)[i].views >= SortDesc(videos, Views)[k].latestStats.viewCount
  {
    SortDescSpec(videos, Views);
    var s := SortDesc(videos, Views);
    assert forall i, j :: 0 <= i < j < |s| ==> Views(s[i]) >= Views(s[j]);
  }

  /** The sorted array holds the same videos, and videos with equal view counts
      keep their order (the sort is stable). */
  lemma SortKeepsVideos(videos: seq<Video>, views: int)
    ensures multiset(SortDesc(videos, Views)) == multiset(videos)
    ensures WithKey(SortDesc(videos, Views), views as real, Views) == WithKey(videos, views as real, Views)
  {
    SortDescSpec(videos, Views);
    SortDescStable(videos, views as real, Views);
  }

  /** A bar title is the full title when it has at most 30 characters, and
      otherwise its first 30 characters followed by "...". */
  lemma BarTitle(videos: seq<Video>, i: nat)
    requires i < |Chart(videos)|
    ensures var t := SortDesc(videos, Views)[i].title;
      (|t| <= 30 ==> Chart(videos)[i].title == t) &&
      (|t| > 30 ==> Chart(videos)[i].title == t[..30] + "...")
  {
  }
}
