/** utils/format.ts: the display strings the dashboard shows for counts and
    durations that the backend may send as `null` (or leave `undefined`), and
    the mapping of backend list items to the rows the channel and video tables show. */
module Format {
  import opened Wrappers
  import opened Decimal

  /** A JavaScript number field that may be `null` or `undefined`. Counts and
      durations are integers. */
  datatype Nullable = Null | Undefined | Value(n: int)

  /** `x.toFixed(1) + unit` for the number `t / 10`, given as a natural number of tenths. */
  function Tenths(t: nat, unit: char): (r: string)
    ensures |r| >= 4 && r[|r| - 1] == unit && r[|r| - 3] == '.' && IsDigit(r[|r| - 2])
    ensures AllDigits(r[..|r| - 3])
  {
    NatToString(t / 10) + "." + [DigitChar(t % 10)] + [unit]
  }

  /** `formatNumber`: "0" for a missing count, one-decimal millions with "M"
      from one million, one-decimal thousands with "K" from one thousand, and
      the plain decimal string below that. */
  function FormatNumber(num: Nullable): (r: string)
    ensures !num.Value? ==> r == "0"
    ensures num.Value? && 0 <= num.n < 1000 ==> |r| <= 3 && r == NatToString(num.n)
    ensures num.Value? && num.n >= 1000 ==>
      && |r| >= 4
      && r[|r| - 1] == (if num.n >= 1000000 then 'M' else 'K')
      && r[|r| - 3] == '.' && IsDigit(r[|r| - 2])
      && AllDigits(r[..|r| - 3])
  {
    match num
    case Null => "0"
    case Undefined => "0"
    case Value(n) =>
      if n >= 1000000 then Tenths((n + 50000) / 100000, 'M')
      else if n >= 1000 then Tenths((n + 50) / 100, 'K')
      else
        assert n >= 0 ==> n < Pow10(3);
        NatToStringShort(n);
        IntToString(n)
  }

  /** Fewer than three digits' worth of number is written with at most three characters. */
  lemma {:induction false} NatToStringShort(n: int)
    ensures 0 <= n < 1000 ==> |NatToString(n)| <= 3
  {
    if 0 <= n < 10 {
      NatToStringLength(n, 1);
    } else if 10 <= n < 100 {
      NatToStringLength(n, 2);
    } else if 100 <= n < 1000 {
      NatToStringLength(n, 3);
    }
  }

  /** From one thousand up to (not including) one million, the count is shown in
      thousands with one decimal: `t` tenths, where `t` is the nearest tenth with
      halves rounded up. */
  lemma FormatNumberThousands(n: int, t: nat)
    requires 1000 <= n < 1000000
    requires t * 100 <= n + 50 < t * 100 + 100
    ensures FormatNumber(Value(n)) == NatToString(t / 10) + "." + NatToString(t % 10) + "K"
  {
    assert (n + 50) / 100 == t;
    assert FormatNumber(Value(n)) == Tenths(t, 'K');
    TenthsDigits(t, 'K');
  }

  /** From one million up, the count is shown in millions with one decimal. */
  lemma FormatNumberMillions(n: int, t: nat)
    requires n >= 1000000
    requires t * 100000 <= n + 50000 < t * 100000 + 100000
    ensures FormatNumber(Value(n)) == NatToString(t / 10) + "." + NatToString(t % 10) + "M"
  {
    assert (n + 50000) / 100000 == t;
    assert FormatNumber(Value(n)) == Tenths(t, 'M');
    TenthsDigits(t, 'M');
  }

  lemma TenthsDigits(t: nat, unit: char)
    ensures Tenths(t, unit) == NatToString(t / 10) + "." + NatToString(t % 10) + [unit]
  {
    assert NatToString(t % 10) == [DigitChar(t % 10)];
  }

  /** The thousands branch is chosen before rounding, so the last fifty counts
      below one million are shown as "1000.0K" rather than "1.0M". */
  lemma FormatNumberBelowMillion(n: int)
    requires 999950 <= n < 1000000
    ensures FormatNumber(Value(n)) == "1000.0K"
  {
    assert (n + 50) / 100 == 10000;
    assert FormatNumber(Value(n)) == Tenths(10000, 'K');
    TenthsDigits(10000, 'K');
    NatToStringThousand();
  }

  lemma NatToStringThousand()
    ensures NatToString(1000) + "." + NatToString(0) + "K" == "1000.0K"
  {
    assert DigitChar(0) == '0' && DigitChar(1) == '1';
    assert NatToString(1) == "1";
    assert NatToString(10) == NatToString(1) + [DigitChar(0)];
    assert NatToString(100) == NatToString(10) + [DigitChar(0)];
    assert NatToString(1000) == NatToString(100) + [DigitChar(0)];
    assert NatToString(0) == "0";
  }

  /** JavaScript's `%` on integers: the remainder takes the sign of the dividend. */
  function JsRem(a: int, b: int): (r: int)
    requires b > 0
    ensures a >= 0 ==> 0 <= r < b
    ensures a < 0 ==> -b < r <= 0
    ensures a == b * (if a >= 0 then a / b else -((-a) / b)) + r
  {
    if a >= 0 then a % b else -((-a) % b)
  }

  /** `formatDuration`: "-" for a missing duration; otherwise hours, minutes and
      seconds as `H:MM:SS` when there is at least one hour and `M:SS` below that,
      with `Math.floor` for the quotients and JavaScript's `%` for the remainders. */
  function FormatDuration(seconds: Nullable): (r: string)
    ensures !seconds.Value? ==> r == "-"
  {
    match seconds
    case Null => "-"
    case Undefined => "-"
    case Value(s) => FormatClock(s / 3600, JsRem(s, 3600) / 60, JsRem(s, 60))
  }

  /** The template literal of `formatDuration` for given hours, minutes and seconds. */
  function FormatClock(hours: int, minutes: int, secs: int): string
  {
    if hours > 0 then
      IntToString(hours) + ":" + PadStart2(IntToString(minutes)) + ":" + PadStart2(IntToString(secs))
    else
      IntToString(minutes) + ":" + PadStart2(IntToString(secs))
  }

  /** A two-digit clock field below 60. */
  function ClockField(f: string): Option<nat>
  {
    if |f| == 2 && AllDigits(f) && ValueOf(f) < 60 then Some(ValueOf(f)) else None
  }

  /** Reads an `H:MM:SS` or `M:SS` clock string back as a number of seconds. */
  function ParseClock(c: string): Option<nat>
  {
    if |c| < 4 || c[|c| - 3] != ':' || ClockField(c[|c| - 2..]).None? then None
    else ParseClockFront(c[..|c| - 3], ClockField(c[|c| - 2..]).value)
  }

  /** The `H:MM` or `M` in front of the seconds field, and `secs` added to it.
      The first field is read only as `String(n)` writes it, without a leading zero. */
  function ParseClockFront(front: string, secs: nat): Option<nat>
  {
    if |front| >= 4 && front[|front| - 3] == ':' then
      var hours := front[..|front| - 3];
      var minutes := ClockField(front[|front| - 2..]);
      if minutes.Some? && Canonical(hours) then
        Some(ValueOf(hours) * 3600 + minutes.value * 60 + secs)
      else None
    else if Canonical(front) then Some(ValueOf(front) * 60 + secs)
    else None
  }

  lemma ClockFieldOf(n: nat)
    requires n < 60
    ensures ClockField(PadStart2(NatToString(n))) == Some(n)
  {
    PadStart2TwoDigits(n);
  }

  lemma DivMod3600(s: nat)
    ensures s == 3600 * (s / 3600) + s % 3600 && s % 3600 < 3600
  {
  }

  lemma DivMod60(s: nat)
    ensures s == 60 * (s / 60) + s % 60 && s % 60 < 60
  {
  }

  lemma Mod60Unique(s: nat, k: nat, x: nat)
    requires s == 60 * k + x && x < 60
    ensures s % 60 == x
  {
  }

  /** Hours, minutes and seconds of a non-negative duration recombine to it. */
  lemma ClockDecomposition(s: nat)
    ensures (s % 3600) / 60 < 60 && s % 60 < 60
    ensures (s / 3600) * 3600 + ((s % 3600) / 60) * 60 + s % 60 == s
    ensures s / 3600 > 0 <==> s >= 3600
  {
    var q, r := s / 3600, s % 3600;
    DivMod3600(s);
    DivMod60(r);
    var m, x := r / 60, r % 60;
    Mod60Unique(s, 60 * q + m, x);
  }

  /** The last field of `front + ":" + f` and what stands before its colon. */
  lemma SplitLastField(front: string, f: string)
    requires |f| == 2
    ensures var c := front + ":" + f;
      |c| == |front| + 3 && c[|c| - 3] == ':' && c[..|c| - 3] == front && c[|c| - 2..] == f
  {
    var c := front + ":" + f;
    assert c[..|c| - 3] == front;
    assert c[|c| - 2..] == f;
  }

  lemma ParseClockAt(c: string, front: string, secs: nat)
    requires |front| > 0 && |c| == |front| + 3 && c[|c| - 3] == ':' && c[..|c| - 3] == front
    requires ClockField(c[|c| - 2..]) == Some(secs)
    ensures ParseClock(c) == ParseClockFront(front, secs)
  {
  }

  lemma ParseClockHoursAt(front: string, hours: string, minutes: nat, secs: nat)
    requires Canonical(hours)
    requires |front| == |hours| + 3 && front[|front| - 3] == ':' && front[..|front| - 3] == hours
    requires ClockField(front[|front| - 2..]) == Some(minutes)
    ensures ParseClockFront(front, secs) == Some(ValueOf(hours) * 3600 + minutes * 60 + secs)
  {
  }

  lemma ParseClockMinutesAt(front: string, secs: nat)
    requires |front| < 4 && Canonical(front)
    ensures ParseClockFront(front, secs) == Some(ValueOf(front) * 60 + secs)
  {
  }

  /** `H:MM:SS` reads back as hours, minutes and seconds. */
  lemma ParseClockHms(hs: string, mm: string, ss: string, h: nat, m: nat, sec: nat)
    requires Canonical(hs) && ValueOf(hs) == h
    requires ClockField(mm) == Some(m) && ClockField(ss) == Some(sec)
    ensures var c := hs + ":" + mm + ":" + ss;
      ParseClock(c) == Some(h * 3600 + m * 60 + sec) && |c| >= 7 && c[|c| - 6] == ':'
  {
    var front := hs + ":" + mm;
    var c := front + ":" + ss;
    SplitLastField(hs, mm);
    SplitLastField(front, ss);
    ParseClockAt(c, front, sec);
    ParseClockHoursAt(front, hs, m, sec);
    assert c[|c| - 6] == front[|front| - 3];
  }

  /** `M:SS` reads back as minutes and seconds. */
  lemma ParseClockMs(ms: string, ss: string, m: nat, sec: nat)
    requires |ms| < 3 && Canonical(ms) && ValueOf(ms) == m
    requires ClockField(ss) == Some(sec)
    ensures var c := ms + ":" + ss; ParseClock(c) == Some(m * 60 + sec) && |c| < 7
  {
    SplitLastField(ms, ss);
    ParseClockAt(ms + ":" + ss, ms, sec);
    ParseClockMinutesAt(ms, sec);
  }

  lemma ParseFormatClockHours(h: nat, m: nat, sec: nat)
    requires h > 0 && m < 60 && sec < 60
    ensures var r := FormatClock(h, m, sec);
      ParseClock(r) == Some(h * 3600 + m * 60 + sec) && |r| >= 7 && r[|r| - 6] == ':'
  {
    var hs, mm, ss := NatToString(h), PadStart2(NatToString(m)), PadStart2(NatToString(sec));
    ClockFieldOf(m);
    ClockFieldOf(sec);
    assert Canonical(hs);
    assert FormatClock(h, m, sec) == hs + ":" + mm + ":" + ss;
    ParseClockHms(hs, mm, ss, h, m, sec);
  }

  lemma ParseFormatClockMinutes(m: nat, sec: nat)
    requires m < 60 && sec < 60
    ensures var r := FormatClock(0, m, sec); ParseClock(r) == Some(m * 60 + sec) && |r| < 7
  {
    var ms, ss := NatToString(m), PadStart2(NatToString(sec));
    ClockFieldOf(sec);
    if m >= 10 {
      NatToStringLength(m, 2);
    } else {
      NatToStringLength(m, 1);
    }
    assert Canonical(ms);
    assert FormatClock(0, m, sec) == ms + ":" + ss;
    ParseClockMs(ms, ss, m, sec);
  }

  /** `formatDuration`'s template read back by `ParseClock`. */
  lemma ParseFormatClock(h: nat, m: nat, sec: nat)
    requires m < 60 && sec < 60
    ensures ParseClock(FormatClock(h, m, sec)) == Some(h * 3600 + m * 60 + sec)
    ensures var r := FormatClock(h, m, sec); h > 0 <==> |r| >= 7 && r[|r| - 6] == ':'
  {
    if h > 0 {
      ParseFormatClockHours(h, m, sec);
    } else {
      ParseFormatClockMinutes(m, sec);
    }
  }

  /** For a non-negative duration the clock string reads back as the same number
      of seconds, and it has an hours field exactly when the duration is at
      least one hour. */
  lemma FormatDurationRoundTrip(s: nat)
    ensures ParseClock(FormatDuration(Value(s))) == Some(s)
    ensures var r := FormatDuration(Value(s)); s >= 3600 <==> |r| >= 7 && r[|r| - 6] == ':'
  {
    ClockDecomposition(s);
    assert FormatDuration(Value(s)) == FormatClock(s / 3600, (s % 3600) / 60, s % 60);
    ParseFormatClock(s / 3600, (s % 3600) / 60, s % 60);
  }

  /** A channel as the list endpoint sends it. */
  datatype BackendChannelListItem = BackendChannelListItem(
    id: int, title: string, subscriberCount: Nullable, viewCount: Nullable, videoCount: Nullable)

  /** A row of the channel table. */
  datatype ChannelListItem = ChannelListItem(
    id: string, name: string, subscribers: string, totalViews: string, videos: int, lastFetched: string)

  /** `formatChannelListItem`. */
  function FormatChannelListItem(channel: BackendChannelListItem): (r: ChannelListItem)
    ensures r.id == IntToString(channel.id) && ParseInt(r.id) == Some(channel.id)
    ensures r.name == channel.title
    ensures r.subscribers == FormatNumber(channel.subscriberCount)
    ensures r.totalViews == FormatNumber(channel.viewCount)
    ensures r.videos == if channel.videoCount.Value? then channel.videoCount.n else 0
    ensures r.lastFetched == "-"
  {
    ParseIntRoundTrip(channel.id);
    ChannelListItem(
      IntToString(channel.id), channel.title,
      FormatNumber(channel.subscriberCount), FormatNumber(channel.viewCount),
      match channel.videoCount case Value(n) => n case _ => 0,
      "-")
  }

  datatype BackendVideoStats = BackendVideoStats(viewCount: Nullable, likeCount: Nullable, commentCount: Nullable)

  /** A video as the video-list endpoint sends it. */
  datatype BackendVideoListItem = BackendVideoListItem(
    id: int, title: string, durationSec: Nullable, latestStats: BackendVideoStats)

  /** A row of the video table. */
  datatype VideoListItem = VideoListItem(
    id: string, title: string, publishedAt: string, views: string, likes: string, comments: string, duration: string)

  /** `formatVideoListItem`. The publish date is rendered by the browser's
      `toLocaleDateString("ja-JP")`, which is outside this model: the caller
      passes the rendered text in `publishedText`. */
  function FormatVideoListItem(video: BackendVideoListItem, publishedText: string): (r: VideoListItem)
    ensures r.id == IntToString(video.id) && ParseInt(r.id) == Some(video.id)
    ensures r.title == video.title && r.publishedAt == publishedText
    ensures r.views == FormatNumber(video.latestStats.viewCount)
    ensures r.likes == FormatNumber(video.latestStats.likeCount)
    ensures r.comments == FormatNumber(video.latestStats.commentCount)
    ensures !video.latestStats.likeCount.Value? ==> r.likes == "0"
    ensures !video.latestStats.commentCount.Value? ==> r.comments == "0"
    ensures !video.durationSec.Value? ==> r.duration == "-"
    ensures video.durationSec.Value? && video.durationSec.n >= 0 ==> ParseClock(r.duration) == Some(video.durationSec.n)
  {
    ParseIntRoundTrip(video.id);
    var r := VideoListItem(
      IntToString(video.id), video.title, publishedText,
      FormatNumber(video.latestStats.viewCount),
      FormatNumber(video.latestStats.likeCount),
      FormatNumber(video.latestStats.commentCount),
      FormatDuration(video.durationSec));
    if video.durationSec.Value? && video.durationSec.n >= 0 then
      FormatDurationRoundTrip(video.durationSec.n);
      r
    else r
  }
}
