/** backend/services/youtube_client.py, the parts that are not network calls:
    `_parse_duration`, which reads the time-only durations of the YouTube Data
    API (ISO 8601 durations with designators, `PT#H#M#S`), and the split of
    the video ids into request chunks in `get_videos_info`. */
module YouTubeClient {
  import opened Wrappers
  import opened Text
  import opened Decimal

  /** Length of the run of ASCII digits at the start of `s` (`\d+` taken greedily). */
  function DigitRun(s: string): (n: nat)
    ensures n <= |s|
    ensures AllDigits(s[..n])
    ensures n == |s| || !IsDigit(s[n])
  {
    if s == [] || !IsDigit(s[0]) then 0
    else
      var n := 1 + DigitRun(s[1..]);
      assert s[..n] == [s[0]] + s[1..][..n - 1];
      n
  }

  /** The optional group `(?:(\d+)D)?` at the start of `s`: its number and what
      follows it when digits followed by the designator `d` are there, and
      nothing consumed otherwise. */
  function Component(s: string, d: char): (r: (Option<nat>, string))
    ensures r.0.None? ==> r.1 == s
    ensures r.0.Some? <==> 0 < DigitRun(s) < |s| && s[DigitRun(s)] == d
    ensures r.0.Some? ==> r.0.value == ValueOf(s[..DigitRun(s)]) && r.1 == s[DigitRun(s) + 1..]
  {
    var k := DigitRun(s);
    if 0 < k < |s| && s[k] == d then (Some(ValueOf(s[..k])), s[k + 1..]) else (None, s)
  }

  /** `_parse_duration`: `None` for the empty string and for a string that does
      not start with "PT"; otherwise hours, minutes and seconds, each optional
      and counted as 0 when absent, in seconds. Only the start is matched
      (`re.match`), so whatever follows is ignored. */
  function ParseDuration(s: string): (r: Option<int>)
    ensures s == "" || !StartsWith(s, "PT") ==> r == None
    ensures StartsWith(s, "PT") ==> r.Some? && r.value >= 0
  {
    if s == "" || !StartsWith(s, "PT") then None
    else
      var (h, afterH) := Component(s[2..], 'H');
      var (m, afterM) := Component(afterH, 'M');
      var (sec, _) := Component(afterM, 'S');
      Some(h.GetOr(0) * 3600 + m.GetOr(0) * 60 + sec.GetOr(0))
  }

  /** One written group: the number and its designator, or nothing for zero. */
  function Group(n: nat, d: char): string
  {
    if n > 0 then NatToString(n) + [d] else ""
  }

  /** The duration as the API writes it: "PT", then each non-zero component
      with its designator ("PT0S" for zero is not produced here). */
  function IsoDuration(h: nat, m: nat, sec: nat): string
  {
    "PT" + Group(h, 'H') + Group(m, 'M') + Group(sec, 'S')
  }

  /** A group is read back when its digits and designator come first. */
  lemma {:induction false} ComponentPresent(n: nat, d: char, rest: string)
    requires !IsDigit(d)
    ensures Component(NatToString(n) + [d] + rest, d) == (Some(n), rest)
  {
    var s := NatToString(n) + [d] + rest;
    var k := |NatToString(n)|;
    DigitRunExact(NatToString(n), [d] + rest);
    assert s == NatToString(n) + ([d] + rest);
    assert s[..k] == NatToString(n);
    assert s[k + 1..] == rest;
  }

  /** A group is skipped when its designator does not follow the digits at the start. */
  lemma {:induction false} ComponentAbsent(s: string, d: char)
    requires DigitRun(s) == 0 || DigitRun(s) == |s| || s[DigitRun(s)] != d
    ensures Component(s, d) == (None, s)
  {
  }

  lemma {:induction false} DigitRunExact(a: string, b: string)
    requires AllDigits(a) && (b == [] || !IsDigit(b[0]))
    ensures DigitRun(a + b) == |a|
  {
    if a != [] {
      assert (a + b)[1..] == a[1..] + b;
      DigitRunExact(a[1..], b);
    } else {
      assert a + b == b;
    }
  }

  /** Text after a written duration that ends in its seconds group is ignored: only the start is matched. */
  lemma {:induction false} ParseIsoDurationTail(h: nat, m: nat, sec: nat, tail: string)
    requires sec > 0 || tail == []
    ensures ParseDuration(IsoDuration(h, m, sec) + tail) == Some(h * 3600 + m * 60 + sec)
  {
    IsoDurationShape(h, m, sec, tail);
    ParseGroups(h, m, sec, tail);
  }

  /** `_parse_duration` of "PT" and the three written groups, then `tail`. */
  lemma {:induction false} ParseGroups(h: nat, m: nat, sec: nat, tail: string)
    requires sec > 0 || tail == []
    ensures ParseDuration("PT" + (Group(h, 'H') + (Group(m, 'M') + (Group(sec, 'S') + tail)))) == Some(h * 3600 + m * 60 + sec)
  {
    var afterM := Group(sec, 'S') + tail;
    var afterH := Group(m, 'M') + afterM;
    if sec > 0 {
      GroupHead(sec, 'S', tail);
    }
    if m > 0 {
      GroupHead(m, 'M', afterM);
    } else {
      assert afterH == afterM;
    }
    ComponentStep(h, 'H', afterH);
    ComponentStep(m, 'M', afterM);
    ComponentStep(sec, 'S', tail);
    var rest := Group(h, 'H') + afterH;
    ParseTotal(rest, OptionOf(h), h, afterH, OptionOf(m), m, afterM, OptionOf(sec), sec);
  }

  lemma {:induction false} IsoDurationShape(h: nat, m: nat, sec: nat, tail: string)
    ensures IsoDuration(h, m, sec) + tail == "PT" + (Group(h, 'H') + (Group(m, 'M') + (Group(sec, 'S') + tail)))
  {
  }

  /** A written group's number as the parser reports it: absent for zero. */
  function OptionOf(n: nat): (r: Option<nat>)
    ensures r.GetOr(0) == n
  {
    if n > 0 then Some(n) else None
  }

  /** All three groups written out, zeros included ("PT0H5M0S"), then any text:
      each group is read as its number. */
  lemma {:induction false} ParseWrittenGroups(h: nat, m: nat, sec: nat, tail: string)
    ensures ParseDuration("PT" + (NatToString(h) + ['H'] + (NatToString(m) + ['M'] + (NatToString(sec) + ['S'] + tail))))
      == Some(h * 3600 + m * 60 + sec)
  {
    var afterM := NatToString(sec) + ['S'] + tail;
    var afterH := NatToString(m) + ['M'] + afterM;
    var rest := NatToString(h) + ['H'] + afterH;
    ComponentPresent(h, 'H', afterH);
    ComponentPresent(m, 'M', afterM);
    ComponentPresent(sec, 'S', tail);
    ParseTotal(rest, Some(h), h, afterH, Some(m), m, afterM, Some(sec), sec);
  }

  /** The duration from the three groups' readings, each counted as `n` when
      read as `Some(n)` and as 0 when absent. */
  lemma {:induction false} ParseTotal(rest: string, oh: Option<nat>, h: nat, afterH: string,
                                      om: Option<nat>, m: nat, afterM: string, os: Option<nat>, sec: nat)
    requires Component(rest, 'H') == (oh, afterH) && oh.GetOr(0) == h
    requires Component(afterH, 'M') == (om, afterM) && om.GetOr(0) == m
    requires Component(afterM, 'S').0 == os && os.GetOr(0) == sec
    ensures ParseDuration("PT" + rest) == Some(h * 3600 + m * 60 + sec)
  {
    assert ("PT" + rest)[2..] == rest;
  }

  /** A written group starts with exactly the digits of its number, then its designator. */
  lemma {:induction false} GroupHead(n: nat, e: char, rest: string)
    requires n > 0 && !IsDigit(e)
    ensures DigitRun(Group(n, e) + rest) == |NatToString(n)|
    ensures (Group(n, e) + rest)[|NatToString(n)|] == e
  {
    assert Group(n, e) + rest == NatToString(n) + ([e] + rest);
    DigitRunExact(NatToString(n), [e] + rest);
  }

  /** One group of the written duration is read back, or skipped when it is zero. */
  lemma {:induction false} ComponentStep(n: nat, d: char, rest: string)
    requires d == 'H' || d == 'M' || d == 'S'
    requires n == 0 ==> DigitRun(rest) == 0 || DigitRun(rest) == |rest| || rest[DigitRun(rest)] != d
    ensures Component(Group(n, d) + rest, d) == (OptionOf(n), rest)
  {
    if n > 0 {
      ComponentPresent(n, d, rest);
    } else {
      assert "" + rest == rest;
      ComponentAbsent(rest, d);
    }
  }

  /** `_parse_duration` reads back every duration the API writes. */
  lemma {:induction false} ParseIsoDuration(h: nat, m: nat, sec: nat)
    ensures ParseDuration(IsoDuration(h, m, sec)) == Some(h * 3600 + m * 60 + sec)
  {
    ParseIsoDurationTail(h, m, sec, []);
    assert IsoDuration(h, m, sec) + [] == IsoDuration(h, m, sec);
  }

  /** "PT" with no group is a duration of zero. */
  lemma ParseDurationBare()
    ensures ParseDuration("PT") == Some(0)
  {
    assert ("PT")[2..] == "";
  }

  /** Digits with no designator after the last group are ignored: "PT1H30" is one hour. */
  lemma ParseDurationDanglingDigits()
    ensures ParseDuration("PT1H30") == Some(3600)
  {
    var rest := "1H30";
    assert ("PT1H30")[2..] == rest;
    assert DigitRun(rest) == 1 by {
      assert DigitRun(rest[1..]) == 0;
    }
    assert rest[..1] == "1" && rest[2..] == "30";
    assert DigitRun("30") == 2 by {
      assert DigitRun("30"[1..]) == 1;
    }
    assert ValueOf("1") == 1;
  }

  /** `chunk_size` in `get_videos_info`. */
  const ChunkSize := 50

  function Min(a: int, b: int): int {
    if a < b then a else b
  }

  /** Number of chunks `range(0, n, 50)` yields: the ceiling of n / 50. */
  function ChunkCount(n: nat): nat {
    (n + ChunkSize - 1) / ChunkSize
  }

  /** `[ids[i : i + 50] for i in range(0, len(ids), 50)]`: chunk `k` is the
      slice from `50 * k`, cut off at the end of `ids`. */
  function Chunks<T>(ids: seq<T>): (r: seq<seq<T>>)
    ensures |r| == ChunkCount(|ids|)
  {
    seq(ChunkCount(|ids|), k requires 0 <= k < ChunkCount(|ids|) => ChunkAt(ids, k))
  }

  /** Chunk `k`: the slice from `50 * k`, cut off at the end of `ids`. */
  function ChunkAt<T>(ids: seq<T>, k: nat): seq<T>
    requires k < ChunkCount(|ids|)
  {
    ChunkStart(|ids|, k);
    ids[k * ChunkSize .. Min(k * ChunkSize + ChunkSize, |ids|)]
  }

  /** Every chunk starts inside `ids`. */
  lemma ChunkStart(n: nat, k: nat)
    requires k < ChunkCount(n)
    ensures k * ChunkSize < n
  {
  }

  function Flatten<T>(xss: seq<seq<T>>): seq<T>
  {
    if xss == [] then [] else xss[0] + Flatten(xss[1..])
  }

  /** After the first chunk come the chunks of the rest. */
  lemma ChunksStep<T>(ids: seq<T>)
    requires |ids| > 0
    ensures Chunks(ids) == [ids[..Min(ChunkSize, |ids|)]] + Chunks(ids[Min(ChunkSize, |ids|)..])
  {
    var c := Min(ChunkSize, |ids|);
    var rest := ids[c..];
    if |ids| > ChunkSize {
      assert ChunkCount(|ids|) == ChunkCount(|rest|) + 1;
      forall k | 0 <= k < ChunkCount(|rest|)
        ensures Chunks(ids)[k + 1] == Chunks(rest)[k]
      {
        ChunkShift(ids, k);
      }
    } else {
      assert ChunkCount(|ids|) == 1 && ChunkCount(|rest|) == 0;
    }
  }

  /** Chunk `k + 1` of `ids` is chunk `k` of what follows the first chunk. */
  lemma ChunkShift<T>(ids: seq<T>, k: nat)
    requires |ids| > ChunkSize && k < ChunkCount(|ids| - ChunkSize)
    ensures k + 1 < ChunkCount(|ids|)
    ensures Chunks(ids)[k + 1] == Chunks(ids[ChunkSize..])[k]
  {
    var rest := ids[ChunkSize..];
    ChunkStart(|rest|, k);
    var lo := k * ChunkSize;
    var hi := Min(lo + ChunkSize, |rest|);
    assert (k + 1) * ChunkSize == lo + ChunkSize;
    assert ChunkCount(|ids|) == ChunkCount(|rest|) + 1;
    assert Chunks(ids)[k + 1] == ChunkAt(ids, k + 1) == ids[lo + ChunkSize .. hi + ChunkSize];
    assert Chunks(rest)[k] == ChunkAt(rest, k) == rest[lo .. hi];
    assert rest[lo .. hi] == ids[lo + ChunkSize .. hi + ChunkSize];
  }

  /** The chunks, put back together, are the ids in their order; each holds
      between 1 and 50 ids, and all but the last hold exactly 50. */
  lemma {:induction false} ChunksSpec<T>(ids: seq<T>)
    ensures Flatten(Chunks(ids)) == ids
    ensures forall k :: 0 <= k < |Chunks(ids)| ==> 0 < |Chunks(ids)[k]| <= ChunkSize
    ensures forall k :: 0 <= k < |Chunks(ids)| - 1 ==> |Chunks(ids)[k]| == ChunkSize
    decreases |ids|
  {
    if ids != [] {
      var c := Min(ChunkSize, |ids|);
      ChunksStep(ids);
      ChunksSpec(ids[c..]);
      assert ids == ids[..c] + ids[c..];
    }
  }

  /** What `get_videos_info` hands to its thread pool: the chunks and `max_workers`. */
  datatype FetchPlan<T> = FetchPlan(chunks: seq<seq<T>>, maxWorkers: nat)

  /** `get_videos_info` up to the thread pool: no plan (the early `return []`)
      for no ids; otherwise the chunks and `min(10, total_chunks)` workers. */
  function PlanFetch<T>(ids: seq<T>): (r: Option<FetchPlan<T>>)
    ensures r.None? <==> ids == []
    ensures r.Some? ==> r.value.maxWorkers == Min(10, ChunkCount(|ids|))
    ensures r.Some? ==> 1 <= r.value.maxWorkers <= 10 && r.value.maxWorkers <= |r.value.chunks|
    ensures r.Some? ==> r.value.chunks == Chunks(ids)
  {
    if ids == [] then None
    else Some(FetchPlan(Chunks(ids), Min(10, |Chunks(ids)|)))
  }
}
