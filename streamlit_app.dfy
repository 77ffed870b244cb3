/** backend/streamlit/app.py: the display helpers of the dashboard page —
    `format_number`, the handle input's `@` strip, the labels of the video
    multiselect and its default selection. */
module StreamlitApp {
  import opened Wrappers
  import opened Text
  import opened Decimal

  /** What a table cell hands to `format_number`: `None`, an integer, or text. */
  datatype Value = NoValue | IntValue(n: int) | TextValue(s: string)

  /** Digits with a comma every three from the right: Python's `,` format option. */
  function GroupDigits(d: string): (r: string)
    decreases |d|
  {
    if |d| <= 3 then d else GroupDigits(d[..|d| - 3]) + "," + d[|d| - 3..]
  }

  /** `f"{n:,}"`. */
  function WithCommas(n: int): string {
    if n < 0 then "-" + GroupDigits(NatToString(-n)) else GroupDigits(NatToString(n))
  }

  /** The string without its commas. */
  function DropCommas(s: string): (r: string)
    ensures ',' !in r
  {
    if s == [] then [] else DropCommas(s[..|s| - 1]) + (if s[|s| - 1] == ',' then [] else [s[|s| - 1]])
  }

  lemma {:induction false} DropCommasConcat(a: string, b: string)
    ensures DropCommas(a + b) == DropCommas(a) + DropCommas(b)
    decreases |b|
  {
    if b == [] {
      assert a + b == a;
    } else {
      assert (a + b)[..|a + b| - 1] == a + b[..|b| - 1];
      DropCommasConcat(a, b[..|b| - 1]);
    }
  }

  lemma {:induction false} DropCommasNone(s: string)
    requires ',' !in s
    ensures DropCommas(s) == s
  {
    if s != [] {
      DropCommasNone(s[..|s| - 1]);
    }
  }

  lemma GroupDigitsSplit(d: string)
    requires |d| > 3
    ensures GroupDigits(d) == GroupDigits(d[..|d| - 3]) + [','] + d[|d| - 3..]
  {
  }

  /** Grouping only inserts commas: removing them gives back the digits. */
  lemma {:induction false} GroupDigitsDropCommas(d: string)
    requires AllDigits(d)
    ensures DropCommas(GroupDigits(d)) == d
    decreases |d|
  {
    if |d| <= 3 {
      DropCommasNone(d);
    } else {
      var front, back := d[..|d| - 3], d[|d| - 3..];
      GroupDigitsDropCommas(front);
      GroupDigitsSplit(d);
      DropCommasNone(back);
      DropCommasAppend(GroupDigits(front), front, back);
      assert front + back == d;
    }
  }

  lemma DropCommasAppend(g: string, front: string, back: string)
    requires DropCommas(g) == front
    requires DropCommas(back) == back
    ensures DropCommas(g + [','] + back) == front + back
  {
    var gc := g + [','];
    assert DropCommas([',']) == [] by {
      assert [','][..0] == [];
    }
    DropCommasConcat(g, [',']);
    assert DropCommas(gc) == front;
    DropCommasConcat(gc, back);
    assert g + [','] + back == gc + back;
  }

  /** A comma sits exactly at every fourth place counted from the right end, so
      each group has three digits except the first, which has one to three. */
  lemma {:induction false} GroupDigitsCommas(d: string)
    requires |d| >= 1 && AllDigits(d)
    ensures CommasEveryFour(GroupDigits(d))
    decreases |d|
  {
    if |d| <= 3 {
      assert forall i :: 0 <= i < |d| ==> d[i] != ',' && (|d| - 1 - i) % 4 != 3 by {
        forall i | 0 <= i < |d| ensures d[i] != ',' && (|d| - 1 - i) % 4 != 3 {
          assert IsDigit(d[i]);
        }
      }
    } else {
      var front, back := d[..|d| - 3], d[|d| - 3..];
      GroupDigitsCommas(front);
      GroupDigitsSplit(d);
      assert AllDigits(back) by {
        forall i | 0 <= i < |back| ensures IsDigit(back[i]) {
          assert back[i] == d[|d| - 3 + i];
        }
      }
      CommasAppend(GroupDigits(front), back);
    }
  }

  /** A comma exactly at every fourth place from the right, and not first. */
  predicate CommasEveryFour(r: string) {
    |r| % 4 != 0 &&
    forall i :: 0 <= i < |r| ==> (r[i] == ',' <==> (|r| - 1 - i) % 4 == 3)
  }

  lemma CommasAppend(g: string, back: string)
    requires |back| == 3 && AllDigits(back)
    requires CommasEveryFour(g)
    ensures CommasEveryFour(g + [','] + back)
  {
    var r := g + [','] + back;
    forall i | 0 <= i < |r| ensures r[i] == ',' <==> (|r| - 1 - i) % 4 == 3 {
      if i < |g| {
        assert r[i] == g[i];
        Mod4Shift(|g| - 1 - i);
      } else if i > |g| {
        assert r[i] == back[i - |g| - 1];
        assert IsDigit(back[i - |g| - 1]);
      }
    }
    Mod4Shift(|g|);
  }

  lemma Mod4Shift(k: nat)
    ensures (k + 4) % 4 == k % 4
  {
  }

  /** `format_number`: "N/A" for `None`, "" and "N/A"; otherwise `int(value)`
      with thousands separators. `int()` of other text that is not a numeral
      raises `ValueError`, which nothing catches (here `None`). */
  function FormatNumber(value: Value): (r: Option<string>)
    ensures value.NoValue? ==> r == Some("N/A")
  {
    match value
    case NoValue => Some("N/A")
    case TextValue(s) =>
      if s == "" || s == "N/A" then Some("N/A")
      else (match ParseInt(s) case None => None case Some(n) => Some(WithCommas(n)))
    case IntValue(n) => Some(WithCommas(n))
  }

  /** Removing the separators from `f"{n:,}"` gives `str(n)`. */
  lemma WithCommasDigits(n: int)
    ensures DropCommas(WithCommas(n)) == IntToString(n)
  {
    if n < 0 {
      var d := NatToString(-n);
      GroupDigitsDropCommas(d);
      DropCommasSign(GroupDigits(d), d);
    } else {
      GroupDigitsDropCommas(NatToString(n));
    }
  }

  lemma DropCommasSign(g: string, d: string)
    requires DropCommas(g) == d
    ensures DropCommas("-" + g) == "-" + d
  {
    DropCommasConcat("-", g);
    assert DropCommas("-") == "-" by {
      assert "-"[..0] == [];
    }
  }

  /** Removing the separators from `format_number(v)` gives `str(int(v))`. */
  lemma FormatNumberDigits(n: int)
    ensures FormatNumber(IntValue(n)).Some?
    ensures DropCommas(FormatNumber(IntValue(n)).value) == IntToString(n)
  {
    WithCommasDigits(n);
  }

  /** `format_number(v)` is the sign, then the digits of the magnitude with a
      separator at every fourth place from the right. */
  lemma FormatNumberGroups(n: int)
    ensures var g := GroupDigits(NatToString(if n < 0 then -n else n));
      FormatNumber(IntValue(n)) == Some((if n < 0 then "-" else "") + g) &&
      CommasEveryFour(g)
  {
    var g := GroupDigits(NatToString(if n < 0 then -n else n));
    GroupDigitsCommas(NatToString(if n < 0 then -n else n));
    assert "" + g == g;
  }

  /** A text cell holding a numeral is formatted like the integer it denotes;
      an unparsable one is the uncaught `ValueError`. */
  lemma FormatNumberText(s: string)
    ensures s == "" || s == "N/A" ==> FormatNumber(TextValue(s)) == Some("N/A")
    ensures s != "" && s != "N/A" && ParseInt(s).None? ==> FormatNumber(TextValue(s)).None?
    ensures ParseInt(s).Some? ==> FormatNumber(TextValue(s)) == FormatNumber(IntValue(ParseInt(s).value))
  {
    if s == "N/A" {
      assert s[0] == 'N' && !IsDigit(s[0]) && !IsSpace(s[0]) && !IsSpace(s[2]);
      StripUnchanged(s);
    }
  }

  /** The handle input: nothing is looked up for an empty input, and exactly
      one leading "@" is removed before the lookup. */
  function ChannelLookupKey(input: string): (r: Option<string>)
    ensures input == "" <==> r.None?
    ensures r.Some? && StartsWith(input, "@") ==> input == "@" + r.value
    ensures r.Some? && !StartsWith(input, "@") ==> r.value == input
  {
    if input == "" then None
    else if StartsWith(input, "@") then Some(input[1..])
    else Some(input)
  }

  const TitleLimit := 50
  const DefaultSelectionSize := 5

  /** A video as the multiselect sees it. */
  datatype Video = Video(id: int, title: string)

  /** The option label of a video: its title cut to 50 characters, then its id. */
  function VideoLabel(v: Video): (r: string)
    ensures |IdTail(v.id)| <= |r| && r[|r| - |IdTail(v.id)|..] == IdTail(v.id)
  {
    var t := Truncate(v.title, TitleLimit);
    assert (t + IdTail(v.id))[|t|..] == IdTail(v.id);
    t + IdTail(v.id)
  }

  /** The end of every label: " (ID: <id>)". */
  function IdTail(id: int): string {
    " (ID: " + IntToString(id) + ")"
  }

  /** The name of a video's line in the growth chart. */
  function TraceName(title: string): (r: string)
    ensures |r| <= TitleLimit + 3
    ensures |title| <= TitleLimit ==> r == title
  {
    Truncate(title, TitleLimit)
  }

  /** Labels end in " (ID: <id>)" after a title of at most 53 characters that
      is the whole title or its first 50 characters and "...". */
  lemma VideoLabelShape(v: Video)
    ensures var l := VideoLabel(v);
      var tail := IdTail(v.id);
      |tail| <= |l| && l[|l| - |tail|..] == tail &&
      |l| - |tail| <= TitleLimit + 3 &&
      (|v.title| <= TitleLimit ==> l[..|l| - |tail|] == v.title) &&
      (|v.title| > TitleLimit ==> l[..|l| - |tail|] == v.title[..TitleLimit] + "...")
  {
    var t := Truncate(v.title, TitleLimit);
    TruncateIdempotent(v.title, TitleLimit);
    var l := t + IdTail(v.id);
    assert l[..|t|] == t && l[|t|..] == IdTail(v.id);
  }

  /** A video's line in the growth chart is named by its option label without
      the " (ID: <id>)" end: the whole title up to 50 characters, otherwise its
      first 50 characters and "...". */
  lemma TraceNameOfLabel(v: Video)
    ensures var l := VideoLabel(v);
      var tail := IdTail(v.id);
      |tail| <= |l| && l[..|l| - |tail|] == TraceName(v.title)
    ensures |TraceName(v.title)| <= TitleLimit + 3
    ensures |v.title| <= TitleLimit ==> TraceName(v.title) == v.title
    ensures |v.title| > TitleLimit ==> TraceName(v.title) == v.title[..TitleLimit] + "..."
  {
    var t := TraceName(v.title);
    TruncateIdempotent(v.title, TitleLimit);
    var l := t + IdTail(v.id);
    assert l[..|t|] == t;
  }

  /** Two videos with different ids never share a label, whatever their titles. */
  lemma VideoLabelInjective(v: Video, w: Video)
    requires VideoLabel(v) == VideoLabel(w)
    ensures v.id == w.id
  {
    var a, b := IntToString(v.id), IntToString(w.id);
    var p, q := Truncate(v.title, TitleLimit) + " (ID:", Truncate(w.title, TitleLimit) + " (ID:";
    LabelParts(Truncate(v.title, TitleLimit), v.id);
    LabelParts(Truncate(w.title, TitleLimit), w.id);
    var x, y := p + " " + a, q + " " + b;
    assert x + ")" == y + ")";
    assert x == (x + ")")[..|x|] && y == (y + ")")[..|y|];
    IntToStringNoSpace(v.id);
    IntToStringNoSpace(w.id);
    SuffixAfterSpace(p, a, q, b);
    IntToStringInjective(v.id, w.id);
  }

  /** A label is the title, " (ID:", a space, the id and a closing parenthesis. */
  lemma LabelParts(t: string, id: int)
    ensures t + IdTail(id) == (t + " (ID:") + " " + IntToString(id) + ")"
  {
  }

  /** The characters of `str(n)`: a minus sign and digits, never a space. */
  lemma IntToStringNoSpace(n: int)
    ensures forall i :: 0 <= i < |IntToString(n)| ==> IntToString(n)[i] != ' '
  {
    var d := NatToString(if n < 0 then -n else n);
    assert forall i :: 0 <= i < |d| ==> IsDigit(d[i]);
  }

  /** What follows the last space of a text is determined by the text. */
  lemma SuffixAfterSpace(p: string, a: string, q: string, b: string)
    requires p + " " + a == q + " " + b
    requires ' ' !in a && ' ' !in b
    ensures a == b
  {
    var x := p + " " + a;
    if |a| < |b| {
      SpaceBeforeSuffix(p, a, q, b);
      assert false;
    } else if |b| < |a| {
      SpaceBeforeSuffix(q, b, p, a);
      assert false;
    } else {
      assert a == x[|x| - |a|..];
      assert b == (q + " " + b)[|x| - |b|..];
    }
  }

  /** When the texts agree and `b` is the longer tail, `b` holds the space before `a`. */
  lemma SpaceBeforeSuffix(p: string, a: string, q: string, b: string)
    requires p + " " + a == q + " " + b
    requires |a| < |b|
    ensures b[|b| - |a| - 1] == ' '
  {
    var x := p + " " + a;
    assert x[|x| - |a| - 1] == ' ';
    assert x[|x| - |a| - 1] == (q + " " + b)[|x| - |a| - 1];
  }

  /** The options dictionary `{label: id}` built row by row: its keys in
      insertion order, and the id each key maps to. */
  datatype Options = Options(keys: seq<string>, ids: map<string, int>)

  function VideoOptions(videos: seq<Video>): (r: Options)
    ensures forall k :: k in r.ids <==> k in r.keys
  {
    if videos == [] then Options([], map[])
    else
      var o := VideoOptions(videos[..|videos| - 1]);
      var v := videos[|videos| - 1];
      var l := VideoLabel(v);
      Options(if l in o.ids then o.keys else o.keys + [l], o.ids[l := v.id])
  }

  /** The multiselect's default: the first five option keys, or all when there are at most five. */
  function DefaultSelection(keys: seq<string>): (r: seq<string>)
    ensures |r| == if |keys| > DefaultSelectionSize then DefaultSelectionSize else |keys|
    ensures r == keys[..|r|]
  {
    if |keys| > DefaultSelectionSize then keys[..DefaultSelectionSize] else keys
  }

  predicate DistinctIds(videos: seq<Video>) {
    forall i, j :: 0 <= i < j < |videos| ==> videos[i].id != videos[j].id
  }

  /** With distinct ids every video keeps its own option, in table order, mapped to its own id. */
  lemma {:induction false} VideoOptionsSpec(videos: seq<Video>)
    requires DistinctIds(videos)
    ensures var o := VideoOptions(videos);
      |o.keys| == |videos| &&
      forall i :: 0 <= i < |videos| ==> o.keys[i] == VideoLabel(videos[i]) && o.ids[o.keys[i]] == videos[i].id
  {
    if videos != [] {
      var init := videos[..|videos| - 1];
      var v := videos[|videos| - 1];
      VideoOptionsSpec(init);
      var o := VideoOptions(init);
      if VideoLabel(v) in o.ids {
        var i :| 0 <= i < |o.keys| && o.keys[i] == VideoLabel(v);
        VideoLabelInjective(init[i], v);
        assert false;
      }
      var r := VideoOptions(videos);
      assert r.keys == o.keys + [VideoLabel(v)];
      forall i | 0 <= i < |videos| ensures r.keys[i] == VideoLabel(videos[i]) && r.ids[r.keys[i]] == videos[i].id {
        if i < |init| {
          assert videos[i] == init[i];
          assert r.keys[i] == o.keys[i];
          assert o.keys[i] != VideoLabel(v);
        }
      }
    }
  }

  /** The videos the growth chart starts with: the first five rows, or all
      rows when there are at most five, each by its own id. */
  lemma DefaultSelectedIds(videos: seq<Video>)
    requires DistinctIds(videos)
    ensures var o := VideoOptions(videos);
      var sel := DefaultSelection(o.keys);
      (forall k :: k in sel ==> k in o.ids) &&
      |sel| == (if |videos| > DefaultSelectionSize then DefaultSelectionSize else |videos|) &&
      forall i :: 0 <= i < |sel| ==> o.ids[sel[i]] == videos[i].id
  {
    VideoOptionsSpec(videos);
  }
}
