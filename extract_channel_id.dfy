/** backend/utils/extract_channel_id.py: recognising a YouTube channel id or a
    handle in what the user typed. Python's `re.search` with the four URL
    patterns is modelled as a leftmost search for a literal followed by a run
    of identifier characters `[a-zA-Z0-9_-]`: either exactly 24 of them
    (`{24}`) or as many as there are, at least one (the greedy `+`). */
module ExtractChannelId {
  import opened Wrappers
  import opened Text

  /** The character class `[a-zA-Z0-9_-]`. */
  predicate IsIdChar(c: char) {
    ('a' <= c <= 'z') || ('A' <= c <= 'Z') || ('0' <= c <= '9') || c == '_' || c == '-'
  }

  /** A string that looks like a channel id: it starts with "UC" and is 24 characters long. */
  predicate IsUcId(s: string) {
    StartsWith(s, "UC") && |s| == 24
  }

  /** How many identifier characters the capture group takes. */
  datatype Count = Exactly(n: nat) | OneOrMore

  /** A pattern `<lit>([a-zA-Z0-9_-]<count>)`. */
  datatype Pattern = Pattern(lit: string, count: Count)

  const ChannelPattern := Pattern("youtube.com/channel/", Exactly(24))
  const CustomPattern := Pattern("youtube.com/c/", OneOrMore)
  const HandlePattern := Pattern("youtube.com/@", OneOrMore)
  const UserPattern := Pattern("youtube.com/user/", OneOrMore)

  /** The patterns of extract_channel_id, in the order they are tried. */
  const Patterns := [ChannelPattern, CustomPattern, HandlePattern, UserPattern]

  /** Length of the run of identifier characters at the start of `s`. */
  function IdRun(s: string): (n: nat)
    ensures n <= |s|
    ensures forall i :: 0 <= i < n ==> IsIdChar(s[i])
    ensures n == |s| || !IsIdChar(s[n])
  {
    if s == [] || !IsIdChar(s[0]) then 0 else 1 + IdRun(s[1..])
  }

  /** The capture of `p` when a match starts at the first character of `s`. */
  function MatchAt(s: string, p: Pattern): (r: Option<string>)
    ensures r.Some? ==>
      && StartsWith(s, p.lit)
      && 0 < |r.value| <= |s| - |p.lit|
      && s[|p.lit|..|p.lit| + |r.value|] == r.value
      && forall i :: 0 <= i < |r.value| ==> IsIdChar(r.value[i])
    ensures r.Some? && p.count.Exactly? ==> |r.value| == p.count.n
    ensures r.Some? && p.count.OneOrMore? ==> |p.lit| + |r.value| == |s| || !IsIdChar(s[|p.lit| + |r.value|])
  {
    if !StartsWith(s, p.lit) then None
    else
      var rest := s[|p.lit|..];
      var run := IdRun(rest);
      match p.count
      case Exactly(n) => if 0 < n <= run then Some(rest[..n]) else None
      case OneOrMore => if run >= 1 then Some(rest[..run]) else None
  }

  /** `re.search(p, s)`: the capture of the match that starts leftmost. */
  function Search(s: string, p: Pattern): Option<string>
  {
    if MatchAt(s, p).Some? then MatchAt(s, p)
    else if s == [] then None
    else Search(s[1..], p)
  }

  /** `re.search` finds a match if there is one anywhere, and then the leftmost one. */
  lemma {:induction false} SearchLeftmost(s: string, p: Pattern)
    ensures Search(s, p).None? <==> forall k :: 0 <= k <= |s| ==> MatchAt(s[k..], p).None?
    ensures Search(s, p).Some? ==>
      exists k :: (0 <= k <= |s| && Search(s, p) == MatchAt(s[k..], p) &&
        forall q :: 0 <= q < k ==> MatchAt(s[q..], p).None?)
  {
    if MatchAt(s, p).Some? {
      assert s[0..] == s;
    } else if s == [] {
    } else {
      SearchLeftmost(s[1..], p);
      forall k | 1 <= k <= |s| ensures s[k..] == s[1..][k - 1..] {}
      if Search(s, p).Some? {
        var k :| 0 <= k <= |s[1..]| && Search(s[1..], p) == MatchAt(s[1..][k..], p) &&
          forall q :: 0 <= q < k ==> MatchAt(s[1..][q..], p).None?;
        assert s[k + 1..] == s[1..][k..];
        forall q | 0 <= q < k + 1 ensures MatchAt(s[q..], p).None? {
          if q > 0 {
            assert s[q..] == s[1..][q - 1..];
          }
        }
      } else {
        forall k | 0 <= k <= |s| ensures MatchAt(s[k..], p).None? {
          if k > 0 {
            assert s[k..] == s[1..][k - 1..];
          }
        }
      }
    }
  }

  /** A prefix with no 'y' cannot start a match of a pattern whose literal starts
      with 'y': the search skips over it. */
  lemma {:induction false} SearchSkipsPrefix(pre: string, s: string, p: Pattern)
    requires |p.lit| > 0 && p.lit[0] == 'y'
    requires forall i :: 0 <= i < |pre| ==> pre[i] != 'y'
    ensures Search(pre + s, p) == Search(s, p)
  {
    if pre != [] {
      assert (pre + s)[1..] == pre[1..] + s;
      assert !StartsWith(pre + s, p.lit);
      SearchSkipsPrefix(pre[1..], s, p);
    } else {
      assert pre + s == s;
    }
  }

  /** Pattern `p` finds a capture in `s` that looks like a channel id. */
  predicate UcCaptureOf(s: string, p: Pattern) {
    Search(s, p).Some? && IsUcId(Search(s, p).value)
  }

  /** The first capture, in pattern order, that looks like a channel id: there
      is none exactly when no pattern yields one, and a result comes from a
      pattern all of whose predecessors yield none. */
  function FirstUcCapture(s: string, pats: seq<Pattern>): (r: Option<string>)
    ensures r.Some? ==> IsUcId(r.value)
    ensures r.None? <==> forall i :: 0 <= i < |pats| ==> !UcCaptureOf(s, pats[i])
    ensures r.Some? ==> exists i :: (0 <= i < |pats| && Search(s, pats[i]) == r &&
      forall j :: 0 <= j < i ==> !UcCaptureOf(s, pats[j]))
  {
    if pats == [] then None
    else
      var rest := FirstUcCapture(s, pats[1..]);
      assert forall i :: 1 <= i < |pats| ==> pats[i] == pats[1..][i - 1];
      match Search(s, pats[0])
      case Some(c) =>
        if IsUcId(c) then Some(c)
        else
          assert rest.Some? ==> exists i :: (1 <= i < |pats| && Search(s, pats[i]) == rest &&
            forall j :: 0 <= j < i ==> !UcCaptureOf(s, pats[j]));
          rest
      case None =>
        assert rest.Some? ==> exists i :: (1 <= i < |pats| && Search(s, pats[i]) == rest &&
          forall j :: 0 <= j < i ==> !UcCaptureOf(s, pats[j]));
        rest
  }

  /** `extract_channel_id`: nothing for empty input; the stripped input itself
      when it looks like a channel id; otherwise the first pattern capture that
      looks like one. The input is `None` or a Python `str`. */
  function ExtractChannelId(input: Option<string>): (r: Option<string>)
    ensures input == None || input == Some("") ==> r == None
    ensures r.Some? ==> IsUcId(r.value)
    ensures input.Some? && IsUcId(Strip(input.value)) ==> r == Some(Strip(input.value))
    ensures input.Some? && input.value != "" && !IsUcId(Strip(input.value)) ==>
      r == FirstUcCapture(Strip(input.value), Patterns)
  {
    if input == None || input.value == "" then None
    else
      var s := Strip(input.value);
      if IsUcId(s) then Some(s) else FirstUcCapture(s, Patterns)
  }

  /** `extract_handle`: nothing for empty input; the stripped input when it
      starts with "@"; otherwise "@" followed by the capture of the handle URL pattern. */
  function ExtractHandle(input: Option<string>): (r: Option<string>)
    ensures input == None || input == Some("") ==> r == None
    ensures r.Some? ==> StartsWith(r.value, "@")
    ensures input.Some? && StartsWith(Strip(input.value), "@") ==> r == Some(Strip(input.value))
    ensures input.Some? && input.value != "" && !StartsWith(Strip(input.value), "@") ==>
      r == (match Search(Strip(input.value), HandlePattern)
            case Some(h) => Some("@" + h)
            case None => None)
    ensures r.Some? ==> (input.Some? &&
      (StartsWith(Strip(input.value), "@") ||
       (Search(Strip(input.value), HandlePattern).Some? &&
        r.value == "@" + Search(Strip(input.value), HandlePattern).value)))
  {
    if input == None || input.value == "" then None
    else
      var s := Strip(input.value);
      if StartsWith(s, "@") then Some(s)
      else match Search(s, HandlePattern)
        case Some(h) => Some("@" + h)
        case None => None
  }

  /** Stripping twice is stripping once. */
  lemma {:induction false} StripIdempotent(s: string)
    ensures Strip(Strip(s)) == Strip(s)
  {
    StripUnchanged(Strip(s));
  }

  /** Only the stripped input matters to `extract_channel_id`: surrounding whitespace changes nothing. */
  lemma {:induction false} ChannelIdIgnoresSurroundingSpace(s: string)
    ensures ExtractChannelId(Some(s)) == ExtractChannelId(Some(Strip(s)))
  {
    StripIdempotent(s);
    if s != "" && Strip(s) == "" {
      NoCaptureInEmpty(Patterns);
    }
  }

  /** Only the stripped input matters to `extract_handle`: surrounding whitespace changes nothing. */
  lemma {:induction false} HandleIgnoresSurroundingSpace(s: string)
    ensures ExtractHandle(Some(s)) == ExtractHandle(Some(Strip(s)))
  {
    StripIdempotent(s);
    if s != "" && Strip(s) == "" {
      SearchEmpty(HandlePattern);
    }
  }

  /** A pattern with a literal finds nothing in the empty string. */
  lemma SearchEmpty(p: Pattern)
    requires |p.lit| > 0
    ensures Search("", p) == None
  {
    assert !StartsWith("", p.lit);
  }

  /** An empty string matches no pattern with a literal. */
  lemma {:induction false} NoCaptureInEmpty(pats: seq<Pattern>)
    requires forall i :: 0 <= i < |pats| ==> |pats[i].lit| > 0
    ensures FirstUcCapture("", pats) == None
  {
    if pats != [] {
      SearchEmpty(pats[0]);
      NoCaptureInEmpty(pats[1..]);
    }
  }

  /** Identifier characters at the start of a string count towards its run. */
  lemma {:induction false} IdRunPrefix(a: string, b: string)
    requires forall i :: 0 <= i < |a| ==> IsIdChar(a[i])
    ensures IdRun(a + b) >= |a|
  {
    if a != [] {
      assert (a + b)[1..] == a[1..] + b;
      IdRunPrefix(a[1..], b);
    }
  }

  /** The run of identifier characters stops at the first character that is not one. */
  lemma {:induction false} IdRunExact(a: string, b: string)
    requires forall i :: 0 <= i < |a| ==> IsIdChar(a[i])
    requires b == [] || !IsIdChar(b[0])
    ensures IdRun(a + b) == |a|
  {
    IdRunPrefix(a, b);
    if b != [] {
      assert !IsIdChar((a + b)[|a|]);
    }
  }

  /** A string that starts with a pattern's literal followed by a capture the
      pattern takes whole is matched right there, with that capture. */
  lemma {:induction false} SearchAtStart(p: Pattern, cap: string, rest: string)
    requires |cap| > 0 && forall i :: 0 <= i < |cap| ==> IsIdChar(cap[i])
    requires p.count == Exactly(|cap|) || (p.count == OneOrMore && (rest == [] || !IsIdChar(rest[0])))
    ensures Search(p.lit + cap + rest, p) == Some(cap)
  {
    var t := p.lit + cap + rest;
    assert t[..|p.lit|] == p.lit;
    assert t[|p.lit|..] == cap + rest;
    assert (cap + rest)[..|cap|] == cap;
    if p.count.OneOrMore? {
      IdRunExact(cap, rest);
    } else {
      IdRunPrefix(cap, rest);
    }
  }

  /** A `youtube.com/channel/` URL yields the 24 characters after the literal
      when they look like a channel id, whatever follows them. */
  lemma {:induction false} ChannelUrl(s: string, pre: string, id: string, rest: string)
    requires Strip(s) == pre + ChannelPattern.lit + id + rest
    requires forall i :: 0 <= i < |pre| ==> pre[i] != 'y'
    requires IsUcId(id) && forall i :: 0 <= i < |id| ==> IsIdChar(id[i])
    ensures ExtractChannelId(Some(s)) == Some(id)
  {
    var t := ChannelPattern.lit + id + rest;
    assert Strip(s) == pre + t;
    SearchAtStart(ChannelPattern, id, rest);
    SearchSkipsPrefix(pre, t, ChannelPattern);
    assert s != "";
  }

  /** A `youtube.com/@name` URL yields the handle "@name". */
  lemma {:induction false} HandleUrl(s: string, pre: string, name: string, rest: string)
    requires Strip(s) == pre + HandlePattern.lit + name + rest
    requires forall i :: 0 <= i < |pre| ==> pre[i] != 'y'
    requires pre == [] || pre[0] != '@'
    requires |name| > 0 && forall i :: 0 <= i < |name| ==> IsIdChar(name[i])
    requires rest == [] || !IsIdChar(rest[0])
    ensures ExtractHandle(Some(s)) == Some("@" + name)
  {
    HandleSearch(pre, name, rest);
    assert s != "";
    assert Strip(s)[0] == if pre == [] then 'y' else pre[0];
  }

  /** The handle pattern, searched in a handle URL, captures the handle. */
  lemma {:induction false} HandleSearch(pre: string, name: string, rest: string)
    requires forall i :: 0 <= i < |pre| ==> pre[i] != 'y'
    requires |name| > 0 && forall i :: 0 <= i < |name| ==> IsIdChar(name[i])
    requires rest == [] || !IsIdChar(rest[0])
    ensures Search(pre + HandlePattern.lit + name + rest, HandlePattern) == Some(name)
  {
    var t := HandlePattern.lit + name + rest;
    assert pre + HandlePattern.lit + name + rest == pre + t;
    SearchAtStart(HandlePattern, name, rest);
    SearchSkipsPrefix(pre, t, HandlePattern);
  }

  /** Identifier characters alone never contain a literal with a '.' in it. */
  lemma {:induction false} NoMatchInIdChars(x: string, p: Pattern)
    requires |p.lit| > 7 && p.lit[7] == '.'
    requires forall i :: 0 <= i < |x| ==> IsIdChar(x[i])
    ensures Search(x, p) == None
  {
    if |x| > 7 {
      assert !IsIdChar(p.lit[7]);
    }
    if x != [] {
      NoMatchInIdChars(x[1..], p);
    }
  }

  /** A pattern whose literal differs from the handle literal at its '@' finds
      nothing in a handle URL that ends with the handle. */
  lemma {:induction false} OtherPatternMissesHandleUrl(name: string, p: Pattern)
    requires |p.lit| > 12 && p.lit[0] == 'y' && p.lit[7] == '.' && p.lit[12] != '@'
    requires forall i :: 0 <= i < |name| ==> IsIdChar(name[i])
    ensures Search(HandlePattern.lit + name, p) == None
  {
    var t := HandlePattern.lit + name;
    var tail := "outube.com/@";
    assert t[12] == '@';
    assert !StartsWith(t, p.lit);
    assert t[1..] == tail + name;
    SearchSkipsPrefix(tail, name, p);
    NoMatchInIdChars(name, p);
  }

  /** The same, with a prefix free of 'y' in front of the URL. */
  lemma {:induction false} MissAfterPrefix(pre: string, name: string, p: Pattern)
    requires |p.lit| > 12 && p.lit[0] == 'y' && p.lit[7] == '.' && p.lit[12] != '@'
    requires forall i :: 0 <= i < |pre| ==> pre[i] != 'y'
    requires forall i :: 0 <= i < |name| ==> IsIdChar(name[i])
    ensures Search(pre + HandlePattern.lit + name, p) == None
  {
    var t := HandlePattern.lit + name;
    assert pre + HandlePattern.lit + name == pre + t;
    OtherPatternMissesHandleUrl(name, p);
    SearchSkipsPrefix(pre, t, p);
  }

  /** In a handle URL that ends with the handle, the only capture is the handle. */
  lemma {:induction false} HandleUrlCaptures(pre: string, name: string)
    requires forall i :: 0 <= i < |pre| ==> pre[i] != 'y'
    requires |name| > 0 && forall i :: 0 <= i < |name| ==> IsIdChar(name[i])
    requires !IsUcId(name)
    ensures FirstUcCapture(pre + HandlePattern.lit + name, Patterns) == None
  {
    var x := pre + HandlePattern.lit + name;
    HandleSearch(pre, name, []);
    assert x + [] == x;
    MissAfterPrefix(pre, name, ChannelPattern);
    MissAfterPrefix(pre, name, CustomPattern);
    MissAfterPrefix(pre, name, UserPattern);
    assert Patterns[1..][1..][1..][1..] == [];
    calc {
      FirstUcCapture(x, Patterns);
      FirstUcCapture(x, Patterns[1..]);
      FirstUcCapture(x, Patterns[1..][1..]);
      FirstUcCapture(x, Patterns[1..][1..][1..]);
      FirstUcCapture(x, Patterns[1..][1..][1..][1..]);
    }
  }

  /** Text that does not start with "UC", followed by text starting with 'y', does not start with "UC". */
  lemma NotUcPrefix(pre: string, t: string)
    requires !StartsWith(pre, "UC")
    requires |t| > 0 && t[0] == 'y'
    ensures !StartsWith(pre + t, "UC")
  {
    var x := pre + t;
    assert x[|pre|] == 'y';
    if |pre| >= 2 {
      assert x[..2] == pre[..2];
    }
  }

  /** A handle URL with nothing after the handle yields no channel id unless the
      handle itself looks like one: the handle is not resolved to a channel here. */
  lemma {:induction false} HandleUrlNoChannelId(s: string, pre: string, name: string)
    requires Strip(s) == pre + HandlePattern.lit + name
    requires forall i :: 0 <= i < |pre| ==> pre[i] != 'y'
    requires !StartsWith(pre, "UC")
    requires |name| > 0 && forall i :: 0 <= i < |name| ==> IsIdChar(name[i])
    requires !IsUcId(name)
    ensures ExtractChannelId(Some(s)) == None
  {
    HandleUrlNotUc(pre, name);
    HandleUrlCaptures(pre, name);
    assert s != "";
  }

  /** A handle URL behind a prefix that does not start with "UC" does not look like a channel id. */
  lemma HandleUrlNotUc(pre: string, name: string)
    requires !StartsWith(pre, "UC")
    ensures !IsUcId(pre + HandlePattern.lit + name)
  {
    var t := HandlePattern.lit + name;
    assert pre + HandlePattern.lit + name == pre + t;
    assert t[0] == 'y';
    NotUcPrefix(pre, t);
  }
}
