/** Query windows of an uploaded clip (src/kanomori/retrieval/audio_query.py). */
module AudioQuery {
  import opened Basics

  datatype Kind = Single | Pair | FullText

  datatype AsrSegment = AsrSegment(text: Option<string>, start: Option<real>, end: Option<real>)

  datatype Window = Window(text: string, norm: string, start: Option<real>, end: Option<real>, kind: Kind)

  datatype Clean = Clean(index: nat, text: string, norm: string, start: Option<real>, end: Option<real>)

  /** str.strip() and the Unicode normalization of kanomori.text, both outside this model. */
  datatype Text = Text(strip: string -> string, normalize: string -> string)

  const FILLERS := {"あの", "あのー", "うん", "えー", "えっと", "そうですね", "なんか", "はい", "まあ"}
  const PUNCT := " \t\r\n、。,.，．!！?？…ー〜~・"

  function StripPunct(s: string): string {
    if s == "" then s
    else if s[0] in PUNCT then StripPunct(s[1..])
    else if s[|s| - 1] in PUNCT then StripPunct(s[..|s| - 1])
    else s
  }

  predicate IsFiller(norm: string) { StripPunct(norm) in FILLERS }

  function CleanSegment(t: Text, index: nat, segment: AsrSegment): (c: Option<Clean>)
    ensures c.Some? ==> c.value.index == index
  {
    var text := t.strip(if segment.text.Some? then segment.text.value else "");
    var norm := t.normalize(text);
    if norm == "" || IsFiller(norm) then None else Some(Clean(index, text, norm, segment.start, segment.end))
  }

  function CleanAll(t: Text, segments: seq<AsrSegment>): (clean: seq<Clean>)
    ensures |clean| <= |segments|
    ensures forall i | 0 <= i < |clean| :: clean[i].index < |segments|
    ensures forall i, j | 0 <= i < j < |clean| :: clean[i].index < clean[j].index
  {
    if segments == [] then []
    else
      var n := |segments| - 1;
      var before := CleanAll(t, segments[..n]);
      var last := CleanSegment(t, n, segments[n]);
      if last.Some? then before + [last.value] else before
  }

  function Joined(segments: seq<Clean>): string {
    if segments == [] then ""
    else if |segments| == 1 then segments[0].text
    else segments[0].text + " " + Joined(segments[1..])
  }

  function ToWindow(t: Text, segments: seq<Clean>, kind: Kind): Window
    requires segments != []
  {
    var text := Joined(segments);
    Window(text, t.normalize(text), segments[0].start, segments[|segments| - 1].end, kind)
  }

  function Singles(t: Text, clean: seq<Clean>): seq<Window> {
    seq(|clean|, i requires 0 <= i < |clean| => ToWindow(t, [clean[i]], Single))
  }

  /** A window for each two neighbours with no segment dropped between them. */
  function Pairs(t: Text, clean: seq<Clean>): seq<Window> {
    if |clean| < 2 then []
    else
      var n := |clean| - 1;
      Pairs(t, clean[..n])
      + (if clean[n].index == clean[n - 1].index + 1 then [ToWindow(t, [clean[n - 1], clean[n]], Pair)] else [])
  }

  function Windows(t: Text, segments: seq<AsrSegment>): seq<Window> {
    var clean := CleanAll(t, segments);
    if clean == [] then [] else Singles(t, clean) + Pairs(t, clean) + [ToWindow(t, clean, FullText)]
  }

  lemma CleanGrows(t: Text, segments: seq<AsrSegment>, i: nat)
    requires i < |segments|
    ensures var (before, last) := (CleanAll(t, segments[..i]), CleanSegment(t, i, segments[i]));
      CleanAll(t, segments[..i + 1]) == if last.Some? then before + [last.value] else before
  {
    hide CleanSegment;
    assert segments[..i + 1][..i] == segments[..i];
  }

  lemma PairsGrow(t: Text, clean: seq<Clean>, i: nat)
    requires 0 < i < |clean|
    ensures Pairs(t, clean[..i + 1]) == Pairs(t, clean[..i])
      + (if clean[i].index == clean[i - 1].index + 1 then [ToWindow(t, [clean[i - 1], clean[i]], Pair)] else [])
  {
    hide ToWindow;
    assert clean[..i + 1][..i] == clean[..i];
  }

  method BuildWindows(t: Text, segments: seq<AsrSegment>) returns (windows: seq<Window>)
    ensures windows == Windows(t, segments)
  {
    hide ToWindow, CleanSegment, CleanAll, Pairs, Singles;
    var clean := KeepSegments(t, segments);
    if clean == [] { return []; }
    windows := Singles(t, clean);
    NoPairs(t, clean);
    for i := 1 to |clean|
      invariant windows == Singles(t, clean) + Pairs(t, clean[..i])
    {
      PairsGrow(t, clean, i);
      if clean[i].index == clean[i - 1].index + 1 {
        windows := windows + [ToWindow(t, [clean[i - 1], clean[i]], Pair)];
      }
    }
    assert clean[..|clean|] == clean;
    windows := windows + [ToWindow(t, clean, FullText)];
  }

  /** The list comprehensions that clean the segments and drop what is empty. */
  method KeepSegments(t: Text, segments: seq<AsrSegment>) returns (clean: seq<Clean>)
    ensures clean == CleanAll(t, segments)
  {
    hide CleanSegment;
    clean := [];
    for i := 0 to |segments|
      invariant clean == CleanAll(t, segments[..i])
    {
      CleanGrows(t, segments, i);
      var segment := CleanSegment(t, i, segments[i]);
      if segment.Some? { clean := clean + [segment.value]; }
    }
    assert segments[..|segments|] == segments;
  }

  lemma NoPairs(t: Text, clean: seq<Clean>)
    requires clean != []
    ensures Pairs(t, clean[..1]) == [] && Singles(t, clean) + [] == Singles(t, clean)
  {
  }

  ghost predicate Unbroken(clean: seq<Clean>) {
    forall i | 0 < i < |clean| :: clean[i].index == clean[i - 1].index + 1
  }

  lemma {:induction false} PairsCount(t: Text, clean: seq<Clean>)
    requires clean != []
    ensures |Pairs(t, clean)| <= |clean| - 1
    ensures |Pairs(t, clean)| == |clean| - 1 <==> Unbroken(clean)
  {
    var n := |clean| - 1;
    if n > 0 {
      PairsCount(t, clean[..n]);
      if Unbroken(clean[..n]) && clean[n].index == clean[n - 1].index + 1 {
        forall i | 0 < i < |clean| ensures clean[i].index == clean[i - 1].index + 1 {
          if i < n { assert clean[..n][i].index == clean[..n][i - 1].index + 1; }
        }
      }
    }
  }

  /** n spoken segments give more than n and at most 2n windows, 2n exactly when none was dropped between them. */
  lemma {:induction false} WindowsAreBounded(t: Text, segments: seq<AsrSegment>)
    ensures var (n, m) := (|CleanAll(t, segments)|, |Windows(t, segments)|);
      && (n == 0 <==> m == 0)
      && (n > 0 ==> n < m <= 2 * n && (m == 2 * n <==> Unbroken(CleanAll(t, segments))))
  {
    if CleanAll(t, segments) != [] { PairsCount(t, CleanAll(t, segments)); }
  }

  // What the windows say

  lemma JoinedAppends(segments: seq<Clean>, last: Clean)
    requires segments != []
    ensures Joined(segments + [last]) == Joined(segments) + " " + last.text
    ensures Joined([last]) == last.text
  {
    var all := segments + [last];
    if |segments| > 1 {
      assert all[1..] == segments[1..] + [last];
      JoinedAppends(segments[1..], last);
      var (a, b, c) := (segments[0].text, Joined(segments[1..]), last.text);
      assert (a + " ") + (b + " " + c) == ((a + " ") + b) + " " + c;
    } else {
      assert all[1..] == [last];
    }
  }

  /** w is the window of kept segments i - 1 and i: both texts with a blank between, from the start of the one to the
      end of the other. */
  ghost predicate PairAt(t: Text, clean: seq<Clean>, i: int, w: Window) {
    && 0 < i < |clean|
    && var (a, b) := (clean[i - 1], clean[i]);
    && b.index == a.index + 1
    && w == Window(a.text + " " + b.text, t.normalize(a.text + " " + b.text), a.start, b.end, Pair)
  }

  lemma PairIsWindow(t: Text, clean: seq<Clean>, i: int)
    requires 0 < i < |clean| && clean[i].index == clean[i - 1].index + 1
    ensures PairAt(t, clean, i, ToWindow(t, [clean[i - 1], clean[i]], Pair))
  {
    JoinedAppends([clean[i - 1]], clean[i]);
    assert [clean[i - 1]] + [clean[i]] == [clean[i - 1], clean[i]];
  }

  /** The pair windows are exactly those of neighbours with no segment dropped between them. */
  lemma {:induction false} PairsSay(t: Text, clean: seq<Clean>, w: Window)
    ensures w in Pairs(t, clean) <==> exists i :: PairAt(t, clean, i, w)
  {
    if |clean| >= 2 {
      var n := |clean| - 1;
      PairsSay(t, clean[..n], w);
      if clean[n].index == clean[n - 1].index + 1 { PairIsWindow(t, clean, n); }
      if i :| PairAt(t, clean[..n], i, w) { assert PairAt(t, clean, i, w); }
      if i :| PairAt(t, clean, i, w) && i < n { assert PairAt(t, clean[..n], i, w); }
    }
  }

  /** The windows are one for each kept segment, then those of neighbours, then one for everything. */
  lemma WindowsSay(t: Text, segments: seq<AsrSegment>)
    requires CleanAll(t, segments) != []
    ensures var (clean, windows) := (CleanAll(t, segments), Windows(t, segments)); var (n, m) := (|clean|, |windows|);
      && n < m
      && (forall i | 0 <= i < n ::
            windows[i] == Window(clean[i].text, t.normalize(clean[i].text), clean[i].start, clean[i].end, Single))
      && windows[n..m - 1] == Pairs(t, clean)
      && windows[m - 1] == Window(Joined(clean), t.normalize(Joined(clean)), clean[0].start, clean[n - 1].end, FullText)
  {
    var clean := CleanAll(t, segments);
    var windows := Windows(t, segments);
    assert windows[|clean|..|windows| - 1] == Pairs(t, clean);
  }

  // What is kept of a segment

  predicate Puncts(c: char) {
    c in " \t\r\n、。,.，．!！?？…ー〜~・"
  }

  predicate IsPunct(s: string) {
    forall i | 0 <= i < |s| :: Puncts(s[i])
  }

  lemma SamePunct(c: char)
    ensures c in PUNCT <==> Puncts(c)
  {
  }

  /** What is left neither starts nor ends with punctuation. */
  predicate Bare(core: string) {
    core == "" || (!Puncts(core[0]) && !Puncts(core[|core| - 1]))
  }

  /** Stripping takes punctuation from both ends, and all of it: what is left is s[i..j]. */
  lemma {:induction false} StripsPunct(s: string) returns (i: nat, j: nat)
    ensures i <= j <= |s| && StripPunct(s) == s[i..j] && IsPunct(s[..i]) && IsPunct(s[j..]) && Bare(StripPunct(s))
    decreases |s|
  {
    hide Puncts, PUNCT, IsPunct, StripPunct;
    i, j := 0, |s|;
    StripStep(s);
    if s != "" && s[0] in PUNCT {
      i, j := StripsPunct(s[1..]);
      HeadOff(s, i, j);
      i, j := i + 1, j + 1;
    } else if s != "" && s[|s| - 1] in PUNCT {
      i, j := StripsPunct(s[..|s| - 1]);
      LastOff(s, i, j);
    } else {
      NothingOff(s);
    }
  }

  lemma StripStep(s: string)
    ensures StripPunct(s) ==
      if s == "" then s
      else if s[0] in PUNCT then StripPunct(s[1..])
      else if s[|s| - 1] in PUNCT then StripPunct(s[..|s| - 1])
      else s
  {
    hide PUNCT;
  }

  lemma HeadOff(s: string, i: nat, j: nat)
    requires s != "" && s[0] in PUNCT && i <= j <= |s| - 1 && IsPunct(s[1..][..i]) && IsPunct(s[1..][j..])
    ensures s[1..][i..j] == s[i + 1..j + 1] && IsPunct(s[..i + 1]) && IsPunct(s[j + 1..])
  {
    hide PUNCT, Puncts;
    SamePunct(s[0]);
    assert s[1..][j..] == s[j + 1..];
    var (front, rest) := (s[..i + 1], s[1..][..i]);
    forall k | 0 <= k < |front| ensures Puncts(front[k]) {
      if k > 0 { assert rest[k - 1] == front[k]; }
    }
  }

  lemma LastOff(s: string, i: nat, j: nat)
    requires s != "" && s[|s| - 1] in PUNCT && i <= j <= |s| - 1
    requires IsPunct(s[..|s| - 1][..i]) && IsPunct(s[..|s| - 1][j..])
    ensures s[..|s| - 1][i..j] == s[i..j] && IsPunct(s[..i]) && IsPunct(s[j..])
  {
    hide PUNCT, Puncts;
    SamePunct(s[|s| - 1]);
    assert s[..|s| - 1][..i] == s[..i];
    var (back, rest) := (s[j..], s[..|s| - 1][j..]);
    forall k | 0 <= k < |back| ensures Puncts(back[k]) {
      if k < |back| - 1 { assert rest[k] == back[k]; } else { assert back[k] == s[|s| - 1]; }
    }
  }

  lemma NothingOff(s: string)
    requires s != "" ==> s[0] !in PUNCT && s[|s| - 1] !in PUNCT
    ensures s[0..|s|] == s && IsPunct(s[..0]) && IsPunct(s[|s|..]) && Bare(s)
  {
    hide PUNCT, Puncts;
    if s != "" {
      SamePunct(s[0]);
      SamePunct(s[|s| - 1]);
    }
  }

  /** A segment is kept unless nothing is left of its text, or punctuation apart only one of nine fillers. */
  ghost predicate Speaks(t: Text, segment: AsrSegment) {
    var norm := t.normalize(TextOf(t, segment));
    && norm != ""
    && StripPunct(norm) !in ["あの", "あのー", "うん", "えー", "えっと", "そうですね", "なんか", "はい", "まあ"]
  }

  /** Segment i as it is kept. */
  ghost predicate IsKept(t: Text, segments: seq<AsrSegment>, i: nat, c: Clean) {
    && i < |segments| && Speaks(t, segments[i]) && c == Clean(i, TextOf(t, segments[i]), t.normalize(TextOf(t, segments[i])),
                                                              segments[i].start, segments[i].end)
  }

  function TextOf(t: Text, segment: AsrSegment): string {
    t.strip(if segment.text.Some? then segment.text.value else "")
  }

  lemma SpeakingIsKept(t: Text, segments: seq<AsrSegment>, i: nat, c: Clean)
    requires i < |segments|
    ensures CleanSegment(t, i, segments[i]) == Some(c) <==> IsKept(t, segments, i, c)
  {
    hide StripPunct;
  }

  /** The kept segments are exactly those that speak, each with its place, text and times. */
  lemma {:induction false} CleanKeeps(t: Text, segments: seq<AsrSegment>, c: Clean)
    ensures c in CleanAll(t, segments) <==> IsKept(t, segments, c.index, c)
  {
    if segments != [] {
      hide IsKept, CleanSegment;
      var n := |segments| - 1;
      CleanKeeps(t, segments[..n], c);
      SpeakingIsKept(t, segments, n, c);
      KeptBefore(t, segments, n, c);
    } else {
      KeptBefore(t, segments, 0, c);
    }
  }

  lemma KeptBefore(t: Text, segments: seq<AsrSegment>, n: nat, c: Clean)
    requires n <= |segments|
    ensures IsKept(t, segments[..n], c.index, c) <==> c.index < n && IsKept(t, segments, c.index, c)
  {
    hide Speaks;
    if c.index < n { assert segments[..n][c.index] == segments[c.index]; }
  }
}
