/**
 * The code-block pattern of the run command, "```(\w*)\n([\w\W]*)```", with the regex crate's
 * leftmost-first semantics, and a scanner that finds its first match.
 *
 * A match is an opening fence, a run of word characters (the language tag), a newline, any text
 * (the body) and a closing fence. Leftmost-first picks the earliest start position; there the
 * greedy `\w*` takes the longest tag that still lets the rest match, and the greedy `[\w\W]*` the
 * longest body, so the body runs up to the LAST closing fence of the text.
 */
module CodeBlock {
  import opened Wrappers
  import Ascii

  /** The first match: where it starts, capture group 1 (the tag) and capture group 2 (the body). */
  datatype Capture = Capture(start: nat, tag: string, code: string)

  predicate FenceAt(s: string, p: int) {
    0 <= p && p + 3 <= |s| && s[p] == '`' && s[p + 1] == '`' && s[p + 2] == '`'
  }

  /** The pattern matches `s` at position `i` with a tag of `tl` and a body of `bl` characters. */
  ghost predicate MatchAt(s: string, i: int, tl: int, bl: int) {
    && 0 <= i && 0 <= tl && 0 <= bl
    && i + 3 + tl + 1 + bl + 3 <= |s|
    && FenceAt(s, i)
    && (forall k :: i + 3 <= k < i + 3 + tl ==> Ascii.IsWordChar(s[k]))
    && s[i + 3 + tl] == '\n'
    && FenceAt(s, i + 4 + tl + bl)
  }

  ghost predicate NoMatch(s: string) {
    forall i, tl, bl :: !MatchAt(s, i, tl, bl)
  }

  /** The match the regex reports: no match starts earlier, and at `i` no other match is preferred. */
  ghost predicate LeftmostFirst(s: string, i: int, tl: int, bl: int) {
    && MatchAt(s, i, tl, bl)
    && (forall i', tl', bl' :: i' < i ==> !MatchAt(s, i', tl', bl'))
    && (forall tl', bl' :: MatchAt(s, i, tl', bl') ==> tl' == tl && bl' <= bl)
  }

  /** End of the maximal run of word characters that starts at `j`. */
  function WordRunEnd(s: string, j: nat): (e: nat)
    requires j <= |s|
    ensures j <= e <= |s|
    ensures forall k :: j <= k < e ==> Ascii.IsWordChar(s[k])
    ensures e == |s| || !Ascii.IsWordChar(s[e])
    decreases |s| - j
  {
    if j < |s| && Ascii.IsWordChar(s[j]) then WordRunEnd(s, j + 1) else j
  }

  /** The last fence that starts in [lo, hi), searching backwards from `hi`. */
  function LastFence(s: string, lo: nat, hi: nat): (r: Option<nat>)
    requires lo <= hi <= |s|
    ensures r.Some? ==> lo <= r.value < hi && FenceAt(s, r.value)
    ensures r.Some? ==> forall q :: r.value < q < hi ==> !FenceAt(s, q)
    ensures r.None? ==> forall q :: lo <= q < hi ==> !FenceAt(s, q)
    decreases hi
  {
    if hi == lo then None
    else if FenceAt(s, hi - 1) then Some(hi - 1)
    else LastFence(s, lo, hi - 1)
  }

  /** Tries the start positions i, i + 1, ... in turn and returns the first match. */
  function FindFrom(s: string, i: nat): (r: Option<Capture>)
    requires i <= |s|
    ensures r.Some? ==> i <= r.value.start && FenceAt(s, r.value.start)
    ensures r.Some? ==> r.value.start + 3 + |r.value.tag| + 1 + |r.value.code| + 3 <= |s|
    decreases |s| - i
  {
    if i == |s| then None
    else if FenceAt(s, i) then
      var e := WordRunEnd(s, i + 3);
      if e < |s| && s[e] == '\n' then
        match LastFence(s, e + 1, |s|)
        case Some(p) => Some(Capture(i, s[i + 3 .. e], s[e + 1 .. p]))
        case None => FindFrom(s, i + 1)
      else FindFrom(s, i + 1)
    else FindFrom(s, i + 1)
  }

  /** At a fence, a match is fixed by the body length alone: the tag is the maximal word run. */
  lemma MatchAtShape(s: string, i: nat, tl: int, bl: int)
    requires FenceAt(s, i)
    ensures MatchAt(s, i, tl, bl) <==>
      var e := WordRunEnd(s, i + 3);
      tl == e - (i + 3) && e < |s| && s[e] == '\n' && 0 <= bl && FenceAt(s, e + 1 + bl)
  {
    var e := WordRunEnd(s, i + 3);
    assert 0 <= tl && i + 3 + tl < e ==> Ascii.IsWordChar(s[i + 3 + tl]);
  }

  /** No match starts anywhere in [i, j). */
  ghost predicate NoMatchIn(s: string, i: int, j: int) {
    forall i', tl, bl :: i <= i' < j ==> !MatchAt(s, i', tl, bl)
  }

  /** `c` is a match whose tag and body are the regex's preferred choice at its start. */
  ghost predicate PreferredAt(s: string, c: Capture) {
    && MatchAt(s, c.start, |c.tag|, |c.code|)
    && (forall tl, bl :: MatchAt(s, c.start, tl, bl) ==> tl == |c.tag| && bl <= |c.code|)
    && c.tag == s[c.start + 3 .. c.start + 3 + |c.tag|]
    && c.code == s[c.start + 4 + |c.tag| .. c.start + 4 + |c.tag| + |c.code|]
  }

  /** When the scanner accepts position i, its capture is the preferred match there. */
  lemma FoundAt(s: string, i: nat, e: nat, p: nat)
    requires FenceAt(s, i) && e == WordRunEnd(s, i + 3) && e < |s| && s[e] == '\n'
    requires LastFence(s, e + 1, |s|) == Some(p)
    ensures PreferredAt(s, Capture(i, s[i + 3 .. e], s[e + 1 .. p]))
  {
    var tag, code := s[i + 3 .. e], s[e + 1 .. p];
    assert |tag| == e - (i + 3) && |code| == p - (e + 1);
    MatchAtShape(s, i, |tag|, |code|);
    FoundMaximal(s, i, e, p);
  }

  /** Every match at an accepted position has the scanner's tag and a body no longer than its body. */
  lemma FoundMaximal(s: string, i: nat, e: nat, p: nat)
    requires FenceAt(s, i) && e == WordRunEnd(s, i + 3) && e < |s| && s[e] == '\n'
    requires LastFence(s, e + 1, |s|) == Some(p)
    ensures forall tl, bl :: MatchAt(s, i, tl, bl) ==> tl == e - (i + 3) && bl <= p - (e + 1)
  {
    forall tl, bl | MatchAt(s, i, tl, bl) ensures tl == e - (i + 3) && bl <= p - (e + 1) {
      MatchAtShape(s, i, tl, bl);
    }
  }

  /** When the scanner passes over position i, no match starts there. */
  lemma NoneAt(s: string, i: nat)
    requires i < |s|
    requires FenceAt(s, i) ==>
      var e := WordRunEnd(s, i + 3);
      !(e < |s| && s[e] == '\n' && LastFence(s, e + 1, |s|).Some?)
    ensures forall tl, bl :: !MatchAt(s, i, tl, bl)
  {
    forall tl, bl ensures !MatchAt(s, i, tl, bl) {
      if FenceAt(s, i) {
        MatchAtShape(s, i, tl, bl);
      }
    }
  }

  /** The scanner moves on from a position that does not yield a match. */
  lemma FindFromSkip(s: string, i: nat)
    requires i < |s|
    requires FenceAt(s, i) ==>
      var e := WordRunEnd(s, i + 3);
      !(e < |s| && s[e] == '\n' && LastFence(s, e + 1, |s|).Some?)
    ensures FindFrom(s, i) == FindFrom(s, i + 1)
  {
  }

  /** A position without a match extends a match-free range to its left. */
  lemma NoMatchInExtend(s: string, i: int, j: int)
    requires forall tl, bl :: !MatchAt(s, i, tl, bl)
    requires NoMatchIn(s, i + 1, j)
    ensures NoMatchIn(s, i, j)
  {
  }

  lemma {:induction false} FindFromCorrect(s: string, i: nat)
    requires i <= |s|
    ensures FindFrom(s, i).None? ==> NoMatchIn(s, i, |s|)
    ensures FindFrom(s, i).Some? ==>
      && i <= FindFrom(s, i).value.start
      && NoMatchIn(s, i, FindFrom(s, i).value.start)
      && PreferredAt(s, FindFrom(s, i).value)
    decreases |s| - i
  {
    if i < |s| {
      var e := if FenceAt(s, i) then WordRunEnd(s, i + 3) else 0;
      if FenceAt(s, i) && e < |s| && s[e] == '\n' && LastFence(s, e + 1, |s|).Some? {
        var p := LastFence(s, e + 1, |s|).value;
        assert FindFrom(s, i) == Some(Capture(i, s[i + 3 .. e], s[e + 1 .. p]));
        FoundAt(s, i, e, p);
      } else {
        NoneAt(s, i);
        FindFromSkip(s, i);
        FindFromCorrect(s, i + 1);
        match FindFrom(s, i + 1)
        case None => NoMatchInExtend(s, i, |s|);
        case Some(c) => NoMatchInExtend(s, i, c.start);
      }
    }
  }

  /** `Regex::captures_iter(..).next()`: the leftmost-first match, with both capture groups. */
  function Extract(s: string): (r: Option<Capture>)
    ensures r.None? <==> NoMatch(s)
    ensures r.Some? ==>
      && LeftmostFirst(s, r.value.start, |r.value.tag|, |r.value.code|)
      && r.value.tag == s[r.value.start + 3 .. r.value.start + 3 + |r.value.tag|]
      && r.value.code == s[r.value.start + 4 + |r.value.tag| .. r.value.start + 4 + |r.value.tag| + |r.value.code|]
  {
    FindFromCorrect(s, 0);
    FindFrom(s, 0)
  }

  /** Every tag the pattern captures consists of word characters only. */
  lemma ExtractTagIsWord(s: string)
    requires Extract(s).Some?
    ensures forall k :: 0 <= k < |Extract(s).value.tag| ==> Ascii.IsWordChar(Extract(s).value.tag[k])
  {
    var c := Extract(s).value;
    forall k | 0 <= k < |c.tag| ensures Ascii.IsWordChar(c.tag[k]) {
      assert c.tag[k] == s[c.start + 3 + k];
    }
  }

  /** The message of the source's test for the Rust backend, written as the fence, the tag, the three code lines and the closing fence. */
  lemma ExtractRustExample()
    ensures Extract("```" + "rust" + "\n" + "fn main() {\n" + "println!(\"Hello\");\n" + "}\n" + "```\n")
         == Some(Capture(0, "rust", "fn main() {\n" + "println!(\"Hello\");\n" + "}\n"))
  {
    var body := "fn main() {\n" + "println!(\"Hello\");\n" + "}\n";
    var s := "```" + "rust" + "\n" + "fn main() {\n" + "println!(\"Hello\");\n" + "}\n" + "```\n";
    assert |s| == 45;
    assert FenceAt(s, 0);
    assert WordRunEnd(s, 7) == 7;
    assert WordRunEnd(s, 5) == 7;
    assert WordRunEnd(s, 3) == 7;
    assert !FenceAt(s, 44) && !FenceAt(s, 43) && !FenceAt(s, 42) && FenceAt(s, 41);
    assert LastFence(s, 8, 42) == Some(41);
    assert LastFence(s, 8, 44) == Some(41);
    assert LastFence(s, 8, 45) == Some(41);
    assert s[3 .. 7] == "rust" && s[8 .. 41] == body;
    assert FindFrom(s, 0) == Some(Capture(0, "rust", body));
  }

  /** The message of the source's test for the Python backend. */
  lemma ExtractPythonExample()
    ensures Extract("```" + "py" + "\n" + "print(\"Hello\")\n" + "```\n")
         == Some(Capture(0, "py", "print(\"Hello\")\n"))
  {
    var body := "print(\"Hello\")\n";
    var s := "```" + "py" + "\n" + "print(\"Hello\")\n" + "```\n";
    assert |s| == 25;
    assert FenceAt(s, 0);
    assert WordRunEnd(s, 5) == 5;
    assert WordRunEnd(s, 4) == 5;
    assert WordRunEnd(s, 3) == 5;
    assert !FenceAt(s, 24) && !FenceAt(s, 23) && !FenceAt(s, 22) && FenceAt(s, 21);
    assert LastFence(s, 6, 22) == Some(21);
    assert LastFence(s, 6, 24) == Some(21);
    assert LastFence(s, 6, 25) == Some(21);
    assert s[3 .. 5] == "py" && s[6 .. 21] == body;
    assert FindFrom(s, 0) == Some(Capture(0, "py", body));
  }
}
