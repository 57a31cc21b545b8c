/** The two markdown-fence cleaners that run before `json.loads`:
    - agents/presentation_agent.py:88 applies `re.sub(r"^```json|```$", "", text, flags=re.IGNORECASE).strip()`;
    - utils/evaluation/evaluation_service.py:46 applies the same with `^```(?:json)?`, so a bare
      opening fence is removed too.
    Neither pattern uses MULTILINE: `^` is the start of the text, and `$` is its end or the
    position just before one final newline. */
module Fences {
  import opened PyText

  const Fence := "```"

  /** Three backticks start at position `i` of `s`. */
  predicate FenceAt(s: string, i: int) {
    0 <= i && i + 3 <= |s| && s[i] == '`' && s[i + 1] == '`' && s[i + 2] == '`'
  }

  /** The four characters at `i` spell "json" in any letter case. */
  predicate JsonTagAt(s: string, i: nat) {
    i + 4 <= |s| && LowerChar(s[i]) == 'j' && LowerChar(s[i + 1]) == 's'
    && LowerChar(s[i + 2]) == 'o' && LowerChar(s[i + 3]) == 'n'
  }

  /** How much of the start of `s` the alternative `^```json` removes. */
  function JsonOpeningLength(s: string): (n: nat)
    ensures n == 0 || n == 7
    ensures n <= |s|
  {
    if FenceAt(s, 0) && JsonTagAt(s, 3) then 7 else 0
  }

  /** How much of the start of `s` the alternative `^```(?:json)?` removes: the tag is
      taken whenever it is there, since `?` is greedy. */
  function OpeningLength(s: string): (n: nat)
    ensures n == 0 || n == 3 || n == 7
    ensures n <= |s|
  {
    if FenceAt(s, 0) then (if JsonTagAt(s, 3) then 7 else 3) else 0
  }

  /** How much of the end of `t` the alternative `````$` removes, counting the final
      newline that `$` may stand before (that newline itself is kept). */
  function ClosingLength(t: string): (n: nat)
    ensures n == 0 || n == 3 || n == 4
    ensures n <= |t|
  {
    if FenceAt(t, |t| - 3) then 3
    else if |t| >= 4 && t[|t| - 1] == '\n' && FenceAt(t, |t| - 4) then 4
    else 0
  }

  /** `t` with its closing fence removed. The search for it starts where the opening
      match ended, so it is applied to the rest of the text only. */
  function DropClosingFence(t: string): string {
    var n := ClosingLength(t);
    if n == 4 then t[..|t| - 4] + "\n" else t[..|t| - n]
  }

  /** Whatever the fences, the cleaned text is a slice of the input that begins after the
      opening fence and leading whitespace and ends before trailing whitespace and the
      closing fence: only the two ends are edited. */
  predicate InnerSlice(s: string, k: nat, r: string)
    requires k <= |s|
  {
    SliceBetween(s, k, |s| - ClosingLength(s[k..]), r)
  }

  /** `r` is `s[lo..hi]` with some whitespace cut from either end. */
  predicate SliceBetween(s: string, lo: nat, hi: nat, r: string)
    requires lo <= hi <= |s|
  {
    exists i, j :: lo <= i <= j <= hi && r == s[i..j] && AllSpace(s[lo..i]) && AllSpace(s[j..hi])
  }

  /** The newline that `$` stood before is whitespace, so it does not survive `strip()`. */
  lemma DropClosingStrip(t: string)
    ensures Strip(DropClosingFence(t)) == Strip(t[..|t| - ClosingLength(t)])
  {
    var c := ClosingLength(t);
    var body := t[..|t| - c];
    if c == 4 {
      var nl := "\n";
      assert AllSpace(nl);
      assert DropClosingFence(t) == body + nl;
      StripPadded([], body, nl);
      assert [] + body + nl == body + nl;
    }
  }

  lemma StripBetween(s: string, a: nat, b: nat, r: string)
    requires a <= b <= |s| && r == Strip(s[a..b])
    ensures SliceBetween(s, a, b, r)
  {
    var i, j := StripSlice(s, a, b);
  }

  lemma TakeOfDrop(s: string, k: nat, c: nat)
    requires k + c <= |s|
    ensures s[k..][..|s| - k - c] == s[k..|s| - c]
  {
  }

  lemma BodyIsSlice(s: string, k: nat)
    requires k <= |s|
    ensures SliceBetween(s, k, |s| - ClosingLength(s[k..]), Strip(DropClosingFence(s[k..])))
  {
    var c := ClosingLength(s[k..]);
    StripOfRest(s, k);
    StripBetween(s, k, |s| - c, Strip(DropClosingFence(s[k..])));
  }

  lemma StripOfRest(s: string, k: nat)
    requires k <= |s|
    ensures Strip(DropClosingFence(s[k..])) == Strip(s[k..|s| - ClosingLength(s[k..])])
  {
    var t := s[k..];
    DropClosingStrip(t);
    TakeOfDrop(s, k, ClosingLength(t));
  }

  /** The cleaner of agents/presentation_agent.py:88. */
  function StripJsonFence(s: string): (r: string)
    ensures IsStripped(r)
    ensures InnerSlice(s, JsonOpeningLength(s), r)
  {
    BodyIsSlice(s, JsonOpeningLength(s));
    StripCutsSpace(DropClosingFence(s[JsonOpeningLength(s)..]));
    Strip(DropClosingFence(s[JsonOpeningLength(s)..]))
  }

  /** The cleaner of utils/evaluation/evaluation_service.py:46 (and utils/gemini_service.py:24). */
  function StripFence(s: string): (r: string)
    ensures IsStripped(r)
    ensures InnerSlice(s, OpeningLength(s), r)
  {
    BodyIsSlice(s, OpeningLength(s));
    StripCutsSpace(DropClosingFence(s[OpeningLength(s)..]));
    Strip(DropClosingFence(s[OpeningLength(s)..]))
  }

  /** A text with no fence at either end is only stripped, by both cleaners. */
  lemma UnfencedOnlyStripped(s: string)
    requires !FenceAt(s, 0) && ClosingLength(s) == 0
    ensures StripFence(s) == Strip(s)
    ensures StripJsonFence(s) == Strip(s)
  {
    assert OpeningLength(s) == 0 && JsonOpeningLength(s) == 0;
    assert s[0..] == s;
    assert DropClosingFence(s) == s[..|s|];
    assert s[..|s|] == s;
  }

  /** A tag of four letters that reads "json" in some letter case. */
  predicate IsJsonTag(tag: string) {
    |tag| == 4 && JsonTagAt(tag, 0)
  }

  lemma ClosingOfFenced(c: string, nl: string)
    requires nl == "" || nl == "\n"
    ensures ClosingLength(c + Fence + nl) == 3 + |nl|
    ensures DropClosingFence(c + Fence + nl) == c + nl
  {
    var t := c + Fence + nl;
    if nl == "" {
      assert t[|t| - 3..] == Fence;
      assert t[..|t| - 3] == c;
    } else {
      assert t[|t| - 3..] != Fence by {
        assert t[|t| - 1] == '\n';
      }
      assert t[|t| - 4..|t| - 1] == Fence;
      assert t[..|t| - 4] == c;
    }
  }

  /** The closing fence and the newline after it leave only the stripped body. */
  lemma StripClosed(c: string, nl: string)
    requires nl == "" || nl == "\n"
    ensures Strip(DropClosingFence(c + Fence + nl)) == Strip(c)
  {
    ClosingOfFenced(c, nl);
    if nl == "\n" {
      assert AllSpace(nl);
      StripPadded("", c, nl);
      assert "" + c + nl == c + nl;
    } else {
      assert c + nl == c;
    }
  }

  /** An opening fence with a "json" tag in any letter case, and what follows it. */
  lemma TaggedOpening(tag: string, rest: string)
    requires IsJsonTag(tag)
    ensures FenceAt(Fence + tag + rest, 0) && JsonTagAt(Fence + tag + rest, 3)
    ensures (Fence + tag + rest)[7..] == rest
  {
    var s := Fence + tag + rest;
    assert s[0] == '`' && s[1] == '`' && s[2] == '`';
    assert s[3] == tag[0] && s[4] == tag[1] && s[5] == tag[2] && s[6] == tag[3];
  }

  /** A bare opening fence, when the text after it does not start with "json". */
  lemma BareOpening(c: string, nl: string)
    requires !JsonTagAt(c, 0)
    ensures FenceAt(Fence + c + Fence + nl, 0) && !JsonTagAt(Fence + c + Fence + nl, 3)
    ensures (Fence + c + Fence + nl)[3..] == c + Fence + nl
  {
    var s := Fence + c + Fence + nl;
    assert s[0] == '`' && s[1] == '`' && s[2] == '`';
    assert s[3..] == c + Fence + nl;
    if 7 <= |s| && |c| < 4 {
      assert s[3 + |c|] == '`';
      assert LowerChar('`') == '`';
    } else if 7 <= |s| {
      assert s[3] == c[0] && s[4] == c[1] && s[5] == c[2] && s[6] == c[3];
    }
  }

  /** Fenced input, with a tag in any letter case: the evaluation cleaner returns the
      stripped inner text, whatever it holds (an inner "```" included). */
  lemma FencedRoundTrip(tag: string, c: string, nl: string)
    requires IsJsonTag(tag) || (tag == "" && !JsonTagAt(c, 0))
    requires nl == "" || nl == "\n"
    ensures StripFence(Fence + tag + c + Fence + nl) == Strip(c)
  {
    if tag == "" {
      BareOpening(c, nl);
      assert Fence + tag + c + Fence + nl == Fence + c + Fence + nl;
    } else {
      TaggedOpening(tag, c + Fence + nl);
      assert Fence + tag + c + Fence + nl == Fence + tag + (c + Fence + nl);
    }
    StripClosed(c, nl);
  }

  /** The same for the presentation cleaner, when the fence carries its "json" tag. */
  lemma JsonFencedRoundTrip(tag: string, c: string, nl: string)
    requires IsJsonTag(tag)
    requires nl == "" || nl == "\n"
    ensures StripJsonFence(Fence + tag + c + Fence + nl) == Strip(c)
  {
    TaggedOpening(tag, c + Fence + nl);
    assert Fence + tag + c + Fence + nl == Fence + tag + (c + Fence + nl);
    StripClosed(c, nl);
  }

  /** An opening fence without the "json" tag is not removed by the presentation cleaner
      (unless the text is so short that the closing match takes part of it). */
  lemma {:induction false} BareFenceKept(s: string)
    requires FenceAt(s, 0) && !JsonTagAt(s, 3) && |s| >= 7
    ensures FenceAt(StripJsonFence(s), 0)
  {
    var c := ClosingLength(s);
    var u := DropClosingFence(s);
    assert s[0..] == s;
    assert u[..3] == Fence;
    assert !IsSpace(u[0]) && !IsSpace(u[2]);
    NonSpaceKept(u, 0);
    NonSpaceKept(u, 2);
  }

  /** A bare fence on a line of its own: the evaluation cleaner returns the inner text. */
  lemma BareFenceRemoved(c: string)
    requires c != [] && IsStripped(c)
    ensures StripFence(Fence + "\n" + c + "\n" + Fence) == c
  {
    var nl := "\n";
    assert AllSpace(nl);
    var body := nl + c + nl;
    assert body[0] == '\n';
    assert Fence + nl + c + nl + Fence == Fence + "" + body + Fence + "";
    FencedRoundTrip("", body, "");
    StripPadded(nl, c, nl);
    StripOfStripped(c);
  }

  lemma StrippedConcat(x: string, y: string)
    requires x != [] && !IsSpace(x[0]) && y != [] && !IsSpace(y[|y| - 1])
    ensures IsStripped(x + y)
  {
    assert (x + y)[0] == x[0] && (x + y)[|x + y| - 1] == y[|y| - 1];
  }

  /** The same input: the presentation cleaner keeps the opening fence. */
  lemma BareFenceKeptExact(c: string)
    requires c != [] && IsStripped(c)
    ensures StripJsonFence(Fence + "\n" + c + "\n" + Fence) == Fence + "\n" + c
  {
    var nl := "\n";
    var s := Fence + nl + c + nl + Fence;
    var kept := Fence + nl + c;
    assert s == (kept + nl) + Fence + "";
    assert s[3] == '\n';
    assert s[0..] == s;
    ClosingOfFenced(kept + nl, "");
    assert (Fence + nl)[0] == '`';
    StrippedConcat(Fence + nl, c);
    assert AllSpace(nl);
    StripPadded("", kept, nl);
    assert "" + kept + nl == kept + nl;
    StripOfStripped(kept);
  }
}
