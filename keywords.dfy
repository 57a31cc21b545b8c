/** `simplify_image_prompt` (agents/presentation_agent.py:61-69): the keywords an image
    search is run with. The prompt is lowercased and cut into words (`\b\w+\b`), stop
    words and words of one or two letters are dropped, and the three most frequent words
    are joined with spaces; `Counter.most_common` is stable, so among equally frequent
    words the one that occurs first wins. */
module Keywords {
  import opened PyText

  /** The stop words of agents/presentation_agent.py:63-66. */
  predicate StopWord(w: string) {
    w in {
      "a", "an", "the", "of", "in", "on", "with", "to", "and", "for", "from",
      "showing", "illustrating", "representation", "diagram", "image", "prompt"}
  }

  /** What the search falls back to when no word survives. */
  const Fallback := "technology diagram"

  predicate AllWord(t: string) {
    forall i :: 0 <= i < |t| ==> IsWordChar(t[i])
  }

  /** The length of the run of word characters `s` starts with. */
  function WordLength(s: string): (n: nat)
    ensures n <= |s|
    decreases |s|
  {
    if s != [] && IsWordChar(s[0]) then 1 + WordLength(s[1..]) else 0
  }

  lemma {:induction false} WordLengthSpec(s: string)
    ensures AllWord(s[..WordLength(s)])
    ensures WordLength(s) < |s| ==> !IsWordChar(s[WordLength(s)])
    decreases |s|
  {
    if s != [] && IsWordChar(s[0]) {
      WordLengthSpec(s[1..]);
      var n := WordLength(s[1..]);
      assert s[..1 + n] == [s[0]] + s[1..][..n];
    }
  }

  /** `re.findall(r'\b\w+\b', s)`: the maximal runs of word characters, in order (a run is
      maximal, so the two word boundaries always hold around it). */
  function Tokens(s: string): (ts: seq<string>)
    ensures forall k :: 0 <= k < |ts| ==> ts[k] != [] && AllWord(ts[k])
    decreases |s|
  {
    if s == [] then []
    else if !IsWordChar(s[0]) then Tokens(s[1..])
    else
      var n := WordLength(s);
      WordLengthSpec(s);
      [s[..n]] + Tokens(s[n..])
  }

  /** The words of a lowercase text are lowercase. */
  lemma {:induction false} TokensOfLowercase(s: string)
    requires IsLowercase(s)
    ensures forall k :: 0 <= k < |Tokens(s)| ==> IsLowercase(Tokens(s)[k])
    decreases |s|
  {
    if s != [] {
      if !IsWordChar(s[0]) {
        TokensOfLowercase(s[1..]);
      } else {
        TokensOfLowercase(s[WordLength(s)..]);
      }
    }
  }

  /** A word followed by a non-word character (or by nothing) is read as one run. */
  lemma {:induction false} WordLengthOf(w: string, t: string)
    requires AllWord(w)
    requires t == [] || !IsWordChar(t[0])
    ensures WordLength(w + t) == |w|
    decreases |w|
  {
    if w == [] {
      assert w + t == t;
    } else {
      assert (w + t)[1..] == w[1..] + t;
      WordLengthOf(w[1..], t);
    }
  }

  /** One word, then a space and more text. */
  lemma TokensOfCons(w: string, t: string)
    requires w != [] && AllWord(w)
    ensures Tokens(w + [' '] + t) == [w] + Tokens(t)
  {
    var s := w + [' '] + t;
    assert s == w + ([' '] + t);
    WordLengthOf(w, [' '] + t);
    assert s[..|w|] == w;
    assert s[|w|..] == [' '] + t;
    assert ([' '] + t)[1..] == t;
  }

  lemma TokensOfWord(w: string)
    requires w != [] && AllWord(w)
    ensures Tokens(w) == [w]
  {
    WordLengthOf(w, []);
    assert w + [] == w;
    assert w[|w|..] == [];
  }

  /** Reading back the words that were joined with single spaces gives the same words. */
  lemma {:induction false} TokensOfJoin(ws: seq<string>)
    requires forall k :: 0 <= k < |ws| ==> ws[k] != [] && AllWord(ws[k])
    ensures Tokens(Join(" ", ws)) == ws
    decreases |ws|
  {
    if |ws| == 1 {
      TokensOfWord(ws[0]);
    } else if |ws| > 1 {
      TokensOfJoin(ws[1..]);
      TokensOfCons(ws[0], Join(" ", ws[1..]));
      assert [ws[0]] + ws[1..] == ws;
    }
  }

  /** Words joined with spaces are lowercase when the words are. */
  lemma {:induction false} JoinOfLowercase(ws: seq<string>)
    requires forall k :: 0 <= k < |ws| ==> IsLowercase(ws[k])
    ensures IsLowercase(Join(" ", ws))
    decreases |ws|
  {
    if |ws| > 1 {
      JoinOfLowercase(ws[1..]);
      var r := Join(" ", ws[1..]);
      assert Join(" ", ws) == ws[0] + " " + r;
      assert forall i :: 0 <= i < |ws[0] + " " + r| ==>
        (ws[0] + " " + r)[i] == (if i < |ws[0]| then ws[0][i] else if i == |ws[0]| then ' ' else r[i - |ws[0]| - 1]);
    }
  }

  /** The words the comprehension at agents/presentation_agent.py:67 keeps. */
  predicate Kept(w: string) {
    !StopWord(w) && |w| > 2
  }

  function Filter(ws: seq<string>): (r: seq<string>)
    ensures forall k :: 0 <= k < |r| ==> Kept(r[k]) && r[k] in ws
    ensures forall k :: 0 <= k < |ws| && Kept(ws[k]) ==> ws[k] in r
    decreases |ws|
  {
    if ws == [] then []
    else if Kept(ws[0]) then [ws[0]] + Filter(ws[1..])
    else Filter(ws[1..])
  }

  lemma {:induction false} FilterOfKept(ws: seq<string>)
    requires forall k :: 0 <= k < |ws| ==> Kept(ws[k])
    ensures Filter(ws) == ws
    decreases |ws|
  {
    if ws != [] {
      FilterOfKept(ws[1..]);
      assert [ws[0]] + ws[1..] == ws;
    }
  }

  /** How often `w` occurs in `ws` (the `Counter`). */
  function Count(ws: seq<string>, w: string): (n: nat)
    ensures n <= |ws|
    decreases |ws|
  {
    if ws == [] then 0 else (if ws[0] == w then 1 else 0) + Count(ws[1..], w)
  }

  lemma {:induction false} CountPositive(ws: seq<string>, w: string)
    ensures Count(ws, w) > 0 <==> w in ws
    decreases |ws|
  {
    if ws != [] {
      CountPositive(ws[1..], w);
      assert ws == [ws[0]] + ws[1..];
    }
  }

  /** Where `w` first occurs in `ws`. */
  function FirstIndex(ws: seq<string>, w: string): (i: nat)
    requires w in ws
    ensures i < |ws| && ws[i] == w
    ensures forall k :: 0 <= k < i ==> ws[k] != w
    decreases |ws|
  {
    if ws[0] == w then 0 else 1 + FirstIndex(ws[1..], w)
  }

  /** The order `Counter.most_common` lists words in: more frequent first, and among
      equally frequent words the one seen first. */
  predicate Before(ws: seq<string>, a: string, b: string)
    requires a in ws && b in ws
  {
    Count(ws, a) > Count(ws, b) || (Count(ws, a) == Count(ws, b) && FirstIndex(ws, a) < FirstIndex(ws, b))
  }

  /** `cands` lists words of `ws` in the order they first occur there. */
  predicate InFirstOrder(ws: seq<string>, cands: seq<string>) {
    (forall k :: 0 <= k < |cands| ==> cands[k] in ws)
    && (forall i, j {:trigger FirstIndex(ws, cands[i]), FirstIndex(ws, cands[j])} :: 0 <= i < j < |cands| ==> FirstIndex(ws, cands[i]) < FirstIndex(ws, cands[j]))
  }

  predicate DistinctWords(ws: seq<string>) {
    forall i, j :: 0 <= i < j < |ws| ==> ws[i] != ws[j]
  }

  lemma InFirstOrderDistinct(ws: seq<string>, cands: seq<string>)
    requires InFirstOrder(ws, cands)
    ensures DistinctWords(cands)
  {
    forall i, j | 0 <= i < j < |cands|
      ensures cands[i] != cands[j]
    {
      assert FirstIndex(ws, cands[i]) < FirstIndex(ws, cands[j]);
    }
  }

  lemma FirstIndexOfPrefix(ws: seq<string>, n: nat, w: string)
    requires n <= |ws| && w in ws[..n]
    ensures FirstIndex(ws[..n], w) == FirstIndex(ws, w)
  {
    var i := FirstIndex(ws[..n], w);
    assert ws[i] == w;
    var j := FirstIndex(ws, w);
    assert j <= i;
    assert ws[..n][j] == w;
  }

  /** The distinct words of `ws`, in the order of their first occurrence (the keys of a
      `Counter` built from `ws`). */
  function Distinct(ws: seq<string>): (r: seq<string>)
    ensures forall w :: w in r <==> w in ws
    decreases |ws|
  {
    if ws == [] then []
    else
      var init := ws[..|ws| - 1];
      var last := ws[|ws| - 1];
      var u := Distinct(init);
      assert ws == init + [last];
      if last in u then u else u + [last]
  }

  lemma {:induction false} DistinctInFirstOrder(ws: seq<string>)
    ensures InFirstOrder(ws, Distinct(ws))
    decreases |ws|
  {
    if ws != [] {
      DistinctInFirstOrder(ws[..|ws| - 1]);
      DistinctGrows(ws, Distinct(ws[..|ws| - 1]));
    }
  }

  lemma DistinctGrows(ws: seq<string>, u: seq<string>)
    requires ws != []
    requires forall w :: w in u <==> w in ws[..|ws| - 1]
    requires InFirstOrder(ws[..|ws| - 1], u)
    ensures InFirstOrder(ws, u)
    ensures ws[|ws| - 1] !in u ==> InFirstOrder(ws, u + [ws[|ws| - 1]])
  {
    var n := |ws| - 1;
    forall k | 0 <= k < |u|
      ensures FirstIndex(ws[..n], u[k]) == FirstIndex(ws, u[k]) && FirstIndex(ws, u[k]) < n
    {
      FirstIndexOfPrefix(ws, n, u[k]);
    }
    var last := ws[n];
    if last !in u {
      assert forall k :: 0 <= k < n ==> ws[k] == ws[..n][k];
      assert FirstIndex(ws, last) == n;
    }
  }

  /** The best word of `cands` under `Before`: scanning from the back, a word replaces the
      best so far unless it occurs less often, so ties go to the earlier word. */
  function Best(ws: seq<string>, cands: seq<string>): (b: string)
    requires cands != []
    ensures b in cands
    decreases |cands|
  {
    if |cands| == 1 then cands[0]
    else
      var b := Best(ws, cands[1..]);
      if Count(ws, cands[0]) >= Count(ws, b) then cands[0] else b
  }

  /** No other candidate comes before the best one. */
  lemma {:induction false} BestRanks(ws: seq<string>, cands: seq<string>)
    requires cands != [] && InFirstOrder(ws, cands)
    ensures forall k :: 0 <= k < |cands| && cands[k] != Best(ws, cands) ==> Before(ws, Best(ws, cands), cands[k])
    decreases |cands|
  {
    if |cands| > 1 {
      BestRanks(ws, cands[1..]);
      var b := Best(ws, cands[1..]);
      forall k | 1 <= k < |cands|
        ensures cands[k] == cands[1..][k - 1]
      {
      }
    }
  }

  /** `cands` without `b`. */
  function Without(cands: seq<string>, b: string): (r: seq<string>)
    ensures |r| <= |cands|
    ensures b in cands ==> |r| < |cands|
    decreases |cands|
  {
    if cands == [] then []
    else if cands[0] == b then Without(cands[1..], b)
    else [cands[0]] + Without(cands[1..], b)
  }

  lemma {:induction false} WithoutMembers(cands: seq<string>, b: string)
    ensures forall w :: w in Without(cands, b) <==> w in cands && w != b
    decreases |cands|
  {
    if cands != [] {
      WithoutMembers(cands[1..], b);
      assert cands == [cands[0]] + cands[1..];
    }
  }

  lemma {:induction false} WithoutLength(cands: seq<string>, b: string)
    requires DistinctWords(cands) && b in cands
    ensures |Without(cands, b)| == |cands| - 1
    decreases |cands|
  {
    if cands[0] == b {
      WithoutAbsent(cands[1..], b);
    } else {
      assert b in cands[1..];
      WithoutLength(cands[1..], b);
    }
  }

  lemma {:induction false} WithoutAbsent(cands: seq<string>, b: string)
    requires b !in cands
    ensures Without(cands, b) == cands
    decreases |cands|
  {
    if cands != [] {
      WithoutAbsent(cands[1..], b);
      assert [cands[0]] + cands[1..] == cands;
    }
  }

  lemma {:induction false} WithoutInOrder(ws: seq<string>, cands: seq<string>, b: string)
    requires InFirstOrder(ws, cands)
    ensures InFirstOrder(ws, Without(cands, b))
    decreases |cands|
  {
    if cands != [] {
      var tail := cands[1..];
      assert InFirstOrder(ws, tail);
      WithoutInOrder(ws, tail, b);
      var r := Without(tail, b);
      WithoutMembers(tail, b);
      if cands[0] != b {
        var r' := [cands[0]] + r;
        forall k | 0 < k < |r'|
          ensures FirstIndex(ws, cands[0]) < FirstIndex(ws, r'[k])
        {
          assert r'[k] == r[k - 1];
          assert r'[k] in tail;
          var m :| 0 <= m < |tail| && tail[m] == r'[k];
          assert cands[m + 1] == r'[k];
        }
        assert Without(cands, b) == r';
      }
    }
  }

  /** `most_common(n)` over the candidates: the best of them by `Before`, then the best of
      the rest, `n` times at most. */
  function MostCommon(ws: seq<string>, cands: seq<string>, n: nat): (r: seq<string>)
    ensures |r| <= n && |r| <= |cands|
    decreases n
  {
    if n == 0 || cands == [] then []
    else
      var b := Best(ws, cands);
      [b] + MostCommon(ws, Without(cands, b), n - 1)
  }

  /** Chosen words are candidates, each chosen once, and as many as asked for unless the
      candidates run out. */
  lemma {:induction false} MostCommonMembers(ws: seq<string>, cands: seq<string>, n: nat)
    requires DistinctWords(cands)
    ensures var r := MostCommon(ws, cands, n);
      && |r| == (if n < |cands| then n else |cands|)
      && (forall w :: w in r ==> w in cands)
      && DistinctWords(r)
    decreases n
  {
    if n > 0 && cands != [] {
      var b := Best(ws, cands);
      var rest := Without(cands, b);
      WithoutMembers(cands, b);
      WithoutLength(cands, b);
      assert DistinctWords(rest) by {
        WithoutDistinct(cands, b);
      }
      MostCommonMembers(ws, rest, n - 1);
      var r' := MostCommon(ws, rest, n - 1);
      assert b !in r';
    }
  }

  lemma {:induction false} WithoutDistinct(cands: seq<string>, b: string)
    requires DistinctWords(cands)
    ensures DistinctWords(Without(cands, b))
    decreases |cands|
  {
    if cands != [] {
      WithoutDistinct(cands[1..], b);
      WithoutMembers(cands[1..], b);
      assert cands[0] !in cands[1..];
    }
  }

  /** `r`, chosen from `cands`, is ranked: its words come in `Before` order, and each comes
      before every candidate left out. */
  predicate Ranked(ws: seq<string>, cands: seq<string>, r: seq<string>) {
    && (forall k :: 0 <= k < |r| ==> r[k] in ws)
    && (forall i, j :: 0 <= i < j < |r| ==> Before(ws, r[i], r[j]))
    && (forall w :: w in cands && w in ws && w !in r ==> forall k :: 0 <= k < |r| ==> Before(ws, r[k], w))
  }

  /** The stable top `n`: chosen words come in `Before` order, and every chosen word comes
      before every candidate left out. */
  lemma {:induction false} MostCommonRanked(ws: seq<string>, cands: seq<string>, n: nat)
    requires InFirstOrder(ws, cands)
    ensures Ranked(ws, cands, MostCommon(ws, cands, n))
    decreases n
  {
    if n > 0 && cands != [] {
      var b := Best(ws, cands);
      var rest := Without(cands, b);
      var r' := MostCommon(ws, rest, n - 1);
      WithoutInOrder(ws, cands, b);
      MostCommonRanked(ws, rest, n - 1);
      assert Ranked(ws, rest, r');
      InFirstOrderDistinct(ws, rest);
      MostCommonMembers(ws, rest, n - 1);
      assert forall w :: w in r' ==> w in rest;
      RankedStep(ws, cands, b, rest, r');
      assert MostCommon(ws, cands, n) == [b] + r';
    }
  }

  /** The best candidate, put before a ranked choice from the others, gives a ranked choice. */
  lemma RankedStep(ws: seq<string>, cands: seq<string>, b: string, rest: seq<string>, r': seq<string>)
    requires cands != [] && InFirstOrder(ws, cands) && b == Best(ws, cands) && rest == Without(cands, b)
    requires InFirstOrder(ws, rest) && Ranked(ws, rest, r')
    requires forall w :: w in r' ==> w in rest
    ensures Ranked(ws, cands, [b] + r')
  {
    BestRanks(ws, cands);
    WithoutMembers(cands, b);
    BestBeforeAll(ws, cands, b, r');
    RankedCons(ws, cands, b, rest, r');
  }

  lemma BestBeforeAll(ws: seq<string>, cands: seq<string>, b: string, xs: seq<string>)
    requires b in ws && InFirstOrder(ws, cands)
    requires forall k :: 0 <= k < |cands| && cands[k] != b ==> Before(ws, b, cands[k])
    requires forall w :: w in xs ==> w in cands && w != b
    ensures forall k :: 0 <= k < |xs| ==> xs[k] in ws && Before(ws, b, xs[k])
  {
    forall k | 0 <= k < |xs|
      ensures xs[k] in ws && Before(ws, b, xs[k])
    {
      assert xs[k] in xs;
      var m :| 0 <= m < |cands| && cands[m] == xs[k];
    }
  }

  /** Putting the best word in front of a ranked choice from the rest keeps it ranked. */
  lemma RankedCons(ws: seq<string>, cands: seq<string>, b: string, rest: seq<string>, r': seq<string>)
    requires b in cands && InFirstOrder(ws, cands)
    requires forall k :: 0 <= k < |cands| && cands[k] != b ==> Before(ws, b, cands[k])
    requires forall w :: w in rest <==> w in cands && w != b
    requires InFirstOrder(ws, rest) && Ranked(ws, rest, r')
    requires forall k :: 0 <= k < |r'| ==> r'[k] in ws && Before(ws, b, r'[k])
    ensures Ranked(ws, cands, [b] + r')
  {
    var r := [b] + r';
    assert forall k :: 0 < k < |r| ==> r[k] == r'[k - 1];
    forall w | w in cands && w !in r
      ensures forall k :: 0 <= k < |r| ==> Before(ws, r[k], w)
    {
      var m :| 0 <= m < |cands| && cands[m] == w;
      assert w in rest;
    }
  }

  /** The words `simplify_image_prompt` joins: `most_common(3)` of the kept words. */
  function Keywords(prompt: string): seq<string> {
    var ws := Filter(Tokens(Lower(prompt)));
    MostCommon(ws, Distinct(ws), 3)
  }

  function Simplify(prompt: string): (r: string)
    ensures r == Fallback || r == Join(" ", Keywords(prompt))
  {
    var top := Keywords(prompt);
    if top == [] then Fallback else Join(" ", top)
  }

  /** Facts about the words chosen from `prompt`, gathered once. */
  lemma KeywordsFacts(prompt: string)
    ensures var ws := Filter(Tokens(Lower(prompt)));
      var top := Keywords(prompt);
      && InFirstOrder(ws, Distinct(ws))
      && |top| == (if 3 < |Distinct(ws)| then 3 else |Distinct(ws)|)
      && DistinctWords(top)
      && (forall k :: 0 <= k < |top| ==> top[k] in ws)
      && (forall k :: 0 <= k < |top| ==>
            top[k] in Tokens(Lower(prompt)) && top[k] != [] && AllWord(top[k])
            && IsLowercase(top[k]) && Kept(top[k]))
  {
    var ts := Tokens(Lower(prompt));
    var ws := Filter(ts);
    var d := Distinct(ws);
    var top := Keywords(prompt);
    DistinctInFirstOrder(ws);
    InFirstOrderDistinct(ws, d);
    MostCommonMembers(ws, d, 3);
    TokensOfLowercase(Lower(prompt));
    forall k | 0 <= k < |top|
      ensures top[k] in ws && top[k] in ts && top[k] != [] && AllWord(top[k]) && IsLowercase(top[k]) && Kept(top[k])
    {
      assert top[k] in d;
      var m :| 0 <= m < |ts| && ts[m] == top[k];
    }
  }

  /** At most three words, each a lowercase word of the prompt that is at least three
      letters long and not a stop word; the fallback when no word survives. */
  lemma SimplifyShape(prompt: string)
    ensures var ws := Filter(Tokens(Lower(prompt)));
      && (ws == [] ==> Simplify(prompt) == Fallback)
      && (ws != [] ==> Simplify(prompt) == Join(" ", Keywords(prompt)) && 0 < |Keywords(prompt)| <= 3)
    ensures var top := Keywords(prompt);
      forall k :: 0 <= k < |top| ==>
        && top[k] in Tokens(Lower(prompt))
        && IsLowercase(top[k]) && |top[k]| >= 3 && !StopWord(top[k])
  {
    var ws := Filter(Tokens(Lower(prompt)));
    KeywordsFacts(prompt);
    if ws != [] {
      assert ws[0] in Distinct(ws);
    }
  }

  /** The stable top three: the chosen words come in `Before` order, every one of them
      comes before every kept word left out, and fewer than three are chosen only when
      fewer than three distinct words were kept. */
  lemma KeywordsRanked(prompt: string)
    ensures var ws := Filter(Tokens(Lower(prompt)));
      var top := Keywords(prompt);
      && (forall k :: 0 <= k < |top| ==> top[k] in ws)
      && (forall i, j :: 0 <= i < j < |top| ==> Before(ws, top[i], top[j]))
      && (forall w :: w in ws && w !in top ==> forall k :: 0 <= k < |top| ==> Before(ws, top[k], w))
      && (|top| < 3 ==> forall w :: w in ws ==> w in top)
  {
    TopRanked(Filter(Tokens(Lower(prompt))), 3);
  }

  /** `most_common(n)` over a whole list of words. */
  lemma TopRanked(ws: seq<string>, n: nat)
    ensures var top := MostCommon(ws, Distinct(ws), n);
      && (forall k :: 0 <= k < |top| ==> top[k] in ws)
      && (forall i, j :: 0 <= i < j < |top| ==> Before(ws, top[i], top[j]))
      && (forall w :: w in ws && w !in top ==> forall k :: 0 <= k < |top| ==> Before(ws, top[k], w))
      && (|top| < n ==> forall w :: w in ws ==> w in top)
  {
    var d := Distinct(ws);
    var top := MostCommon(ws, d, n);
    DistinctInFirstOrder(ws);
    InFirstOrderDistinct(ws, d);
    MostCommonMembers(ws, d, n);
    MostCommonRanked(ws, d, n);
    if |top| < n {
      AllChosen(top, d);
    }
  }

  /** Distinct words drawn from `d`, as many as `d` holds, are all of `d`. */
  lemma AllChosen(top: seq<string>, d: seq<string>)
    requires DistinctWords(top) && DistinctWords(d)
    requires |top| == |d| && (forall w :: w in top ==> w in d)
    ensures forall w :: w in d ==> w in top
  {
    var st := set k | 0 <= k < |top| :: top[k];
    var sd := set k | 0 <= k < |d| :: d[k];
    DistinctCard(top);
    DistinctCard(d);
    forall x | x in st
      ensures x in sd
    {
      var k :| 0 <= k < |top| && top[k] == x;
      assert x in top;
      var m :| 0 <= m < |d| && d[m] == x;
    }
    SubsetEqualCard(st, sd);
    forall w | w in d
      ensures w in top
    {
      var m :| 0 <= m < |d| && d[m] == w;
      assert w in sd;
    }
  }

  lemma {:induction false} DistinctCard(xs: seq<string>)
    requires DistinctWords(xs)
    ensures |set k | 0 <= k < |xs| :: xs[k]| == |xs|
    decreases |xs|
  {
    if xs != [] {
      var ys := xs[..|xs| - 1];
      DistinctCard(ys);
      var sy := set k | 0 <= k < |ys| :: ys[k];
      var sx := set k | 0 <= k < |xs| :: xs[k];
      assert sx == sy + {xs[|xs| - 1]};
      assert xs[|xs| - 1] !in sy;
    }
  }

  /** A subset as large as the whole set is the whole set. */
  lemma SubsetEqualCard(a: set<string>, b: set<string>)
    requires a <= b && |a| == |b|
    ensures a == b
  {
    assert b == a + (b - a);
    assert |b - a| == 0;
  }

  /** Candidates that all occur once, no more of them than are asked for, all come out in
      their own order. */
  lemma {:induction false} MostCommonOfEqual(ws: seq<string>, cands: seq<string>, n: nat)
    requires DistinctWords(cands) && |cands| <= n
    requires forall k {:trigger Count(ws, cands[k])} :: 0 <= k < |cands| ==> Count(ws, cands[k]) == 1
    ensures MostCommon(ws, cands, n) == cands
    decreases n
  {
    if cands != [] {
      MostCommonOfEqualStep(ws, cands, n);
      MostCommonOfEqual(ws, cands[1..], n - 1);
      assert [cands[0]] + cands[1..] == cands;
    }
  }

  lemma MostCommonOfEqualStep(ws: seq<string>, cands: seq<string>, n: nat)
    requires n > 0 && cands != [] && DistinctWords(cands)
    requires forall k {:trigger Count(ws, cands[k])} :: 0 <= k < |cands| ==> Count(ws, cands[k]) == 1
    ensures MostCommon(ws, cands, n) == [cands[0]] + MostCommon(ws, cands[1..], n - 1)
    ensures DistinctWords(cands[1..])
    ensures forall k {:trigger Count(ws, cands[1..][k])} :: 0 <= k < |cands[1..]| ==> Count(ws, cands[1..][k]) == 1
  {
    var tail := cands[1..];
    BestOfEqual(ws, cands);
    DistinctTail(cands);
    WithoutAbsent(tail, cands[0]);
    assert Without(cands, cands[0]) == tail;
    assert forall k :: 0 <= k < |tail| ==> tail[k] == cands[k + 1];
  }

  lemma DistinctTail(cands: seq<string>)
    requires cands != [] && DistinctWords(cands)
    ensures DistinctWords(cands[1..]) && cands[0] !in cands[1..]
  {
    assert forall k :: 0 <= k < |cands| - 1 ==> cands[1..][k] == cands[k + 1];
  }

  lemma {:induction false} BestOfEqual(ws: seq<string>, cands: seq<string>)
    requires cands != []
    requires forall k {:trigger Count(ws, cands[k])} :: 0 <= k < |cands| ==> Count(ws, cands[k]) == 1
    ensures Best(ws, cands) == cands[0]
    decreases |cands|
  {
    if |cands| > 1 {
      var b := Best(ws, cands[1..]);
      assert b in cands[1..];
      var m :| 0 <= m < |cands| - 1 && cands[1..][m] == b;
      assert Count(ws, cands[m + 1]) == 1;
    }
  }

  lemma {:induction false} CountOfDistinct(ws: seq<string>, w: string)
    requires DistinctWords(ws) && w in ws
    ensures Count(ws, w) == 1
    decreases |ws|
  {
    if ws[0] != w {
      assert w in ws[1..];
      CountOfDistinct(ws[1..], w);
    } else {
      assert w !in ws[1..];
      CountPositive(ws[1..], w);
    }
  }

  lemma {:induction false} DistinctOfDistinct(ws: seq<string>)
    requires DistinctWords(ws)
    ensures Distinct(ws) == ws
    decreases |ws|
  {
    if ws != [] {
      var init := ws[..|ws| - 1];
      DistinctOfDistinct(init);
      assert ws[|ws| - 1] !in init;
      assert init + [ws[|ws| - 1]] == ws;
    }
  }

  /** Simplifying what was chosen chooses it again, when some word survived the filter;
      the fallback is the exception (see `FallbackNotFixed`). */
  lemma SimplifyIdempotent(prompt: string)
    requires Filter(Tokens(Lower(prompt))) != []
    ensures Simplify(Simplify(prompt)) == Simplify(prompt)
  {
    var top := Keywords(prompt);
    SimplifyShape(prompt);
    KeywordsFacts(prompt);
    ChosenAgain(top);
    assert Simplify(prompt) == Join(" ", top);
  }

  /** Up to three distinct kept lowercase words, joined with spaces, are chosen again. */
  lemma ChosenAgain(top: seq<string>)
    requires 0 < |top| <= 3 && DistinctWords(top)
    requires forall k :: 0 <= k < |top| ==> top[k] != [] && AllWord(top[k]) && IsLowercase(top[k]) && Kept(top[k])
    ensures Keywords(Join(" ", top)) == top
    ensures Simplify(Join(" ", top)) == Join(" ", top)
  {
    var r := Join(" ", top);
    JoinOfLowercase(top);
    LowerOfLowercase(r);
    TokensOfJoin(top);
    FilterOfKept(top);
    assert Filter(Tokens(Lower(r))) == top;
    DistinctOfDistinct(top);
    forall k | 0 <= k < |top|
      ensures Count(top, top[k]) == 1
    {
      CountOfDistinct(top, top[k]);
    }
    MostCommonOfEqual(top, top, 3);
    assert Keywords(r) == top;
  }

  /** The fallback is not a fixed point: "diagram" is a stop word. */
  lemma FallbackNotFixed()
    ensures Simplify(Fallback) == "technology"
  {
    var w, x := "technology", "diagram";
    assert AllWord(w) && IsLowercase(w) && Kept(w);
    assert AllWord(x) && IsLowercase(x) && !Kept(x);
    assert Fallback == w + " " + x;
    KeptThenDropped(w, x);
  }

  /** A kept word followed by a dropped one is simplified to the kept word alone. */
  lemma KeptThenDropped(w: string, x: string)
    requires w != [] && AllWord(w) && IsLowercase(w) && Kept(w)
    requires x != [] && AllWord(x) && IsLowercase(x) && !Kept(x)
    ensures Simplify(w + " " + x) == w
  {
    var ws := [w, x];
    assert Join(" ", ws[1..]) == x;
    assert Join(" ", ws) == w + " " + x;
    JoinOfLowercase(ws);
    LowerOfLowercase(w + " " + x);
    TokensOfJoin(ws);
    assert Filter(ws[1..]) == [];
    assert Filter(ws) == [w];
    ChosenAgain([w]);
    LowerOfLowercase(w);
    TokensOfWord(w);
    assert Filter([w]) == [w];
    assert Keywords(w + " " + x) == Keywords(w) == [w];
  }
}
