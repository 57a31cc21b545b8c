/** The few str operations of Python's standard library the model needs. Whitespace is
    Python's full set; letters, digits and case are those of the ASCII range (see README,
    "Left out"). */
module PyText {

  /** Python's `str.isspace()`, which is also what regex `\s` and `str.strip()` use:
      TAB, LF, VT, FF, CR, the separators 0x1C..0x1F, SPACE, NEL, NO-BREAK SPACE, and the
      Unicode space and line/paragraph separators. */
  predicate IsSpace(c: char) {
    || c == ' ' || (9 <= c as int <= 13) || (28 <= c as int <= 31)
    || c as int == 0x85 || c as int == 0xA0 || c as int == 0x1680
    || (0x2000 <= c as int <= 0x200A) || c as int == 0x2028 || c as int == 0x2029
    || c as int == 0x202F || c as int == 0x205F || c as int == 0x3000
  }

  /** The class `[a-zA-Z0-9]`. */
  predicate IsAsciiAlnum(c: char) {
    ('a' <= c <= 'z') || ('A' <= c <= 'Z') || ('0' <= c <= '9')
  }

  /** Regex `\w` restricted to ASCII: letters, digits and underscore. */
  predicate IsWordChar(c: char) {
    IsAsciiAlnum(c) || c == '_'
  }

  predicate IsUpper(c: char) {
    'A' <= c <= 'Z'
  }

  function LowerChar(c: char): (d: char)
    ensures !IsUpper(d)
    ensures IsUpper(c) ==> d as int == c as int + 32
    ensures !IsUpper(c) ==> d == c
  {
    if IsUpper(c) then (c as int + 32) as char else c
  }

  /** `str.lower()` on ASCII letters. */
  function Lower(s: string): (r: string)
    ensures |r| == |s|
    ensures forall i :: 0 <= i < |s| ==> r[i] == LowerChar(s[i])
  {
    seq(|s|, i requires 0 <= i < |s| => LowerChar(s[i]))
  }

  predicate IsLowercase(s: string) {
    forall i :: 0 <= i < |s| ==> !IsUpper(s[i])
  }

  lemma LowerOfLowercase(s: string)
    requires IsLowercase(s)
    ensures Lower(s) == s
  {
  }

  /** `lower()` leaves no upper-case letter, so applying it twice changes nothing, and a
      text is its own lower-case form exactly when it has no upper-case letter. */
  lemma LowerIdempotent(s: string)
    ensures IsLowercase(Lower(s))
    ensures Lower(Lower(s)) == Lower(s)
    ensures Lower(s) == s <==> IsLowercase(s)
  {
    LowerOfLowercase(Lower(s));
    if IsLowercase(s) {
      LowerOfLowercase(s);
    }
  }

  predicate StartsWith(s: string, p: string) {
    |p| <= |s| && s[..|p|] == p
  }

  predicate EndsWith(s: string, p: string) {
    |p| <= |s| && s[|s| - |p|..] == p
  }

  predicate AllSpace(s: string) {
    forall i :: 0 <= i < |s| ==> IsSpace(s[i])
  }

  /** How many whitespace characters `s` starts with. */
  function LeadingSpaces(s: string): (n: nat)
    ensures n <= |s|
    decreases |s|
  {
    if |s| > 0 && IsSpace(s[0]) then 1 + LeadingSpaces(s[1..]) else 0
  }

  /** The count is exactly the whitespace prefix: all of it is whitespace, and what follows is not. */
  lemma {:induction false} LeadingSpacesSpec(s: string)
    ensures AllSpace(s[..LeadingSpaces(s)])
    ensures LeadingSpaces(s) < |s| ==> !IsSpace(s[LeadingSpaces(s)])
    decreases |s|
  {
    if |s| > 0 && IsSpace(s[0]) {
      LeadingSpacesSpec(s[1..]);
      var n := LeadingSpaces(s[1..]);
      assert s[..1 + n] == [s[0]] + s[1..][..n];
    }
  }

  /** How many whitespace characters `s` ends with. */
  function TrailingSpaces(s: string): (n: nat)
    ensures n <= |s|
    decreases |s|
  {
    if |s| > 0 && IsSpace(s[|s| - 1]) then 1 + TrailingSpaces(s[..|s| - 1]) else 0
  }

  lemma {:induction false} TrailingSpacesSpec(s: string)
    ensures AllSpace(s[|s| - TrailingSpaces(s)..])
    ensures TrailingSpaces(s) < |s| ==> !IsSpace(s[|s| - 1 - TrailingSpaces(s)])
    decreases |s|
  {
    if |s| > 0 && IsSpace(s[|s| - 1]) {
      var u := s[..|s| - 1];
      TrailingSpacesSpec(u);
      var n := TrailingSpaces(u);
      assert s[|s| - (1 + n)..] == u[|u| - n..] + [s[|s| - 1]];
      if n < |u| {
        assert s[|s| - 1 - TrailingSpaces(s)] == u[|u| - 1 - n];
      }
    }
  }

  /** `str.lstrip()`. */
  function LStrip(s: string): string {
    s[LeadingSpaces(s)..]
  }

  /** `str.rstrip()`. */
  function RStrip(s: string): string {
    s[..|s| - TrailingSpaces(s)]
  }

  /** A string Python's `strip()` leaves alone. */
  predicate IsStripped(s: string) {
    s == [] || (!IsSpace(s[0]) && !IsSpace(s[|s| - 1]))
  }

  /** Where the slice that `strip()` keeps begins and ends. */
  function StripFrom(s: string): (i: nat)
    ensures i <= |s|
  {
    LeadingSpaces(s)
  }

  function StripTo(s: string): (j: nat)
    ensures StripFrom(s) <= j <= |s|
  {
    |s| - TrailingSpaces(LStrip(s))
  }

  /** `str.strip()`: the slice of `s` between its leading and its trailing whitespace. */
  function Strip(s: string): (r: string)
    ensures r == s[StripFrom(s)..StripTo(s)]
  {
    RStrip(LStrip(s))
  }

  /** What `strip()` removes is whitespace, and what it keeps neither starts nor ends with any. */
  lemma StripCutsSpace(s: string)
    ensures IsStripped(Strip(s))
    ensures AllSpace(s[..StripFrom(s)]) && AllSpace(s[StripTo(s)..])
  {
    var l := LStrip(s);
    LeadingSpacesSpec(s);
    TrailingSpacesSpec(l);
    assert s[StripTo(s)..] == l[|l| - TrailingSpaces(l)..];
    var r := Strip(s);
    if r != [] {
      assert r[0] == l[0];
    }
  }

  lemma SliceOfSlice(s: string, a: nat, b: nat, i: nat, j: nat)
    requires a <= b <= |s| && i <= j <= b - a
    ensures s[a..b][i..j] == s[a + i..a + j]
  {
    assert forall m :: 0 <= m < j - i ==> s[a..b][i..j][m] == s[a + i..a + j][m];
  }

  /** `strip()` of a slice `s[a..b]` is a smaller slice, with only whitespace cut away. */
  lemma StripSlice(s: string, a: nat, b: nat) returns (i: nat, j: nat)
    requires a <= b <= |s|
    ensures a <= i <= j <= b && Strip(s[a..b]) == s[i..j] && AllSpace(s[a..i]) && AllSpace(s[j..b])
  {
    var body := s[a..b];
    StripCutsSpace(body);
    var i', j' := StripFrom(body), StripTo(body);
    i, j := a + i', a + j';
    assert body[..i'] == body[0..i'] && body[j'..] == body[j'..|body|];
    SliceOfSlice(s, a, b, i', j');
    SpaceOfSlice(s, a, b, 0, i');
    SpaceOfSlice(s, a, b, j', |body|);
  }

  lemma SpaceOfSlice(s: string, a: nat, b: nat, i: nat, j: nat)
    requires a <= b <= |s| && i <= j <= b - a && AllSpace(s[a..b][i..j])
    ensures AllSpace(s[a + i..a + j])
  {
    SliceOfSlice(s, a, b, i, j);
  }

  lemma StripOfStripped(s: string)
    requires IsStripped(s)
    ensures Strip(s) == s
  {
    if s != [] {
      assert LeadingSpaces(s) == 0;
      assert s[0..] == s;
      assert TrailingSpaces(s) == 0;
    }
  }

  lemma AllSpaceStrip(s: string)
    requires AllSpace(s)
    ensures Strip(s) == []
  {
    LeadingSpacesSpec(s);
  }

  lemma AllSpaceConcat(x: string, y: string)
    requires AllSpace(x) && AllSpace(y)
    ensures AllSpace(x + y)
  {
  }

  /** A character that is not whitespace lies inside what `strip()` keeps. */
  lemma NonSpaceKept(s: string, k: nat)
    requires k < |s| && !IsSpace(s[k])
    ensures StripFrom(s) <= k < StripTo(s)
  {
    StripCutsSpace(s);
  }

  lemma ThreeSlices(s: string, i: nat, j: nat)
    requires i <= j <= |s|
    ensures s == s[..i] + s[i..j] + s[j..]
  {
  }

  /** Whitespace around a string does not change what `strip()` returns. */
  lemma StripPadded(a: string, s: string, b: string)
    requires AllSpace(a) && AllSpace(b)
    ensures Strip(a + s + b) == Strip(s)
  {
    if AllSpace(s) {
      AllSpaceConcat(a, s);
      AllSpaceConcat(a + s, b);
      AllSpaceStrip(a + s + b);
      AllSpaceStrip(s);
    } else {
      var k :| 0 <= k < |s| && !IsSpace(s[k]);
      StripPaddedAround(a, s, b, k);
    }
  }

  lemma StripPaddedAround(a: string, s: string, b: string, k: nat)
    requires AllSpace(a) && AllSpace(b)
    requires k < |s| && !IsSpace(s[k])
    ensures Strip(a + s + b) == Strip(s)
  {
    NonSpaceKept(s, k);
    StripCutsSpace(s);
    var i, j := StripFrom(s), StripTo(s);
    var pre, m, post := a + s[..i], s[i..j], s[j..] + b;
    assert m == Strip(s) && m != [];
    Regroup(a, s, b, i, j);
    AllSpaceConcat(a, s[..i]);
    AllSpaceConcat(s[j..], b);
    StripCore(pre, m, post);
  }

  lemma Regroup(a: string, s: string, b: string, i: nat, j: nat)
    requires i <= j <= |s|
    ensures a + s + b == (a + s[..i]) + s[i..j] + (s[j..] + b)
  {
    ThreeSlices(s, i, j);
  }

  lemma StripCore(a: string, m: string, b: string)
    requires AllSpace(a) && AllSpace(b) && m != [] && IsStripped(m)
    ensures Strip(a + m + b) == m
  {
    var t := a + m + b;
    assert t[|a|] == m[0];
    LeadingOf(a, m + b);
    assert t == a + (m + b);
    assert LStrip(t) == m + b;
    TrailingOf(m, b);
    assert (m + b)[..|m|] == m;
  }

  lemma {:induction false} LeadingOf(a: string, u: string)
    requires AllSpace(a) && u != [] && !IsSpace(u[0])
    ensures LeadingSpaces(a + u) == |a|
    decreases |a|
  {
    if a == [] {
      assert a + u == u;
    } else {
      assert (a + u)[0] == a[0];
      assert (a + u)[1..] == a[1..] + u;
      LeadingOf(a[1..], u);
    }
  }

  lemma {:induction false} TrailingOf(u: string, b: string)
    requires AllSpace(b) && u != [] && !IsSpace(u[|u| - 1])
    ensures TrailingSpaces(u + b) == |b|
    decreases |b|
  {
    if b == [] {
      assert u + b == u;
    } else {
      assert (u + b)[|u + b| - 1] == b[|b| - 1];
      assert (u + b)[..|u + b| - 1] == u + b[..|b| - 1];
      TrailingOf(u, b[..|b| - 1]);
    }
  }

  /** `s.replace(a, b)` for single characters. */
  function ReplaceChar(s: string, a: char, b: char): (r: string)
    ensures |r| == |s|
    ensures forall i :: 0 <= i < |s| ==> r[i] == (if s[i] == a then b else s[i])
  {
    seq(|s|, i requires 0 <= i < |s| => if s[i] == a then b else s[i])
  }

  /** After `s.replace(a, b)` no `a` is left, and when `b` did not occur in `s` the
      replacement is undone by `replace(b, a)`. */
  lemma ReplaceCharInverse(s: string, a: char, b: char)
    ensures a != b ==> a !in ReplaceChar(s, a, b)
    ensures b !in s ==> ReplaceChar(ReplaceChar(s, a, b), b, a) == s
  {
    var r := ReplaceChar(s, a, b);
    if a != b {
      forall i | 0 <= i < |r|
        ensures r[i] != a
      {
      }
    }
    if b !in s {
      var t := ReplaceChar(r, b, a);
      forall i | 0 <= i < |s|
        ensures t[i] == s[i]
      {
        assert s[i] != b;
      }
    }
  }

  /** `sep.join(parts)`. */
  function Join(sep: string, parts: seq<string>): (r: string)
    decreases |parts|
  {
    if parts == [] then "" else if |parts| == 1 then parts[0] else parts[0] + sep + Join(sep, parts[1..])
  }

  lemma {:induction false} JoinSnoc(sep: string, parts: seq<string>, x: string)
    requires parts != []
    ensures Join(sep, parts + [x]) == Join(sep, parts) + sep + x
    decreases |parts|
  {
    if |parts| == 1 {
      assert parts + [x] == [parts[0], x];
    } else {
      assert (parts + [x])[1..] == parts[1..] + [x];
      JoinSnoc(sep, parts[1..], x);
    }
  }

  function SumLengths(parts: seq<string>): nat
    decreases |parts|
  {
    if parts == [] then 0 else |parts[0]| + SumLengths(parts[1..])
  }

  /** The joined text is as long as its parts plus one separator between each two. */
  lemma {:induction false} JoinLength(sep: string, parts: seq<string>)
    requires parts != []
    ensures |Join(sep, parts)| == SumLengths(parts) + (|parts| - 1) * |sep|
    decreases |parts|
  {
    if |parts| > 1 {
      JoinLength(sep, parts[1..]);
    }
  }

  function DigitChar(d: nat): (c: char)
    requires d < 10
  {
    ('0' as int + d) as char
  }

  /** Python's `str(n)` / f"{n}" on a natural number. */
  function NatToString(n: nat): (r: string)
    ensures r != [] && (forall i :: 0 <= i < |r| ==> '0' <= r[i] <= '9')
    ensures (|r| == 1) <==> n < 10
    decreases n
  {
    if n < 10 then [DigitChar(n)] else NatToString(n / 10) + [DigitChar(n % 10)]
  }

  /** Different numbers print differently. */
  lemma {:induction false} NatToStringInjective(a: nat, b: nat)
    requires NatToString(a) == NatToString(b)
    ensures a == b
    decreases a
  {
    if a >= 10 && b >= 10 {
      var sa, sb := NatToString(a), NatToString(b);
      assert sa[|sa| - 1] == DigitChar(a % 10) && sb[|sb| - 1] == DigitChar(b % 10);
      assert NatToString(a / 10) == sa[..|sa| - 1] == sb[..|sb| - 1] == NatToString(b / 10);
      NatToStringInjective(a / 10, b / 10);
    }
  }
}
