/** `DocumentProcessor.clean_text` and `DocumentProcessor.pdf_loader`
    (utils/common/pdf_parser_service.py:42-68). Each chunk is cleaned by two substitutions:
    `re.sub(r"[^a-zA-Z0-9\s]", "", chunk)` drops every character that is neither an ASCII
    letter or digit nor whitespace, and `re.sub(r"\s+", " ", ...).strip()` turns each run of
    whitespace into one space and trims the ends. */
module PdfParser {
  import opened Results
  import opened PyText
  import opened Json

  /** The characters the first substitution keeps. */
  predicate Allowed(c: char) {
    IsAsciiAlnum(c) || IsSpace(c)
  }

  /** `re.sub(r"[^a-zA-Z0-9\s]", "", s)`. */
  function KeepAllowed(s: string): (r: string)
    ensures forall i :: 0 <= i < |r| ==> Allowed(r[i])
    decreases |s|
  {
    if s == [] then [] else (if Allowed(s[0]) then [s[0]] else []) + KeepAllowed(s[1..])
  }

  /** `re.sub(r"\s+", " ", s)`: each maximal run of whitespace becomes one space. */
  function Collapse(s: string): (r: string)
    decreases |s|
  {
    if s == [] then []
    else if IsSpace(s[0]) then
      var n := LeadingSpaces(s);
      [' '] + Collapse(s[n..])
    else [s[0]] + Collapse(s[1..])
  }

  function CleanChunk(s: string): string {
    Strip(Collapse(KeepAllowed(s)))
  }

  /** `s` without its whitespace. */
  function NonSpace(s: string): (r: string)
    decreases |s|
  {
    if s == [] then [] else (if IsSpace(s[0]) then [] else [s[0]]) + NonSpace(s[1..])
  }

  /** `s` filtered to `[a-zA-Z0-9]`. */
  function AlnumOnly(s: string): (r: string)
    decreases |s|
  {
    if s == [] then [] else (if IsAsciiAlnum(s[0]) then [s[0]] else []) + AlnumOnly(s[1..])
  }

  /** The shape of a cleaned chunk: only ASCII letters, digits and the space character, no
      space at either end and never two spaces in a row. */
  predicate Normal(s: string) {
    && (forall i :: 0 <= i < |s| ==> IsAsciiAlnum(s[i]) || s[i] == ' ')
    && (s != [] ==> s[0] != ' ' && s[|s| - 1] != ' ')
    && (forall i :: 0 <= i < |s| - 1 ==> !(s[i] == ' ' && s[i + 1] == ' '))
  }

  /** No two consecutive spaces, and every whitespace character is a plain space. */
  predicate SingleSpaced(s: string) {
    && (forall i :: 0 <= i < |s| ==> IsSpace(s[i]) ==> s[i] == ' ')
    && (forall i :: 0 <= i < |s| - 1 ==> !(IsSpace(s[i]) && IsSpace(s[i + 1])))
  }

  lemma {:induction false} CollapseShape(s: string)
    requires forall i :: 0 <= i < |s| ==> Allowed(s[i])
    ensures forall i :: 0 <= i < |Collapse(s)| ==> IsAsciiAlnum(Collapse(s)[i]) || Collapse(s)[i] == ' '
    ensures SingleSpaced(Collapse(s))
    ensures Collapse(s) != [] && IsSpace(Collapse(s)[0]) ==> s != [] && IsSpace(s[0])
    decreases |s|
  {
    if s != [] {
      if IsSpace(s[0]) {
        var n := LeadingSpaces(s);
        LeadingSpacesSpec(s);
        var rest := s[n..];
        CollapseShape(rest);
        assert rest != [] ==> !IsSpace(rest[0]);
        assert forall i :: 1 <= i < |Collapse(s)| ==> Collapse(s)[i] == Collapse(rest)[i - 1];
      } else {
        CollapseShape(s[1..]);
        assert forall i :: 1 <= i < |Collapse(s)| ==> Collapse(s)[i] == Collapse(s[1..])[i - 1];
      }
    }
  }

  /** Stripping a single-spaced text leaves a normal one. */
  lemma StripNormal(s: string)
    requires forall i :: 0 <= i < |s| ==> IsAsciiAlnum(s[i]) || s[i] == ' '
    requires SingleSpaced(s)
    ensures Normal(Strip(s))
  {
    var i, j := StripFrom(s), StripTo(s);
    StripCutsSpace(s);
    var r := Strip(s);
    assert forall k :: 0 <= k < |r| ==> r[k] == s[i + k];
  }

  /** Every cleaned chunk has the normal shape. */
  lemma CleanIsNormal(s: string)
    ensures Normal(CleanChunk(s))
  {
    CollapseShape(KeepAllowed(s));
    StripNormal(Collapse(KeepAllowed(s)));
  }

  lemma {:induction false} NonSpaceConcat(a: string, b: string)
    ensures NonSpace(a + b) == NonSpace(a) + NonSpace(b)
    decreases |a|
  {
    if a == [] {
      assert a + b == b;
    } else {
      assert (a + b)[0] == a[0] && (a + b)[1..] == a[1..] + b;
      NonSpaceConcat(a[1..], b);
    }
  }

  lemma {:induction false} NonSpaceOfSpace(s: string)
    requires AllSpace(s)
    ensures NonSpace(s) == []
    decreases |s|
  {
    if s != [] {
      NonSpaceOfSpace(s[1..]);
    }
  }

  lemma {:induction false} NonSpaceCollapse(s: string)
    ensures NonSpace(Collapse(s)) == NonSpace(s)
    decreases |s|
  {
    if s != [] {
      if IsSpace(s[0]) {
        var n := LeadingSpaces(s);
        LeadingSpacesSpec(s);
        NonSpaceCollapse(s[n..]);
        NonSpaceConcat([' '], Collapse(s[n..]));
        assert s == s[..n] + s[n..];
        NonSpaceConcat(s[..n], s[n..]);
        NonSpaceOfSpace(s[..n]);
      } else {
        NonSpaceCollapse(s[1..]);
        NonSpaceConcat([s[0]], Collapse(s[1..]));
      }
    }
  }

  lemma NonSpaceStrip(s: string)
    ensures NonSpace(Strip(s)) == NonSpace(s)
  {
    var i, j := StripFrom(s), StripTo(s);
    StripCutsSpace(s);
    assert s == s[..i] + s[i..j] + s[j..];
    NonSpaceConcat(s[..i] + s[i..j], s[j..]);
    NonSpaceConcat(s[..i], s[i..j]);
    NonSpaceOfSpace(s[..i]);
    NonSpaceOfSpace(s[j..]);
  }

  lemma {:induction false} NonSpaceKeepAllowed(s: string)
    ensures NonSpace(KeepAllowed(s)) == AlnumOnly(s)
    decreases |s|
  {
    if s != [] {
      NonSpaceKeepAllowed(s[1..]);
      NonSpaceConcat(if Allowed(s[0]) then [s[0]] else [], KeepAllowed(s[1..]));
    }
  }

  /** The letters and digits survive in order: deleting the spaces of the cleaned chunk
      gives the chunk filtered to `[a-zA-Z0-9]`. */
  lemma CleanKeepsAlnum(s: string)
    ensures NonSpace(CleanChunk(s)) == AlnumOnly(s)
  {
    NonSpaceStrip(Collapse(KeepAllowed(s)));
    NonSpaceCollapse(KeepAllowed(s));
    NonSpaceKeepAllowed(s);
  }

  lemma {:induction false} KeepAllowedOfAllowed(s: string)
    requires forall i :: 0 <= i < |s| ==> Allowed(s[i])
    ensures KeepAllowed(s) == s
    decreases |s|
  {
    if s != [] {
      KeepAllowedOfAllowed(s[1..]);
    }
  }

  lemma {:induction false} CollapseOfSingleSpaced(s: string)
    requires SingleSpaced(s)
    ensures Collapse(s) == s
    decreases |s|
  {
    if s != [] {
      assert SingleSpaced(s[1..]) by {
        assert forall i :: 0 <= i < |s| - 1 ==> s[1..][i] == s[i + 1];
      }
      CollapseOfSingleSpaced(s[1..]);
      if IsSpace(s[0]) {
        assert |s| > 1 ==> !IsSpace(s[1]);
        assert LeadingSpaces(s[1..]) == 0;
        assert LeadingSpaces(s) == 1;
      }
    }
  }

  /** Cleaning a cleaned chunk changes nothing. */
  lemma CleanIdempotent(s: string)
    ensures CleanChunk(CleanChunk(s)) == CleanChunk(s)
  {
    var c := CleanChunk(s);
    CleanIsNormal(s);
    KeepAllowedOfAllowed(c);
    CollapseOfSingleSpaced(c);
    assert IsStripped(c);
    StripOfStripped(c);
  }

  /** One item of `clean_text`'s output: a string is cleaned; anything else makes `re.sub`
      raise `TypeError`, which the `except` branch answers by keeping the item as it is. */
  function CleanItem(item: Json): Json {
    if item.JStr? then JStr(CleanChunk(item.s)) else item
  }

  method CleanText(texts: seq<Json>) returns (cleaned: seq<Json>)
    ensures |cleaned| == |texts|
    ensures forall i :: 0 <= i < |texts| ==> cleaned[i] == CleanItem(texts[i])
  {
    cleaned := [];
    var i := 0;
    while i < |texts|
      invariant 0 <= i <= |texts|
      invariant |cleaned| == i
      invariant forall k :: 0 <= k < i ==> cleaned[k] == CleanItem(texts[k])
    {
      var chunk := texts[i];
      if chunk.JStr? {
        cleaned := cleaned + [JStr(CleanChunk(chunk.s))];
      } else {
        cleaned := cleaned + [chunk];
      }
      i := i + 1;
    }
  }

  /** Every string the cleaner returns has the normal shape, and cleaning its output again
      changes nothing. */
  lemma CleanTextFacts(texts: seq<Json>, cleaned: seq<Json>)
    requires |cleaned| == |texts|
    requires forall i :: 0 <= i < |texts| ==> cleaned[i] == CleanItem(texts[i])
    ensures forall i :: 0 <= i < |texts| && texts[i].JStr? ==>
      cleaned[i].JStr? && Normal(cleaned[i].s) && NonSpace(cleaned[i].s) == AlnumOnly(texts[i].s)
    ensures forall i :: 0 <= i < |cleaned| ==> CleanItem(cleaned[i]) == cleaned[i]
  {
    forall i | 0 <= i < |texts| && texts[i].JStr?
      ensures Normal(cleaned[i].s) && NonSpace(cleaned[i].s) == AlnumOnly(texts[i].s)
    {
      CleanIsNormal(texts[i].s);
      CleanKeepsAlnum(texts[i].s);
    }
    forall i | 0 <= i < |cleaned|
      ensures CleanItem(cleaned[i]) == cleaned[i]
    {
      if texts[i].JStr? {
        CleanIdempotent(texts[i].s);
      }
    }
  }

  /** What `PyPDFLoader(path).alazy_load()` yields: each page's content in load order, or
      a missing file, or any other failure with its message. */
  datatype Load = Pages(contents: seq<string>) | FileMissing | LoadFailed(message: string)

  /** What `pdf_loader(path)` returns or raises. */
  function LoadedText(path: string, load: Load): Result<string> {
    match load
    case Pages(contents) => Ok(Join(", ", contents))
    case FileMissing => Err("File not found at path: " + path)
    case LoadFailed(e) => Err("An error occurred while loading the document: " + e)
  }

  method PdfLoader(path: string, loader: string -> Load) returns (r: Result<string>)
    ensures r == LoadedText(path, loader(path))
  {
    var load := loader(path);
    match load {
      case FileMissing =>
        return Err("File not found at path: " + path);
      case LoadFailed(e) =>
        return Err("An error occurred while loading the document: " + e);
      case Pages(contents) =>
        var pages: seq<string> := [];
        var i := 0;
        while i < |contents|
          invariant 0 <= i <= |contents|
          invariant pages == contents[..i]
        {
          pages := pages + [contents[i]];
          i := i + 1;
        }
        assert pages == contents;
        return Ok(Join(", ", pages));
    }
  }

  /** The pages appear in load order, separated by ", ": the text grows by ", " and the
      new page with each page loaded, and its length is that of the pages plus two per
      separator. */
  lemma LoaderJoinsInOrder(path: string, contents: seq<string>, page: string)
    ensures contents != [] ==>
      LoadedText(path, Pages(contents + [page])).value == LoadedText(path, Pages(contents)).value + ", " + page
    ensures contents != [] ==>
      |LoadedText(path, Pages(contents)).value| == SumLengths(contents) + 2 * (|contents| - 1)
    ensures LoadedText(path, Pages([page])) == Ok(page)
  {
    if contents != [] {
      JoinSnoc(", ", contents, page);
      JoinLength(", ", contents);
    }
  }
}
