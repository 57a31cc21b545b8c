/** `PPTXService.create_presentation` (utils/presentation_service.py:56-105): one slide of
    the "Title and Content" layout per item, filled from a string or a dict, then the deck
    is saved. The deck is abstract: slides with a title, the paragraphs of the body text
    frame and the pictures placed on them. */
module Deck {
  import opened Results
  import opened Json
  import opened PyText

  /** The font attributes the service sets; `false` and `None` mean left unset. */
  datatype Font = Font(size: Option<nat>, bold: bool, italic: bool, rgb: Option<(nat, nat, nat)>)

  /** A run holds whatever value was assigned to its `text`. */
  datatype Run = Run(text: Json, font: Font)

  datatype Paragraph = Paragraph(runs: seq<Run>, level: nat, font: Font)

  /** A picture with its position and width in EMU. */
  datatype Picture = Picture(image: Json, left: nat, top: nat, width: nat)

  /** `title` is `None` while the title placeholder's text was never set. */
  datatype Slide = Slide(title: Option<Json>, paragraphs: seq<Paragraph>, pictures: seq<Picture>)

  /** The deck a call saves, and the path it returns. */
  datatype Saved = Saved(path: string, deck: seq<Slide>)

  /** The filesystem and python-pptx as seen by the service: `os.path.exists`, whether
      `add_picture` succeeds on a value, and the error `prs.save` raises at a path. */
  datatype Env = Env(pathExists: Json -> bool, inserts: Json -> bool, saveError: string -> Option<string>)

  const Unset := Font(None, false, false, None)
  const EmptyParagraph := Paragraph([], 0, Unset)

  /** A freshly added slide after `text_frame.clear()`: no title, one empty paragraph. */
  const Blank := Slide(None, [EmptyParagraph], [])

  const EmuPerInch: nat := 914400
  const PictureLeft: nat := 11 * EmuPerInch / 2
  const PictureTop: nat := 3 * EmuPerInch / 2
  const PictureWidth: nat := 9 * EmuPerInch / 2

  const BodyFont := Font(Some(24), true, false, None)
  const SubtitleFont := Font(Some(18), false, true, Some((100, 100, 100)))
  const BulletFont := Font(Some(20), false, false, None)

  class Presentation {
    var slides: seq<Slide>

    constructor ()
      ensures slides == []
    {
      slides := [];
    }

    /** `prs.slides.add_slide(layout)`, the slide holding `s`. */
    method AddSlide(s: Slide)
      modifies this
      ensures slides == old(slides) + [s]
    {
      slides := slides + [s];
    }
  }

  /** `f"/tmp/{topic.replace(' ', '_')}.pptx"`. */
  function DefaultPath(topic: string): string {
    "/tmp/" + ReplaceChar(topic, ' ', '_') + ".pptx"
  }

  /** The paragraph `p.text = point; p.level = 0; p.font.size = Pt(20)` leaves. */
  function Bullet(point: Json): Paragraph {
    Paragraph([Run(point, Unset)], 0, BulletFont)
  }

  function Bullets(points: seq<Json>): (r: seq<Paragraph>)
    ensures |r| == |points|
    ensures forall i :: 0 <= i < |points| ==> r[i] == Bullet(points[i])
  {
    seq(|points|, i requires 0 <= i < |points| => Bullet(points[i]))
  }

  function SubtitleParagraphs(entries: seq<(string, Json)>): (r: seq<Paragraph>)
    ensures |r| <= 1
  {
    match Lookup(entries, "subtitle")
    case Some(v) => [Paragraph([Run(v, SubtitleFont)], 0, Unset)]
    case None => []
  }

  /** The picture a dict item gets: only for a truthy `image_path` that exists, and only
      when insertion does not fail (a failure is swallowed). */
  function PictureOf(entries: seq<(string, Json)>, env: Env): (r: seq<Picture>)
    ensures |r| <= 1
  {
    var path := GetOr(entries, "image_path", JNull);
    if Truthy(path) && env.pathExists(path) && env.inserts(path)
    then [Picture(path, PictureLeft, PictureTop, PictureWidth)]
    else []
  }

  /** The slide a dict item gives once its bullets are known. */
  function DictSlide(entries: seq<(string, Json)>, points: seq<Json>, env: Env): Slide {
    Slide(Some(GetOr(entries, "title", JStr("Untitled"))),
          [EmptyParagraph] + SubtitleParagraphs(entries) + Bullets(points),
          PictureOf(entries, env))
  }

  /** The slide an item gives, or the error iterating its bullets raises. */
  function SlideFor(item: Json, env: Env): Result<Slide> {
    match item
    case JStr(_) =>
      Ok(Blank.(title := Some(JStr("Slide")), paragraphs := [EmptyParagraph.(runs := [Run(item, BodyFont)])]))
    case JDict(entries) =>
      (match Iterate(GetOr(entries, "bullet_points", JList([])))
       case Err(e) => Err(e)
       case Ok(points) => Ok(DictSlide(entries, points, env)))
    case _ => Ok(Blank)
  }

  /** The slides for `items`, in order, or the first error. */
  function SlidesFor(items: seq<Json>, env: Env): (r: Result<seq<Slide>>)
    ensures r.Ok? ==> |r.value| == |items|
    decreases |items|
  {
    if items == [] then Ok([])
    else
      match SlidesFor(items[..|items| - 1], env)
      case Err(e) => Err(e)
      case Ok(deck) =>
        match SlideFor(items[|items| - 1], env)
        case Err(e) => Err(e)
        case Ok(s) => Ok(deck + [s])
  }

  /** What `create_presentation(topic, slides, file_path)` returns and saves. */
  function Create(topic: string, slides: Json, filePath: Option<string>, env: Env): Result<Saved> {
    var path := filePath.GetOr(DefaultPath(topic));
    match Iterate(slides)
    case Err(e) => Err(e)
    case Ok(items) =>
      match SlidesFor(items, env)
      case Err(e) => Err(e)
      case Ok(deck) =>
        match env.saveError(path)
        case Some(e) => Err(e)
        case None => Ok(Saved(path, deck))
  }

  /** The bullet loop of utils/presentation_service.py:91-95: one paragraph per point,
      appended to the text frame in order. */
  method AddBullets(paragraphs: seq<Paragraph>, points: seq<Json>) returns (r: seq<Paragraph>)
    ensures r == paragraphs + Bullets(points)
  {
    r := paragraphs;
    var i := 0;
    while i < |points|
      invariant 0 <= i <= |points|
      invariant r == paragraphs + Bullets(points[..i])
    {
      r := r + [Bullet(points[i])];
      assert Bullets(points[..i]) + [Bullet(points[i])] == Bullets(points[..i + 1]);
      i := i + 1;
    }
    assert points[..i] == points;
  }

  /** The slide one item gives (utils/presentation_service.py:64-102), starting from a
      blank slide whose title and text frame are then set in the order of the source. */
  method BuildSlide(item: Json, env: Env) returns (r: Result<Slide>)
    ensures r == SlideFor(item, env)
  {
    var slide := Blank;
    match item {
    case JStr(_) =>
      slide := slide.(title := Some(JStr("Slide")));
      var first := slide.paragraphs[0];
      assert first.runs + [Run(item, BodyFont)] == [Run(item, BodyFont)] && slide.paragraphs[1..] == [];
      slide := slide.(paragraphs := [first.(runs := first.runs + [Run(item, BodyFont)])] + slide.paragraphs[1..]);
      assert slide.title == Some(JStr("Slide"));
      assert slide.pictures == [];
      assert slide.paragraphs == [EmptyParagraph.(runs := [Run(item, BodyFont)])];
      assert Ok(slide) == SlideFor(item, env);
    case JDict(entries) =>
      slide := slide.(title := Some(GetOr(entries, "title", JStr("Untitled"))));
      var subtitle := Lookup(entries, "subtitle");
      if subtitle.Some? {
        slide := slide.(paragraphs := slide.paragraphs + [Paragraph([Run(subtitle.value, SubtitleFont)], 0, Unset)]);
      }
      assert slide.paragraphs == [EmptyParagraph] + SubtitleParagraphs(entries);
      var points := Iterate(GetOr(entries, "bullet_points", JList([])));
      if points.Err? {
        return Err(points.error);
      }
      var paragraphs := AddBullets(slide.paragraphs, points.value);
      slide := slide.(paragraphs := paragraphs);
      var path := GetOr(entries, "image_path", JNull);
      if Truthy(path) && env.pathExists(path) {
        if env.inserts(path) {
          slide := slide.(pictures := slide.pictures + [Picture(path, PictureLeft, PictureTop, PictureWidth)]);
        }
      }
      assert slide.pictures == PictureOf(entries, env);
      assert slide == DictSlide(entries, points.value, env);
      assert Ok(slide) == SlideFor(item, env);
    case _ =>
      assert Ok(slide) == SlideFor(item, env);
    }
    r := Ok(slide);
  }

  method CreatePresentation(topic: string, slides: Json, filePath: Option<string>, env: Env) returns (r: Result<Saved>)
    ensures r == Create(topic, slides, filePath, env)
  {
    var path := if filePath.None? then DefaultPath(topic) else filePath.value;
    var prs := new Presentation();
    var items := Iterate(slides);
    if items.Err? {
      return Err(items.error);
    }
    var err := AddSlides(prs, items.value, env);
    if err.Some? {
      return Err(err.value);
    }
    var saveError := env.saveError(path);
    if saveError.Some? {
      return Err(saveError.value);
    }
    return Ok(Saved(path, prs.slides));
  }

  /** The loop of utils/presentation_service.py:63-102 over the items: one slide added
      per item, or the first error raised. */
  method AddSlides(prs: Presentation, items: seq<Json>, env: Env) returns (err: Option<string>)
    requires prs.slides == []
    modifies prs
    ensures err.None? <==> SlidesFor(items, env).Ok?
    ensures err.None? ==> prs.slides == SlidesFor(items, env).value
    ensures err.Some? ==> SlidesFor(items, env) == Err(err.value)
  {
    var i := 0;
    while i < |items|
      invariant 0 <= i <= |items|
      invariant SlidesFor(items[..i], env) == Ok(prs.slides)
    {
      var item := items[i];
      assert items[..i + 1][..i] == items[..i];
      var slide := BuildSlide(item, env);
      if slide.Err? {
        assert SlidesFor(items[..i + 1], env) == Err(slide.error);
        PrefixErrorStays(items, i + 1, env);
        assert items[..|items|] == items;
        return Some(slide.error);
      }
      prs.AddSlide(slide.value);
      i := i + 1;
    }
    assert items[..i] == items;
    return None;
  }

  /** Once a prefix fails, every longer prefix fails with the same error. */
  lemma {:induction false} PrefixErrorStays(items: seq<Json>, k: nat, env: Env)
    requires k <= |items| && SlidesFor(items[..k], env).Err?
    ensures SlidesFor(items, env) == SlidesFor(items[..k], env)
    decreases |items| - k
  {
    if k < |items| {
      assert items[..k + 1][..k] == items[..k];
      PrefixErrorStays(items, k + 1, env);
    } else {
      assert items[..k] == items;
    }
  }

  /** The default path is the topic with spaces made underscores, under /tmp, with the
      .pptx extension; it has no space in it. */
  lemma DefaultPathShape(topic: string)
    ensures var path := DefaultPath(topic);
      && |path| == |topic| + 10
      && StartsWith(path, "/tmp/") && EndsWith(path, ".pptx")
      && (forall i :: 0 <= i < |topic| ==> path[5 + i] == (if topic[i] == ' ' then '_' else topic[i]))
      && (forall i :: 0 <= i < |path| ==> path[i] != ' ')
  {
    var path := DefaultPath(topic);
    var middle := ReplaceChar(topic, ' ', '_');
    assert path[..5] == "/tmp/";
    assert path[|path| - 5..] == ".pptx";
    forall i | 0 <= i < |path|
      ensures path[i] != ' '
    {
      if 5 <= i < 5 + |topic| {
        assert path[i] == middle[i - 5];
      }
    }
  }

  /** The path returned is the one saved to: `file_path`, or the default when it is None. */
  lemma ReturnsSavedPath(topic: string, slides: Json, filePath: Option<string>, env: Env)
    requires Create(topic, slides, filePath, env).Ok?
    ensures var path := Create(topic, slides, filePath, env).value.path;
      && (filePath.Some? ==> path == filePath.value)
      && (filePath.None? ==> path == DefaultPath(topic))
      && env.saveError(path).None?
  {
  }

  /** The slides come out exactly when every item's slide does. */
  lemma {:induction false} SlidesOk(items: seq<Json>, env: Env)
    ensures SlidesFor(items, env).Ok? <==> forall i :: 0 <= i < |items| ==> SlideFor(items[i], env).Ok?
    decreases |items|
  {
    if items != [] {
      var n := |items| - 1;
      var front := SlidesFor(items[..n], env);
      SlidesOk(items[..n], env);
      if front.Err? {
        var k :| 0 <= k < n && !SlideFor(items[..n][k], env).Ok?;
        assert items[..n][k] == items[k];
      } else if SlideFor(items[n], env).Ok? {
        forall i | 0 <= i < |items|
          ensures SlideFor(items[i], env).Ok?
        {
          if i < n {
            assert items[..n][i] == items[i];
          }
        }
      }
    }
  }

  /** Each item gives the slide at its own place. */
  lemma {:induction false} SlideAt(items: seq<Json>, env: Env, i: nat)
    requires SlidesFor(items, env).Ok? && i < |items|
    ensures SlideFor(items[i], env).Ok? && SlidesFor(items, env).value[i] == SlideFor(items[i], env).value
    decreases |items|
  {
    var n := |items| - 1;
    var front := SlidesFor(items[..n], env);
    assert front.Ok?;
    var last := SlideFor(items[n], env);
    assert last.Ok?;
    var all := front.value + [last.value];
    assert SlidesFor(items, env).value == all;
    if i < n {
      SlideAt(items[..n], env, i);
      assert items[..n][i] == items[i];
      assert all[i] == front.value[i];
    } else {
      assert all[i] == last.value;
    }
  }

  /** A failing call fails with the error of the first item whose slide fails. */
  lemma {:induction false} FirstFailure(items: seq<Json>, env: Env)
    requires SlidesFor(items, env).Err?
    ensures exists k :: (0 <= k < |items| && SlideFor(items[k], env).Err?
      && SlidesFor(items, env).error == SlideFor(items[k], env).error
      && forall i :: 0 <= i < k ==> SlideFor(items[i], env).Ok?)
    decreases |items|
  {
    var n := |items| - 1;
    var front := SlidesFor(items[..n], env);
    if front.Err? {
      FirstFailure(items[..n], env);
      var k :| 0 <= k < n && SlideFor(items[..n][k], env).Err?
        && front.error == SlideFor(items[..n][k], env).error
        && forall i :: 0 <= i < k ==> SlideFor(items[..n][i], env).Ok?;
      assert items[..n][k] == items[k];
      assert forall i :: 0 <= i < k ==> items[..n][i] == items[i];
      assert SlidesFor(items, env) == front;
    } else {
      SlidesOk(items[..n], env);
      assert forall i :: 0 <= i < n ==> items[..n][i] == items[i];
      assert SlideFor(items[n], env).Err?;
    }
  }

  /** One slide per item of `slides`, in order, including items that are neither a string
      nor a dict. */
  lemma OneSlidePerItem(topic: string, slides: Json, filePath: Option<string>, env: Env)
    requires Create(topic, slides, filePath, env).Ok?
    ensures Iterate(slides).Ok?
    ensures var items := Iterate(slides).value;
      var deck := Create(topic, slides, filePath, env).value.deck;
      |deck| == |items| && forall i :: 0 <= i < |items| ==> Ok(deck[i]) == SlideFor(items[i], env)
  {
    var items := Iterate(slides).value;
    forall i | 0 <= i < |items|
      ensures Ok(Create(topic, slides, filePath, env).value.deck[i]) == SlideFor(items[i], env)
    {
      SlidesOk(items, env);
      SlideAt(items, env, i);
    }
  }

  /** A string item: title "Slide", and the first paragraph holds one 24pt bold run of it. */
  lemma StringSlide(text: string, env: Env)
    ensures var r := SlideFor(JStr(text), env);
      && r.Ok? && r.value.title == Some(JStr("Slide")) && r.value.pictures == []
      && |r.value.paragraphs| == 1
      && r.value.paragraphs[0].runs == [Run(JStr(text), Font(Some(24), true, false, None))]
  {
  }

  /** An item that is neither a string nor a dict: the slide keeps no title and an empty
      text frame. */
  lemma OtherItemBlank(item: Json, env: Env)
    requires !item.JStr? && !item.JDict?
    ensures SlideFor(item, env) == Ok(Slide(None, [Paragraph([], 0, Unset)], []))
  {
  }

  /** A dict item whose `bullet_points` cannot be iterated raises `TypeError`. */
  lemma NonIterableBullets(entries: seq<(string, Json)>, env: Env)
    requires var b := GetOr(entries, "bullet_points", JList([])); !b.JList? && !b.JDict? && !b.JStr?
    ensures SlideFor(JDict(entries), env)
      == Err("'" + TypeName(GetOr(entries, "bullet_points", JList([]))) + "' object is not iterable")
  {
  }

  /** A dict item's title is its "title" value, or "Untitled" when the key is absent. */
  lemma DictTitle(entries: seq<(string, Json)>, points: seq<Json>, env: Env)
    ensures DictSlide(entries, points, env).title
      == Some(if "title" in Keys(entries) then Lookup(entries, "title").value else JStr("Untitled"))
  {
  }

  /** The subtitle paragraph, 18pt italic grey, exactly when the key is present. */
  lemma SubtitleRule(entries: seq<(string, Json)>)
    ensures var sub := SubtitleParagraphs(entries);
      && |sub| == (if "subtitle" in Keys(entries) then 1 else 0)
      && (sub != [] ==>
            sub[0] == Paragraph([Run(Lookup(entries, "subtitle").value, Font(Some(18), false, true, Some((100, 100, 100))))], 0, Unset))
  {
  }

  /** The text frame of a dict item: the empty paragraph `clear()` leaves, the subtitle
      paragraphs before the bullets, then one level-0, 20pt paragraph per bullet, in order. */
  lemma {:induction false} DictParagraphs(entries: seq<(string, Json)>, points: seq<Json>, env: Env)
    ensures var ps := DictSlide(entries, points, env).paragraphs;
      var sub := SubtitleParagraphs(entries);
      && |ps| == 1 + |sub| + |points|
      && ps[0] == Paragraph([], 0, Unset)
      && ps[1..1 + |sub|] == sub
      && (forall i :: 0 <= i < |points| ==>
            ps[1 + |sub| + i].runs == [Run(points[i], Unset)] && ps[1 + |sub| + i].level == 0
            && ps[1 + |sub| + i].font.size == Some(20))
  {
    FrameLayout(SubtitleParagraphs(entries), points);
  }

  /** The paragraphs of a frame holding `sub` and then the bullets of `points`. */
  lemma {:induction false} FrameLayout(sub: seq<Paragraph>, points: seq<Json>)
    ensures var ps := [EmptyParagraph] + sub + Bullets(points);
      && |ps| == 1 + |sub| + |points|
      && ps[0] == Paragraph([], 0, Unset)
      && ps[1..1 + |sub|] == sub
      && (forall i :: 0 <= i < |points| ==>
            ps[1 + |sub| + i].runs == [Run(points[i], Unset)] && ps[1 + |sub| + i].level == 0
            && ps[1 + |sub| + i].font.size == Some(20))
  {
    var bs := Bullets(points);
    Layout(EmptyParagraph, sub, bs);
    var ps := [EmptyParagraph] + sub + bs;
    forall i | 0 <= i < |points|
      ensures ps[1 + |sub| + i] == Bullet(points[i])
    {
      assert ps[1 + |sub| + i] == bs[i];
    }
  }

  /** Where the parts of `[first] + sub + rest` sit. */
  lemma {:induction false} Layout(first: Paragraph, sub: seq<Paragraph>, rest: seq<Paragraph>)
    ensures var ps := [first] + sub + rest;
      && |ps| == 1 + |sub| + |rest|
      && ps[0] == first
      && ps[1..1 + |sub|] == sub
      && forall i :: 0 <= i < |rest| ==> ps[1 + |sub| + i] == rest[i]
  {
    var ps := [first] + sub + rest;
    assert ps[1..1 + |sub|] == sub;
  }

  /** The bullets of a dict item are those its `bullet_points` iterates over: none when the
      key is missing, the items of a list. */
  lemma DictBullets(entries: seq<(string, Json)>, env: Env)
    requires Iterate(GetOr(entries, "bullet_points", JList([]))).Ok?
    ensures var points := Iterate(GetOr(entries, "bullet_points", JList([]))).value;
      && SlideFor(JDict(entries), env) == Ok(DictSlide(entries, points, env))
      && ("bullet_points" !in Keys(entries) ==> points == [])
      && (Lookup(entries, "bullet_points").Some? && Lookup(entries, "bullet_points").value.JList? ==>
            points == Lookup(entries, "bullet_points").value.items)
  {
    var b := GetOr(entries, "bullet_points", JList([]));
    var points := Iterate(b).value;
    assert SlideFor(JDict(entries), env) == Ok(DictSlide(entries, points, env));
    if Lookup(entries, "bullet_points").None? {
      assert b == JList([]);
    } else {
      assert b == Lookup(entries, "bullet_points").value;
    }
  }

  /** A picture, 5.5in from the left, 1.5in from the top and 4.5in wide, exactly when
      `image_path` is truthy, exists and inserts; a failed insertion adds nothing and
      raises nothing. */
  lemma PictureRule(entries: seq<(string, Json)>, env: Env)
    ensures var pictures := PictureOf(entries, env);
      var path := GetOr(entries, "image_path", JNull);
      && (pictures != [] <==> Truthy(path) && env.pathExists(path) && env.inserts(path))
      && (pictures != [] ==> pictures == [Picture(path, 5029200, 1371600, 4114800)])
  {
  }
}
