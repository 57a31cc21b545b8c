/** `generate_presentation_from_topic` (agents/presentation_agent.py:78-125): ask the model
    for slides as JSON, attach a Wikimedia image to every slide that asks for one, build
    and upload the deck, delete the downloaded images and answer with a status dict. The
    model, the parser, the web, the deck's filesystem and the upload are services passed
    in; every call made to them is recorded in a trace. */
module PresentationAgent {
  import opened Results
  import opened PyText
  import opened Fences
  import opened Json
  import Keywords
  import ImageSearch
  import Deck

  /** `build_presentation_prompt(topic)` (agents/presentation_agent.py:40-57). */
  function BuildPresentationPrompt(topic: string): string {
    PromptHead + topic + PromptTail
  }

  const PromptHead := "\nCreate a well-structured presentation on the topic: \""

  /** The text after the topic, line by line. */
  const PromptTailLines := [
    "\". ",
    "Respond in JSON format with a list of slides. Each slide should contain:",
    "- \"title\": the slide title",
    "- \"bullet_points\": a list of 3-6 concise bullet points",
    "- \"image_prompt\": a short phrase describing an image relevant to the slide",
    "",
    "Example:",
    "[",
    "  {",
    "    \"title\": \"Introduction\",",
    "    \"bullet_points\": [\"Definition\", \"Importance\", \"Brief history\"],",
    "    \"image_prompt\": \"A timeline showing key historical events\"",
    "  }",
    "]",
    "Only return the JSON. No extra explanations or ```json.",
    ""]

  const PromptTail := Join("\n", PromptTailLines)

  /** The topic is quoted verbatim in the prompt, so it can be read back from it. */
  lemma PromptQuotesTopic(topic: string, other: string)
    ensures var p := BuildPresentationPrompt(topic);
      && StartsWith(p, PromptHead) && EndsWith(p, PromptTail)
      && p[|PromptHead|..|p| - |PromptTail|] == topic
    ensures BuildPresentationPrompt(topic) == BuildPresentationPrompt(other) ==> topic == other
  {
    var p := BuildPresentationPrompt(topic);
    assert p[..|PromptHead|] == PromptHead;
    assert p[|p| - |PromptTail|..] == PromptTail;
    assert p[|PromptHead|..|p| - |PromptTail|] == topic;
    var q := BuildPresentationPrompt(other);
    if p == q {
      assert q[|PromptHead|..|q| - |PromptTail|] == other;
    }
  }

  const ImageDir := "/home/pranav/PycharmProjects/BrainBox/img"

  /** `os.path.join(a, b)` on POSIX: an absolute `b` replaces `a`. */
  function PathJoin(a: string, b: string): string {
    if StartsWith(b, "/") then b
    else if a == [] || EndsWith(a, "/") then a + b
    else a + "/" + b
  }

  /** The file name of slide `i`'s image. */
  function ImageName(i: nat): string {
    "slide_image_" + NatToString(i) + ".jpg"
  }

  /** Where slide `i`'s image is saved (agents/presentation_agent.py:97). */
  function ImagePath(i: nat): string {
    PathJoin(ImageDir, ImageName(i))
  }

  /** Different slides save their images at different paths. */
  lemma ImagePathsDistinct(i: nat, j: nat)
    ensures ImagePath(i) == ImagePath(j) ==> i == j
  {
    if ImagePath(i) == ImagePath(j) {
      ImagePathForm(i);
      ImagePathForm(j);
      PrefixCancel(ImageDir + "/", ImageName(i), ImageName(j));
      ImageNameInjective(i, j);
    }
  }

  /** The image directory has no trailing separator and the name no leading one, so
      `os.path.join` puts one "/" between them. */
  lemma ImagePathForm(i: nat)
    ensures ImagePath(i) == ImageDir + "/" + ImageName(i)
  {
    var name := ImageName(i);
    assert name[0] == 's';
    assert !StartsWith(name, "/") by { assert name[..1][0] == 's'; }
    assert !EndsWith(ImageDir, "/") by {
      assert ImageDir[|ImageDir| - 1] == 'g';
    }
  }

  lemma ImageNameInjective(i: nat, j: nat)
    requires ImageName(i) == ImageName(j)
    ensures i == j
  {
    var pi, pj := ImageName(i), ImageName(j);
    assert pi[12..|pi| - 4] == NatToString(i);
    assert pj[12..|pj| - 4] == NatToString(j);
    NatToStringInjective(i, j);
  }

  lemma PrefixCancel(p: string, x: string, y: string)
    requires p + x == p + y
    ensures x == y
  {
    assert x == (p + x)[|p|..];
    assert y == (p + y)[|p|..];
  }

  /** The name the deck is saved under and uploaded as. */
  function FileStem(topic: string): string {
    ReplaceChar(topic, ' ', '_')
  }

  /** `os.path.join("/tmp", f"{topic.replace(' ', '_')}.pptx")` (agents/presentation_agent.py:105-106). */
  function LocalPath(topic: string): string {
    PathJoin("/tmp", FileStem(topic) + ".pptx")
  }

  /** The path is the deck service's own default unless the topic starts with "/", in
      which case `os.path.join` drops "/tmp" and the topic names the path itself. */
  lemma LocalPathShape(topic: string)
    ensures topic == [] || topic[0] != '/' ==> LocalPath(topic) == Deck.DefaultPath(topic)
    ensures topic != [] && topic[0] == '/' ==> LocalPath(topic) == FileStem(topic) + ".pptx"
  {
    var name := FileStem(topic) + ".pptx";
    if topic != [] {
      assert name[0] == FileStem(topic)[0];
    }
    if topic == [] || topic[0] != '/' {
      assert name[0] != '/';
      assert !StartsWith(name, "/");
      assert !EndsWith("/tmp", "/") by {
        assert "/tmp"[3..] == "p";
      }
      assert LocalPath(topic) == "/tmp" + "/" + name;
      assert "/tmp" + "/" + name == "/tmp/" + name;
    } else {
      assert StartsWith(name, "/") by {
        assert name[..1] == [name[0]];
      }
    }
  }

  /** The calls the agent makes to the outside world, in order. */
  datatype Step =
    | MakeDirs(dir: string)
    | AskModel(prompt: string)
    | FetchImage(query: string, path: string)
    | Build(path: string)
    | Upload(path: string, publicId: string)
    | Remove(file: Json)
    | RemoveDir(dir: string)

  /** The services: `os.makedirs` and `os.rmdir` (their errors), the model, `json.loads`,
      the image web, the deck's filesystem and the upload, which answers
      `(secure_url, public_id)` or `None`. */
  datatype Services = Services(
    makedirsError: Option<string>,
    ask: string -> Result<string>,
    parse: string -> Result<Json>,
    web: ImageSearch.Web,
    deck: Deck.Env,
    upload: (string, string) -> Option<(string, string)>,
    rmdirError: Option<string>)

  /** Whether `image_search.fetch_image(query, path)` returns without raising. */
  function Fetched(web: ImageSearch.Web): (string, string) -> bool {
    (query: string, path: string) => ImageSearch.Fetch(query, path, web).outcome.Ok?
  }

  /** The body of the loop of agents/presentation_agent.py:91-103 for slide `i`: the slide
      as it is after the step, or the error it raises, and the fetch it makes; `fetched`
      says which fetches succeed. */
  function AttachOne(i: nat, item: Json, fetched: (string, string) -> bool): (Result<Json>, seq<Step>) {
    match item
    case JDict(entries) =>
      var prompt := GetOr(entries, "image_prompt", JNull);
      if !Truthy(prompt) then (Ok(item), [])
      else if !prompt.JStr? then (Err(NoAttribute(prompt, "lower")), [])
      else
        var query := Keywords.Simplify(prompt.s);
        var path := ImagePath(i);
        (Ok(JDict(Assign(entries, "image_path", if fetched(query, path) then JStr(path) else JNull))), [FetchImage(query, path)])
    case _ => (Err(NoAttribute(item, "get")), [])
  }

  datatype Attached = Attached(result: Result<seq<Json>>, steps: seq<Step>)

  /** The whole loop: the slides after it, or the first error, and the fetches made. */
  function AttachAll(items: seq<Json>, fetched: (string, string) -> bool): (r: Attached)
    ensures r.result.Ok? ==> |r.result.value| == |items|
    decreases |items|
  {
    if items == [] then Attached(Ok([]), [])
    else
      var front := AttachAll(items[..|items| - 1], fetched);
      if front.result.Err? then front
      else
        var one := AttachOne(|items| - 1, items[|items| - 1], fetched);
        match one.0
        case Err(e) => Attached(Err(e), front.steps + one.1)
        case Ok(v) => Attached(Ok(front.result.value + [v]), front.steps + one.1)
  }

  /** Once a prefix of the slides fails, the loop stops there. */
  lemma {:induction false} AttachErrorStays(items: seq<Json>, k: nat, fetched: (string, string) -> bool)
    requires k <= |items| && AttachAll(items[..k], fetched).result.Err?
    ensures AttachAll(items, fetched) == AttachAll(items[..k], fetched)
    decreases |items| - k
  {
    if k < |items| {
      assert items[..k + 1][..k] == items[..k];
      AttachErrorStays(items, k + 1, fetched);
    } else {
      assert items[..k] == items;
    }
  }

  /** One more slide through the loop, when the ones before it went through. */
  lemma AttachStep(items: seq<Json>, i: nat, fetched: (string, string) -> bool)
    requires i < |items| && AttachAll(items[..i], fetched).result.Ok?
    ensures var front := AttachAll(items[..i], fetched);
      var one := AttachOne(i, items[i], fetched);
      AttachAll(items[..i + 1], fetched)
        == (if one.0.Err? then Attached(Err(one.0.error), front.steps + one.1)
            else Attached(Ok(front.result.value + [one.0.value]), front.steps + one.1))
  {
    assert items[..i + 1][..i] == items[..i];
    assert items[..i + 1][i] == items[i];
  }

  /** The body of the loop of agents/presentation_agent.py:91-103 for slide `i`. */
  method AttachSlide(i: nat, item: Json, web: ImageSearch.Web) returns (r: Result<Json>, fetch: seq<Step>)
    ensures (r, fetch) == AttachOne(i, item, Fetched(web))
  {
    if !item.JDict? {
      return Err(NoAttribute(item, "get")), [];
    }
    var prompt := GetOr(item.entries, "image_prompt", JNull);
    if !Truthy(prompt) {
      return Ok(item), [];
    }
    if !prompt.JStr? {
      return Err(NoAttribute(prompt, "lower")), [];
    }
    var query := Keywords.Simplify(prompt.s);
    var path := ImagePath(i);
    var outcome, _, _ := ImageSearch.FetchImage(query, path, web);
    r := Ok(JDict(Assign(item.entries, "image_path", if outcome.Ok? then JStr(path) else JNull)));
    fetch := [FetchImage(query, path)];
  }

  /** The loop of agents/presentation_agent.py:91-103, updating the slides in place. */
  method AttachImages(cards: array<Json>, web: ImageSearch.Web) returns (err: Option<string>, steps: seq<Step>)
    modifies cards
    ensures var a := AttachAll(old(cards[..]), Fetched(web));
      && steps == a.steps
      && (err.None? <==> a.result.Ok?)
      && (err.Some? ==> a.result == Err(err.value))
      && (err.None? ==> cards[..] == a.result.value)
  {
    ghost var items := cards[..];
    steps := [];
    var i := 0;
    while i < cards.Length
      invariant 0 <= i <= cards.Length
      invariant AttachAll(items[..i], Fetched(web)) == Attached(Ok(cards[..i]), steps)
      invariant cards[i..] == items[i..]
    {
      var item := cards[i];
      assert item == items[i];
      AttachStep(items, i, Fetched(web));
      var r, fetch := AttachSlide(i, item, web);
      steps := steps + fetch;
      if r.Err? {
        err := Some(r.error);
        AttachErrorStays(items, i + 1, Fetched(web));
        return;
      }
      ghost var done := cards[..i];
      cards[i] := r.value;
      assert cards[..i + 1] == done + [r.value];
      assert cards[i + 1..] == items[i + 1..];
      i := i + 1;
    }
    err := None;
    assert items[..i] == items;
    assert cards[..i] == cards[..];
  }

  /** What the cleanup loop of agents/presentation_agent.py:111-114 removes for one slide. */
  function RemovalOf(item: Json, pathExists: Json -> bool): seq<Step> {
    if item.JDict? then
      var path := GetOr(item.entries, "image_path", JNull);
      if Truthy(path) && pathExists(path) then [Remove(path)] else []
    else []
  }

  function Removals(items: seq<Json>, pathExists: Json -> bool): seq<Step>
    decreases |items|
  {
    if items == [] then [] else Removals(items[..|items| - 1], pathExists) + RemovalOf(items[|items| - 1], pathExists)
  }

  method RemoveImages(cards: array<Json>, pathExists: Json -> bool) returns (steps: seq<Step>)
    ensures steps == Removals(cards[..], pathExists)
  {
    steps := [];
    var i := 0;
    while i < cards.Length
      invariant 0 <= i <= cards.Length
      invariant steps == Removals(cards[..i], pathExists)
    {
      assert cards[..i + 1][..i] == cards[..i];
      var item := cards[i];
      if item.JDict? {
        var path := GetOr(item.entries, "image_path", JNull);
        if Truthy(path) && pathExists(path) {
          steps := steps + [Remove(path)];
        }
      }
      i := i + 1;
    }
    assert cards[..i] == cards[..];
  }

  /** The success payload: the slides as updated and the uploaded deck's URL. */
  datatype Published = Published(slides: Json, url: string)

  datatype Trace = Trace(result: Result<Published>, steps: seq<Step>)

  const UnpackNone := "cannot unpack non-iterable NoneType object"

  /** The slides value after the loop: a list holds the updated slides; any other value
      reaches this point only when it iterates over nothing, and is unchanged. */
  function AfterLoop(slides: Json, updated: seq<Json>): Json {
    if slides.JList? then JList(updated) else slides
  }

  /** agents/presentation_agent.py:105-115, once the slides are updated. */
  function Publish(topic: string, slides: Json, updated: seq<Json>, services: Services): Trace {
    var local := LocalPath(topic);
    var stem := FileStem(topic);
    var final := AfterLoop(slides, updated);
    match Deck.Create(topic, final, Some(local), services.deck)
    case Err(e) => Trace(Err(e), [Build(local)])
    case Ok(_) => Uploaded(local, stem, final, updated, services)
  }

  /** agents/presentation_agent.py:108-115, once the deck is saved at `local`. */
  function Uploaded(local: string, stem: string, final: Json, updated: seq<Json>, services: Services): Trace {
    match services.upload(local, stem)
    case None => Trace(Err(UnpackNone), [Build(local), Upload(local, stem)])
    case Some(answer) =>
      var cleanup := [Build(local), Upload(local, stem)] + Removals(updated, services.deck.pathExists) + [RemoveDir(ImageDir)];
      match services.rmdirError
      case Some(e) => Trace(Err(e), cleanup)
      case None => Trace(Ok(Published(final, answer.0)), cleanup)
  }

  /** The body of the `try` of agents/presentation_agent.py:82-122, `prompt` being the
      prompt built for `topic`. */
  function Pipeline(topic: string, prompt: string, services: Services): Trace {
    if services.makedirsError.Some? then Trace(Err(services.makedirsError.value), [MakeDirs(ImageDir)])
    else
      var rest := Answered(topic, services.ask(prompt), services);
      Trace(rest.result, [MakeDirs(ImageDir), AskModel(prompt)] + rest.steps)
  }

  /** agents/presentation_agent.py:88-115, once the model has answered (or raised). */
  function Answered(topic: string, answer: Result<string>, services: Services): Trace {
    match answer
    case Err(e) => Trace(Err(e), [])
    case Ok(text) =>
      match services.parse(StripJsonFence(text))
      case Err(e) => Trace(Err(e), [])
      case Ok(slides) =>
        match Iterate(slides)
        case Err(e) => Trace(Err(e), [])
        case Ok(items) =>
          var a := AttachAll(items, Fetched(services.web));
          match a.result
          case Err(e) => Trace(Err(e), a.steps)
          case Ok(updated) =>
            var p := Publish(topic, slides, updated, services);
            Trace(p.result, a.steps + p.steps)
  }

  function ErrorReply(message: string): Json {
    JDict([("status", JStr("error")), ("error", JStr(message))])
  }

  function SuccessReply(topic: string, p: Published): Json {
    JDict([("status", JStr("success")), ("topic", JStr(topic)), ("slides", p.slides), ("presentation_url", JStr(p.url))])
  }

  /** What `generate_presentation_from_topic(topic)` returns, and the calls it makes. */
  function Generate(topic: string, services: Services): (Json, seq<Step>) {
    if topic == [] then (ErrorReply("Topic is required"), [])
    else
      var t := Pipeline(topic, BuildPresentationPrompt(topic), services);
      (Reply(topic, t), t.steps)
  }

  function Reply(topic: string, t: Trace): Json {
    match t.result
    case Err(e) => ErrorReply(e)
    case Ok(p) => SuccessReply(topic, p)
  }

  method PublishDeck(topic: string, slides: Json, cards: array<Json>, services: Services) returns (t: Trace)
    ensures t == Publish(topic, slides, cards[..], services)
  {
    var local := LocalPath(topic);
    var stem := FileStem(topic);
    var final := if slides.JList? then JList(cards[..]) else slides;
    var built := Deck.CreatePresentation(topic, final, Some(local), services.deck);
    if built.Err? {
      return Trace(Err(built.error), [Build(local)]);
    }
    t := UploadDeck(local, stem, final, cards, services);
  }

  method UploadDeck(local: string, stem: string, final: Json, cards: array<Json>, services: Services) returns (t: Trace)
    ensures t == Uploaded(local, stem, final, cards[..], services)
  {
    var steps := [Build(local), Upload(local, stem)];
    var answer := services.upload(local, stem);
    if answer.None? {
      return Trace(Err(UnpackNone), steps);
    }
    var removed := RemoveImages(cards, services.deck.pathExists);
    steps := steps + removed + [RemoveDir(ImageDir)];
    if services.rmdirError.Some? {
      return Trace(Err(services.rmdirError.value), steps);
    }
    return Trace(Ok(Published(final, answer.value.0)), steps);
  }

  method RunPipeline(topic: string, prompt: string, services: Services) returns (t: Trace)
    ensures t == Pipeline(topic, prompt, services)
  {
    if services.makedirsError.Some? {
      return Trace(Err(services.makedirsError.value), [MakeDirs(ImageDir)]);
    }
    var text := services.ask(prompt);
    var rest := HandleAnswer(topic, text, services);
    return Trace(rest.result, [MakeDirs(ImageDir), AskModel(prompt)] + rest.steps);
  }

  method HandleAnswer(topic: string, answer: Result<string>, services: Services) returns (t: Trace)
    ensures t == Answered(topic, answer, services)
  {
    if answer.Err? {
      return Trace(Err(answer.error), []);
    }
    var slides := services.parse(StripJsonFence(answer.value));
    if slides.Err? {
      return Trace(Err(slides.error), []);
    }
    var items := Iterate(slides.value);
    if items.Err? {
      return Trace(Err(items.error), []);
    }
    var cards := new Json[|items.value|](i requires 0 <= i < |items.value| => items.value[i]);
    assert cards[..] == items.value;
    var err, fetched := AttachImages(cards, services.web);
    if err.Some? {
      return Trace(Err(err.value), fetched);
    }
    var p := PublishDeck(topic, slides.value, cards, services);
    return Trace(p.result, fetched + p.steps);
  }

  method GeneratePresentationFromTopic(topic: string, services: Services) returns (reply: Json, steps: seq<Step>)
    ensures (reply, steps) == Generate(topic, services)
  {
    if topic == [] {
      return ErrorReply("Topic is required"), [];
    }
    var t := RunPipeline(topic, BuildPresentationPrompt(topic), services);
    reply, steps := Reply(topic, t), t.steps;
  }

  /** An empty topic is refused before any call to the outside world. */
  lemma EmptyTopicRefused(services: Services)
    ensures Generate("", services) == (JDict([("status", JStr("error")), ("error", JStr("Topic is required"))]), [])
  {
  }

  /** The reply is a status dict: "success" exactly when the run succeeded, with the topic,
      the updated slides and the deck's URL, and otherwise "error" with the message. */
  lemma ReplyRecords(topic: string, t: Trace)
    ensures var reply := Reply(topic, t);
      && reply.JDict? && Keys(reply.entries)[0] == "status"
      && (Lookup(reply.entries, "status") == Some(JStr("success")) <==> t.result.Ok?)
      && (t.result.Ok? ==>
            && Lookup(reply.entries, "topic") == Some(JStr(topic))
            && Lookup(reply.entries, "slides") == Some(t.result.value.slides)
            && Lookup(reply.entries, "presentation_url") == Some(JStr(t.result.value.url)))
      && (t.result.Err? ==>
            && Lookup(reply.entries, "status") == Some(JStr("error"))
            && Lookup(reply.entries, "error") == Some(JStr(t.result.error)))
  {
    if t.result.Ok? {
      var e := Reply(topic, t).entries;
      var e1, e2, e3 := e[1..], e[2..], e[3..];
      assert e2 == e1[1..] && e3 == e2[1..];
      assert e3 == [("presentation_url", JStr(t.result.value.url))];
      assert Lookup(e2, "slides") == Some(t.result.value.slides);
      assert Lookup(e1, "slides") == Lookup(e2, "slides");
      assert Lookup(e2, "presentation_url") == Lookup(e3, "presentation_url");
      assert Lookup(e1, "presentation_url") == Lookup(e2, "presentation_url");
    }
  }

  /** The directory is made first and the model asked second with the prompt; a failure of
      either, of the parse or of the iteration ends the run with no further call. */
  lemma PipelineStartsWith(topic: string, prompt: string, services: Services)
    ensures var t := Pipeline(topic, prompt, services);
      && t.steps != [] && t.steps[0] == MakeDirs(ImageDir)
      && (services.makedirsError.Some? ==> t == Trace(Err(services.makedirsError.value), [MakeDirs(ImageDir)]))
      && (services.makedirsError.None? ==> |t.steps| >= 2 && t.steps[1] == AskModel(prompt))
      && (services.makedirsError.None? && services.ask(prompt).Err? ==>
            t == Trace(Err(services.ask(prompt).error), [MakeDirs(ImageDir), AskModel(prompt)]))
  {
  }

  /** When a slide stops the loop: it is not a dict (`.get`), or its prompt is truthy but
      not a string (`.lower()`). A failed fetch never does. A dict whose prompt is missing
      or falsy is left exactly as it was, so an `image_path` the model supplied stays. */
  lemma AttachOneCases(i: nat, item: Json, fetched: (string, string) -> bool)
    ensures AttachOne(i, item, fetched).0.Err? <==>
      !item.JDict? || (var p := GetOr(item.entries, "image_prompt", JNull); Truthy(p) && !p.JStr?)
    ensures !item.JDict? ==> AttachOne(i, item, fetched) == (Err(NoAttribute(item, "get")), [])
    ensures item.JDict? && Truthy(GetOr(item.entries, "image_prompt", JNull)) && !GetOr(item.entries, "image_prompt", JNull).JStr? ==>
      AttachOne(i, item, fetched) == (Err(NoAttribute(GetOr(item.entries, "image_prompt", JNull), "lower")), [])
    ensures item.JDict? && !Truthy(GetOr(item.entries, "image_prompt", JNull)) ==> AttachOne(i, item, fetched) == (Ok(item), [])
  {
  }

  /** A slide with a string prompt is fetched once, for the prompt's keywords and at the
      slide's own path; afterwards `image_path` is that path when the fetch succeeded and
      `None` when it failed, every other field reads as before, and the keys keep their
      order with `image_path` added last if it was new. */
  lemma AttachOneFetch(i: nat, item: Json, fetched: (string, string) -> bool, key: string)
    requires item.JDict?
    requires GetOr(item.entries, "image_prompt", JNull).JStr? && GetOr(item.entries, "image_prompt", JNull).s != []
    ensures var query := Keywords.Simplify(GetOr(item.entries, "image_prompt", JNull).s);
      AttachOne(i, item, fetched).1 == [FetchImage(query, ImagePath(i))]
    ensures var query := Keywords.Simplify(GetOr(item.entries, "image_prompt", JNull).s);
      var r := AttachOne(i, item, fetched).0;
      && r.Ok? && r.value.JDict?
      && Lookup(r.value.entries, "image_path") == Some(if fetched(query, ImagePath(i)) then JStr(ImagePath(i)) else JNull)
      && (key != "image_path" ==> Lookup(r.value.entries, key) == Lookup(item.entries, key))
      && Keys(r.value.entries) == (if "image_path" in Keys(item.entries) then Keys(item.entries) else Keys(item.entries) + ["image_path"])
  {
    var prompt := GetOr(item.entries, "image_prompt", JNull);
    assert Truthy(prompt);
    var query := Keywords.Simplify(prompt.s);
    var v := if fetched(query, ImagePath(i)) then JStr(ImagePath(i)) else JNull;
    assert AttachOne(i, item, fetched) == (Ok(JDict(Assign(item.entries, "image_path", v))), [FetchImage(query, ImagePath(i))]);
    AssignImagePath(item.entries, v, key);
  }

  lemma AssignImagePath(entries: seq<(string, Json)>, v: Json, key: string)
    ensures Lookup(Assign(entries, "image_path", v), "image_path") == Some(v)
    ensures key != "image_path" ==> Lookup(Assign(entries, "image_path", v), key) == Lookup(entries, key)
    ensures Keys(Assign(entries, "image_path", v)) == (if "image_path" in Keys(entries) then Keys(entries) else Keys(entries) + ["image_path"])
  {
    LookupAssign(entries, "image_path", v, key);
    KeysAssign(entries, "image_path", v);
  }

  /** A slide the loop gets past: a dict whose `image_prompt` is falsy or a string. */
  predicate Attachable(item: Json) {
    item.JDict? && (var p := GetOr(item.entries, "image_prompt", JNull); !Truthy(p) || p.JStr?)
  }

  /** The loop succeeds exactly when every slide is attachable; a failed fetch never stops
      it. */
  lemma {:induction false} AttachAllOk(items: seq<Json>, fetched: (string, string) -> bool)
    ensures AttachAll(items, fetched).result.Ok? <==> forall k :: 0 <= k < |items| ==> Attachable(items[k])
    decreases |items|
  {
    if items != [] {
      var n := |items| - 1;
      var front := AttachAll(items[..n], fetched);
      AttachAllOk(items[..n], fetched);
      AttachOneCases(n, items[n], fetched);
      if front.result.Err? {
        var k :| 0 <= k < n && !Attachable(items[..n][k]);
        assert items[..n][k] == items[k];
      } else if AttachOne(n, items[n], fetched).0.Ok? {
        forall k | 0 <= k < |items|
          ensures Attachable(items[k])
        {
          if k < n {
            assert items[..n][k] == items[k];
          }
        }
      }
    }
  }

  /** After a successful loop, slide `k` is what its own step made of it, `k` being its
      index in the whole list. */
  lemma {:induction false} AttachAllEach(items: seq<Json>, fetched: (string, string) -> bool, k: nat)
    requires AttachAll(items, fetched).result.Ok? && k < |items|
    ensures AttachOne(k, items[k], fetched).0 == Ok(AttachAll(items, fetched).result.value[k])
    decreases |items|
  {
    var n := |items| - 1;
    var front := AttachAll(items[..n], fetched);
    assert front.result.Ok?;
    var one := AttachOne(n, items[n], fetched).0;
    assert one.Ok?;
    var all := front.result.value + [one.value];
    assert AttachAll(items, fetched).result.value == all;
    if k < n {
      AttachAllEach(items[..n], fetched, k);
      assert items[..n][k] == items[k];
      assert all[k] == front.result.value[k];
    } else {
      assert all[k] == one.value;
    }
  }

  /** Each slide makes at most one fetch, and every fetch saves at some slide's own path. */
  lemma {:induction false} AttachFetches(items: seq<Json>, fetched: (string, string) -> bool)
    ensures var s := AttachAll(items, fetched).steps;
      && |s| <= |items|
      && forall j :: 0 <= j < |s| ==> s[j].FetchImage? && exists k :: 0 <= k < |items| && s[j].path == ImagePath(k)
    decreases |items|
  {
    if items != [] {
      var n := |items| - 1;
      AttachFetches(items[..n], fetched);
      var front := AttachAll(items[..n], fetched);
      if front.result.Ok? {
        var one := AttachOne(n, items[n], fetched);
        var s := front.steps + one.1;
        forall j | 0 <= j < |s|
          ensures s[j].FetchImage? && exists k :: 0 <= k < |items| && s[j].path == ImagePath(k)
        {
          if j >= |front.steps| {
            assert s[j].path == ImagePath(n);
          }
        }
      }
    }
  }

  /** The image path a slide names, if it is one the cleanup removes. */
  predicate Removable(item: Json, pathExists: Json -> bool) {
    item.JDict? && Truthy(GetOr(item.entries, "image_path", JNull)) && pathExists(GetOr(item.entries, "image_path", JNull))
  }

  /** Cleanup removes at most one path per slide, and only paths that are truthy and
      exist. */
  lemma {:induction false} RemovalsSound(items: seq<Json>, pathExists: Json -> bool)
    ensures var r := Removals(items, pathExists);
      && |r| <= |items|
      && forall j :: 0 <= j < |r| ==> r[j].Remove? && Truthy(r[j].file) && pathExists(r[j].file)
    decreases |items|
  {
    if items != [] {
      var n := |items| - 1;
      RemovalsSound(items[..n], pathExists);
      var front, last := Removals(items[..n], pathExists), RemovalOf(items[n], pathExists);
      assert Removals(items, pathExists) == front + last;
      assert forall j :: |front| <= j < |front + last| ==> (front + last)[j] == last[j - |front|];
    }
  }

  /** Cleanup removes the image path of every slide that names an existing one. */
  lemma {:induction false} RemovalsComplete(items: seq<Json>, pathExists: Json -> bool, k: nat)
    requires k < |items| && Removable(items[k], pathExists)
    ensures Remove(GetOr(items[k].entries, "image_path", JNull)) in Removals(items, pathExists)
    decreases |items|
  {
    var n := |items| - 1;
    var front, last := Removals(items[..n], pathExists), RemovalOf(items[n], pathExists);
    assert Removals(items, pathExists) == front + last;
    if k < n {
      assert items[..n][k] == items[k];
      RemovalsComplete(items[..n], pathExists, k);
    } else {
      assert last == [Remove(GetOr(items[k].entries, "image_path", JNull))];
    }
  }

  /** The deck is saved at the local path first and uploaded under the underscored topic
      next; a failed save stops before the upload, an upload that answers `None` stops
      before any cleanup with the unpacking error, and on success the images and then the
      directory are removed after the upload. */
  lemma PublishOrder(topic: string, slides: Json, updated: seq<Json>, services: Services)
    ensures var t := Publish(topic, slides, updated, services);
      var local, stem := LocalPath(topic), FileStem(topic);
      var built := Deck.Create(topic, AfterLoop(slides, updated), Some(local), services.deck);
      && t.steps != [] && t.steps[0] == Build(local)
      && (built.Err? ==> t == Trace(Err(built.error), [Build(local)]))
      && (built.Ok? ==> |t.steps| >= 2 && t.steps[1] == Upload(local, stem))
      && (built.Ok? && services.upload(local, stem).None? ==> t == Trace(Err(UnpackNone), [Build(local), Upload(local, stem)]))
      && (t.result.Ok? ==>
            && built.Ok? && services.upload(local, stem).Some?
            && t.result.value == Published(AfterLoop(slides, updated), services.upload(local, stem).value.0)
            && t.steps == [Build(local), Upload(local, stem)] + Removals(updated, services.deck.pathExists) + [RemoveDir(ImageDir)])
  {
    var t := Publish(topic, slides, updated, services);
    var local, stem := LocalPath(topic), FileStem(topic);
    if Deck.Create(topic, AfterLoop(slides, updated), Some(local), services.deck).Ok? {
      assert t.steps[..2] == [Build(local), Upload(local, stem)];
    }
  }

  /** No image file and no directory is removed. */
  predicate NoCleanup(steps: seq<Step>) {
    forall j :: 0 <= j < |steps| ==> !steps[j].Remove? && !steps[j].RemoveDir?
  }

  /** What a failed run leaves behind: nothing was removed, or the failure is that of
      `os.rmdir` itself, the last step, after the image files were removed. */
  predicate CleanupSkipped(steps: seq<Step>, services: Services) {
    || NoCleanup(steps)
    || (services.rmdirError.Some? && |steps| > 0 && steps[|steps| - 1] == RemoveDir(ImageDir))
  }

  lemma CleanupSkippedConcat(a: seq<Step>, b: seq<Step>, services: Services)
    requires NoCleanup(a) && CleanupSkipped(b, services)
    ensures CleanupSkipped(a + b, services)
  {
    if NoCleanup(b) {
      assert forall j :: |a| <= j < |a + b| ==> (a + b)[j] == b[j - |a|];
    } else {
      assert (a + b)[|a + b| - 1] == b[|b| - 1];
    }
  }

  /** A failed publish removes nothing, unless it is `os.rmdir` that failed. */
  lemma PublishErrorSkipsCleanup(topic: string, slides: Json, updated: seq<Json>, services: Services)
    ensures var p := Publish(topic, slides, updated, services);
      p.result.Err? ==> CleanupSkipped(p.steps, services)
  {
  }

  /** Every failure except that of `os.rmdir` itself leaves the images and the directory in
      place. */
  lemma ErrorSkipsCleanup(topic: string, prompt: string, services: Services)
    ensures var t := Pipeline(topic, prompt, services);
      t.result.Err? ==> CleanupSkipped(t.steps, services)
  {
    if services.makedirsError.None? {
      var asked := [MakeDirs(ImageDir), AskModel(prompt)];
      var rest := Answered(topic, services.ask(prompt), services);
      assert NoCleanup(asked);
      AnsweredErrorSkipsCleanup(topic, services.ask(prompt), services);
      if rest.result.Err? {
        CleanupSkippedConcat(asked, rest.steps, services);
      }
    }
  }

  lemma AnsweredErrorSkipsCleanup(topic: string, answer: Result<string>, services: Services)
    ensures var t := Answered(topic, answer, services);
      t.result.Err? ==> CleanupSkipped(t.steps, services)
  {
    if answer.Ok? && services.parse(StripJsonFence(answer.value)).Ok? {
      var slides := services.parse(StripJsonFence(answer.value)).value;
      if Iterate(slides).Ok? {
        var items := Iterate(slides).value;
        var a := AttachAll(items, Fetched(services.web));
        AttachFetches(items, Fetched(services.web));
        assert NoCleanup(a.steps);
        if a.result.Ok? {
          var p := Publish(topic, slides, a.result.value, services);
          if p.result.Err? {
            PublishErrorSkipsCleanup(topic, slides, a.result.value, services);
            CleanupSkippedConcat(a.steps, p.steps, services);
          }
        }
      }
    }
  }
}
