/** The exam evaluation pipeline of utils/evaluation/evaluation_service.py: read the text of
    a .pdf or .docx file, wrap it in the evaluation prompt, ask the language model, strip
    the markdown fence from its answer, parse it and hand the result to the store. */
module Evaluation {
  import opened Results
  import opened PyText
  import opened Fences
  import opened Json

  /** The last index of `c` in `s`, or -1 (`str.rfind`). */
  function LastIndex(s: string, c: char): (r: int)
    ensures -1 <= r < |s|
    ensures r >= 0 ==> s[r] == c
    ensures forall j :: r < j < |s| ==> s[j] != c
    decreases |s|
  {
    if s == [] then -1
    else if s[|s| - 1] == c then |s| - 1
    else LastIndex(s[..|s| - 1], c)
  }

  /** Some character of `s[i..j]` is not a dot. */
  predicate HasNonDot(s: string, i: int, j: int)
    requires 0 <= i && j <= |s|
  {
    exists k :: i <= k < j && s[k] != '.'
  }

  /** `os.path.splitext` on a POSIX path: the extension starts at the last dot of the last
      path component, provided that component has something other than dots before it
      (so ".pdf" and "dir/..pdf" have no extension). */
  function Splitext(p: string): (r: (string, string))
    ensures r.0 + r.1 == p
    ensures r.1 != [] ==> r.1[0] == '.' && (forall k :: 0 <= k < |r.1| ==> r.1[k] != '/')
    ensures r.1 != [] ==> forall k :: 1 <= k < |r.1| ==> r.1[k] != '.'
  {
    var sep := LastIndex(p, '/');
    var dot := LastIndex(p, '.');
    if dot > sep && HasNonDot(p, sep + 1, dot) then (p[..dot], p[dot..]) else (p, "")
  }

  /** `os.path.splitext(file_path)[1].lower()`. The letters of ".pdf" and ".docx" are
      the lower case of no character outside ASCII, so an ASCII `lower()` decides the two
      comparisons exactly as Python's does. */
  function Extension(path: string): string {
    Lower(Splitext(path).1)
  }

  /** A name whose last component has a non-dot character, followed by an extension, splits
      there. */
  lemma SplitextOfName(stem: string, ext: string)
    requires ext != [] && ext[0] == '.'
    requires forall k :: 0 <= k < |ext| ==> ext[k] != '/'
    requires forall k :: 1 <= k < |ext| ==> ext[k] != '.'
    requires exists k :: LastIndex(stem, '/') < k < |stem| && stem[k] != '.'
    ensures Splitext(stem + ext) == (stem, ext)
  {
    var p := stem + ext;
    LastIndexOfConcat(stem, ext, '.');
    LastIndexOfConcat(stem, ext, '/');
    assert LastIndex(p, '.') == |stem|;
    var k :| LastIndex(stem, '/') < k < |stem| && stem[k] != '.';
    assert p[k] == stem[k];
    assert p[..|stem|] == stem && p[|stem|..] == ext;
  }

  lemma {:induction false} LastIndexOfConcat(a: string, b: string, c: char)
    ensures LastIndex(a + b, c) == if LastIndex(b, c) >= 0 then |a| + LastIndex(b, c) else LastIndex(a, c)
    decreases |b|
  {
    if b == [] {
      assert a + b == a;
    } else {
      assert (a + b)[..|a + b| - 1] == a + b[..|b| - 1];
      LastIndexOfConcat(a, b[..|b| - 1], c);
    }
  }

  /** `"".join(part + "\n" for part in parts)`: what the loops of
      utils/evaluation/evaluation_service.py:18-20 and 24-26 build. */
  function Lines(parts: seq<string>): string
    decreases |parts|
  {
    if parts == [] then "" else Lines(parts[..|parts| - 1]) + parts[|parts| - 1] + "\n"
  }

  /** `text = ""; for part in parts: text += part + "\n"`. */
  method AppendLines(parts: seq<string>) returns (text: string)
    ensures text == Lines(parts)
  {
    text := "";
    var i := 0;
    while i < |parts|
      invariant 0 <= i <= |parts|
      invariant text == Lines(parts[..i])
    {
      assert parts[..i + 1][..i] == parts[..i];
      text := text + parts[i] + "\n";
      i := i + 1;
    }
    assert parts[..i] == parts;
  }

  /** The text of a list of parts is the text of its front followed by that of its back,
      so the parts appear in order, each followed by a newline. */
  lemma {:induction false} LinesConcat(a: seq<string>, b: seq<string>)
    ensures Lines(a + b) == Lines(a) + Lines(b)
    decreases |b|
  {
    if b == [] {
      assert a + b == a;
    } else {
      assert (a + b)[..|a + b| - 1] == a + b[..|b| - 1];
      LinesConcat(a, b[..|b| - 1]);
    }
  }

  lemma LinesOfOne(part: string)
    ensures Lines([part]) == part + "\n"
  {
    assert [part][..0] == [];
  }

  /** The text is as long as its parts plus one newline per part. */
  lemma {:induction false} LinesLength(parts: seq<string>)
    ensures |Lines(parts)| == SumLengths(parts) + |parts|
    decreases |parts|
  {
    if parts != [] {
      var front := parts[..|parts| - 1];
      var last := parts[|parts| - 1];
      LinesLength(front);
      SumLengthsSnoc(front, last);
      assert parts == front + [last];
    }
  }

  lemma {:induction false} SumLengthsSnoc(parts: seq<string>, x: string)
    ensures SumLengths(parts + [x]) == SumLengths(parts) + |x|
    decreases |parts|
  {
    if parts != [] {
      assert (parts + [x])[1..] == parts[1..] + [x];
      SumLengthsSnoc(parts[1..], x);
    }
  }

  /** The document readers: the text of each page of a PDF (`PdfReader(f).pages`, then
      `extract_text()`), the text of each paragraph of a DOCX (`docx.Document(path)`), or
      the message of what they raise. */
  datatype Readers = Readers(pdfPages: string -> Result<seq<string>>, docxParagraphs: string -> Result<seq<string>>)

  const Unsupported := "Unsupported file type. Please provide a .pdf or .docx file."

  /** What `extract_text(file_path)` returns or raises. */
  function Extracted(path: string, readers: Readers): Result<string> {
    var ext := Extension(path);
    if ext == ".pdf" then
      match readers.pdfPages(path)
      case Err(e) => Err(e)
      case Ok(pages) => Ok(Lines(pages))
    else if ext == ".docx" then
      match readers.docxParagraphs(path)
      case Err(e) => Err(e)
      case Ok(paragraphs) => Ok(Lines(paragraphs))
    else Err(Unsupported)
  }

  method ExtractText(path: string, readers: Readers) returns (r: Result<string>)
    ensures r == Extracted(path, readers)
  {
    var ext := Lower(Splitext(path).1);
    if ext == ".pdf" {
      var pages := readers.pdfPages(path);
      if pages.Err? {
        return Err(pages.error);
      }
      var text := AppendLines(pages.value);
      return Ok(text);
    } else if ext == ".docx" {
      var paragraphs := readers.docxParagraphs(path);
      if paragraphs.Err? {
        return Err(paragraphs.error);
      }
      var text := AppendLines(paragraphs.value);
      return Ok(text);
    } else {
      return Err(Unsupported);
    }
  }

  /** The reader is chosen by the lowercased extension; every other extension is refused
      before any file is opened. Whatever is read comes back as its parts in order, each
      followed by a newline, and a reader's error is passed on. */
  lemma ExtractDispatch(path: string, readers: Readers)
    ensures var r := Extracted(path, readers);
      && (Extension(path) != ".pdf" && Extension(path) != ".docx" ==> r == Err(Unsupported))
      && (Extension(path) == ".pdf" ==>
            r == (if readers.pdfPages(path).Ok? then Ok(Lines(readers.pdfPages(path).value)) else Err(readers.pdfPages(path).error)))
      && (Extension(path) == ".docx" ==>
            r == (if readers.docxParagraphs(path).Ok? then Ok(Lines(readers.docxParagraphs(path).value)) else Err(readers.docxParagraphs(path).error)))
  {
  }

  /** A name whose last component has a non-dot character, followed by an extension in any
      letter case, is read by the extension's lower case: "exam.PDF" reads as a PDF. */
  lemma ExtensionOfName(stem: string, ext: string)
    requires ext != [] && ext[0] == '.'
    requires forall k :: 0 <= k < |ext| ==> ext[k] != '/'
    requires forall k :: 1 <= k < |ext| ==> ext[k] != '.'
    requires exists k :: LastIndex(stem, '/') < k < |stem| && stem[k] != '.'
    ensures Extension(stem + ext) == Lower(ext)
  {
    SplitextOfName(stem, ext);
  }

  lemma UpperCaseExtensions()
    ensures Lower(".PDF") == ".pdf" && Lower(".DOCX") == ".docx"
  {
  }

  const PromptHeader := "\nEvaluate the exam answers provided below using ADK criteria. Provide a summary evaluation and a score out of 100.\n\nExam Content:\n"
  const PromptFooter := "\n\nReturn the evaluation in JSON format with the keys:\n- \"evaluation\": a string summary of the exam performance.\n- \"score\": an integer score between 0 and 100.\nOnly return the JSON.\n"

  /** `evaluate_exam_prompt(exam_content)`. */
  function EvaluateExamPrompt(content: string): string {
    PromptHeader + content + PromptFooter
  }

  /** The content sits verbatim between the fixed header and the instructions, so it can
      be read back from the prompt, and different contents give different prompts. */
  lemma PromptEmbedsContent(content: string, other: string)
    ensures var p := EvaluateExamPrompt(content);
      && StartsWith(p, PromptHeader) && EndsWith(p, PromptFooter)
      && p[|PromptHeader|..|p| - |PromptFooter|] == content
    ensures EvaluateExamPrompt(content) == EvaluateExamPrompt(other) ==> content == other
  {
    var p := EvaluateExamPrompt(content);
    assert p[..|PromptHeader|] == PromptHeader;
    assert p[|p| - |PromptFooter|..] == PromptFooter;
    assert p[|PromptHeader|..|p| - |PromptFooter|] == content;
    var q := EvaluateExamPrompt(other);
    if p == q {
      assert q[|PromptHeader|..|q| - |PromptFooter|] == other;
    }
  }

  /** `clean_response(response)`: the fence removed, then `json.loads`. */
  function CleanResponse(response: string, parse: string -> Result<Json>): Result<Json> {
    parse(StripFence(response))
  }

  /** The cleaner strips a fenced answer back to its content, whether or not the fence is
      tagged "json" in any case, with an optional final newline; an unfenced answer is only
      trimmed; and only the ends of the text are ever touched. */
  lemma CleanResponseFences(tag: string, content: string, nl: string, parse: string -> Result<Json>)
    requires IsJsonTag(tag) || (tag == "" && !JsonTagAt(content, 0))
    requires nl == "" || nl == "\n"
    ensures CleanResponse(Fence + tag + content + Fence + nl, parse) == parse(Strip(content))
  {
    FencedRoundTrip(tag, content, nl);
  }

  lemma CleanResponseUnfenced(response: string, parse: string -> Result<Json>)
    requires !FenceAt(response, 0) && ClosingLength(response) == 0
    ensures CleanResponse(response, parse) == parse(Strip(response))
  {
    UnfencedOnlyStripped(response);
  }

  /** The services of `evaluate_exam`: the readers, the model, and `json.loads`. */
  datatype Services = Services(readers: Readers, ask: string -> Result<string>, parse: string -> Result<Json>)

  /** What reaches the outside world: the prompt sent to the model, and the values handed
      to `store_exam_values`. */
  datatype Step = Asked(prompt: string) | Stored(path: string, values: Json)

  datatype Outcome = Outcome(result: Result<()>, steps: seq<Step>)

  /** What `evaluate_exam(file_path)` does once the text is extracted. */
  function AfterExtract(path: string, content: string, services: Services): Outcome {
    var prompt := EvaluateExamPrompt(content);
    match services.ask(prompt)
    case Err(e) => Outcome(Err(e), [Asked(prompt)])
    case Ok(response) =>
      match CleanResponse(response, services.parse)
      case Err(e) => Outcome(Err(e), [Asked(prompt)])
      case Ok(values) => Outcome(Ok(()), [Asked(prompt), Stored(path, values)])
  }

  /** What `evaluate_exam(file_path)` does. */
  function Evaluate(path: string, services: Services): Outcome {
    match Extracted(path, services.readers)
    case Err(e) => Outcome(Err(e), [])
    case Ok(content) => AfterExtract(path, content, services)
  }

  method EvaluateExam(path: string, services: Services) returns (result: Result<()>, steps: seq<Step>)
    ensures Outcome(result, steps) == Evaluate(path, services)
  {
    var content := ExtractText(path, services.readers);
    if content.Err? {
      return Err(content.error), [];
    }
    result, steps := AskAndStore(path, content.value, services);
  }

  /** utils/evaluation/evaluation_service.py:51-55. */
  method AskAndStore(path: string, content: string, services: Services) returns (result: Result<()>, steps: seq<Step>)
    ensures Outcome(result, steps) == AfterExtract(path, content, services)
  {
    var prompt := EvaluateExamPrompt(content);
    steps := [Asked(prompt)];
    var response := services.ask(prompt);
    if response.Err? {
      return Err(response.error), steps;
    }
    var cleaned := CleanResponse(response.value, services.parse);
    if cleaned.Err? {
      return Err(cleaned.error), steps;
    }
    steps := steps + [Stored(path, cleaned.value)];
    result := Ok(());
  }

  /** Storing happens last and only when every earlier step succeeded: then the file's
      path and the parsed answer to the prompt of its text are stored, once. A failing
      extraction asks nothing. */
  lemma StoredOnlyOnSuccess(path: string, services: Services)
    ensures var o := Evaluate(path, services);
      && (o.result.Ok? <==> exists i :: 0 <= i < |o.steps| && o.steps[i].Stored?)
      && (o.result.Ok? ==>
            var content := Extracted(path, services.readers).value;
            var prompt := EvaluateExamPrompt(content);
            && o.steps == [Asked(prompt), Stored(path, CleanResponse(services.ask(prompt).value, services.parse).value)]
            && services.ask(prompt).Ok?)
      && (Extracted(path, services.readers).Err? ==> o == Outcome(Err(Extracted(path, services.readers).error), []))
  {
    var o := Evaluate(path, services);
    if o.result.Ok? {
      assert o.steps[1].Stored?;
    }
  }
}
