# BrainBox core, modelled in Dafny

BrainBox asks a language model to write slide decks and to grade exams. This
project models the parts of it that hold real logic and proves what they
promise. The SDKs around those parts (Gemini, Wikimedia over HTTP, PIL,
python-pptx, Cloudinary, the PDF and DOCX readers, `json.loads`) appear only as
oracles: functions passed in as parameters, which either answer or fail with a
message.

- **Presentation agent** (`PresentationAgent`, agents/presentation_agent.py)
  - `generate_presentation_from_topic` refuses an empty topic.
  - It then builds the prompt, asks the model, strips the markdown fence and
    parses the slides.
  - A loop attaches an image to every slide that asks for one. It uses an
    `array` of slides updated in place, as the Python list of dicts is.
  - It then builds and uploads the deck, deletes the images and answers with a
    status dict.
  - Every outside call is recorded, in order, as a `Step`.
  - `simplify_image_prompt` is `Keywords`.
  - The fence regex of line 88 is `Fences.StripJsonFence`.
- **Image search** (`ImageSearch`, utils/image_search_service.py)
  - `fetch_image` runs the search guard chain, then the three-attempt download
    loop with its `2**attempt` back-off.
  - The requests made and the seconds slept are returned as traces.
- **Deck builder** (`Deck`, utils/presentation_service.py)
  - `create_presentation` turns each item into one abstract slide: a title, the
    paragraphs of the body text frame, and the pictures.
  - A `Presentation` class collects the slides while a loop adds them.
- **Exam evaluation** (`Evaluation`, utils/evaluation/evaluation_service.py)
  - Extension dispatch with `os.path.splitext` semantics.
  - Page and paragraph concatenation, the prompt, and the fence cleaner
    (`Fences.StripFence`).
  - The step order of `evaluate_exam`.
- **PDF parsing** (`PdfParser`, utils/common/pdf_parser_service.py)
  - The chunk cleaner `clean_text`.
  - The page joining of `pdf_loader`.
- **Shared modules**
  - `Results` (Option, Result).
  - `PyText`: Python's `strip`, `isspace`, `lower`, `join` and `replace`.
  - `Json`: parsed values, truthiness, `dict.get`, item assignment and
    iteration, with CPython's error texts.

Python errors that reach a user are modelled with CPython's texts, because the
agent returns `str(e)`. Examples:

- `'list' object has no attribute 'get'`;
- `'int' object is not iterable`;
- `cannot unpack non-iterable NoneType object`.

Two behaviours of the code differ from what its docstrings or a first reading
suggest:

- **No path check in the evaluation.** `evaluate_exam` and `extract_text`
  (utils/evaluation/evaluation_service.py:13-29, 49-55) never check that the path
  exists. A missing file fails inside the PDF or DOCX reader, and the model
  passes that reader's error on.
- **The local deck path.** The docstring of utils/presentation_service.py:49
  gives the default as `/tmp/{topic}.pptx`. The code at line 58 replaces spaces
  by "_". The agent passes its own path, `os.path.join("/tmp", file_name)`
  (agents/presentation_agent.py:105-106), and `os.path.join` drops "/tmp" when
  the topic starts with "/". `LocalPathShape` states both cases.

A behaviour of the agent's cleaner that the proofs make explicit:

- `^```json|```$` removes an opening fence only when it is tagged "json".
- A bare "```" fence keeps its opening backticks (`BareFenceKept`,
  `BareFenceKeptExact`), so `json.loads` then fails and the agent answers with
  an error.
- The evaluation cleaner removes both kinds of opening fence
  (`BareFenceRemoved`).

## Model

| member | source | states |
|---|---|---|
| PyText.LowerIdempotent | agents/presentation_agent.py:62 | `lower()` leaves no upper-case letter, so lower-casing twice equals lower-casing once, and a text is unchanged by it exactly when it has no upper-case letter |
| PyText.LowerOfLowercase | agents/presentation_agent.py:62 | lower-casing text with no upper-case letter changes nothing |
| PyText.Strip | utils/common/pdf_parser_service.py:63 | `strip()` returns one contiguous slice of its input |
| PyText.StripCutsSpace | utils/common/pdf_parser_service.py:63 | the result of `strip()` neither starts nor ends with whitespace, and only whitespace is cut off either end |
| PyText.StripOfStripped | utils/evaluation/evaluation_service.py:46 | `strip()` leaves text that has no whitespace at either end unchanged |
| PyText.StripPadded | utils/evaluation/evaluation_service.py:46 | whitespace added around a text does not change what `strip()` returns |
| PyText.ReplaceCharInverse | agents/presentation_agent.py:105 | after `replace(' ', '_')` no space is left, and for a topic with no "_" the replacement is undone by `replace('_', ' ')` |
| PyText.JoinSnoc | utils/common/pdf_parser_service.py:49 | joining one more part appends the separator and that part |
| PyText.JoinLength | utils/common/pdf_parser_service.py:49 | a join is as long as its parts plus one separator between each pair of parts |
| PyText.NatToString | agents/presentation_agent.py:97 | a number's decimal text is non-empty, all digits, and one digit long exactly below 10 |
| PyText.NatToStringInjective | agents/presentation_agent.py:97 | different numbers have different decimal texts |
| Json.Keys | agents/presentation_agent.py:92 | a dict's keys are those of its entries, in insertion order |
| Json.Lookup | agents/presentation_agent.py:92 | a key has a value exactly when it is one of the dict's keys |
| Json.LookupStored | agents/presentation_agent.py:92 | in a dict with distinct keys, a lookup gives `v` exactly when `(key, v)` is stored |
| Json.Assign | agents/presentation_agent.py:100 | `d[key] = v` keeps the dict's size for an existing key and appends `(key, v)` for a new one |
| Json.LookupAssign | agents/presentation_agent.py:100 | after `d[key] = v`, `key` gives `v` and every other key gives what it gave before |
| Json.KeysAssign | agents/presentation_agent.py:100 | an assignment keeps the key order and appends a new key at the end |
| Json.AssignValid | agents/presentation_agent.py:100 | an assignment keeps the keys distinct |
| Json.Iterate | agents/presentation_agent.py:91 | only lists, dicts and strings can be iterated; a list yields its items; nothing is yielded exactly when the value is falsy; anything else raises "'T' object is not iterable" |
| Keywords.Tokens | agents/presentation_agent.py:62 | every token `\b\w+\b` finds is a non-empty run of word characters |
| Keywords.WordLengthSpec | agents/presentation_agent.py:62 | a token extends to the first character that is not a word character |
| Keywords.TokensOfLowercase | agents/presentation_agent.py:62 | the tokens of lower-case text are lower case |
| Keywords.TokensOfJoin | agents/presentation_agent.py:62 | tokenising words joined by spaces gives back those words |
| Keywords.JoinOfLowercase | agents/presentation_agent.py:69 | joining lower-case words gives lower-case text |
| Keywords.Filter | agents/presentation_agent.py:67 | the filter keeps exactly those tokens that are not stop words and are longer than two characters |
| Keywords.FilterOfKept | agents/presentation_agent.py:67 | a list of words that all pass the filter passes unchanged |
| Keywords.CountPositive | agents/presentation_agent.py:68 | a word has a positive count exactly when it occurs |
| Keywords.FirstIndex | agents/presentation_agent.py:68 | the index found holds the word, and no earlier index does |
| Keywords.InFirstOrderDistinct | agents/presentation_agent.py:68 | words listed in order of first occurrence are distinct |
| Keywords.Distinct | agents/presentation_agent.py:68 | the counter's keys are exactly the words that occur |
| Keywords.DistinctInFirstOrder | agents/presentation_agent.py:68 | the counter's keys are in order of first occurrence, as a `Counter` keeps them |
| Keywords.Best | agents/presentation_agent.py:68 | the word `most_common` picks next is one of the candidates |
| Keywords.BestRanks | agents/presentation_agent.py:68 | that word comes before every other candidate: a higher count, or an equal count and an earlier first occurrence |
| Keywords.WithoutMembers | agents/presentation_agent.py:68 | removing the chosen word leaves exactly the other candidates |
| Keywords.WithoutInOrder | agents/presentation_agent.py:68 | removing a word keeps the others in first-occurrence order |
| Keywords.MostCommon | agents/presentation_agent.py:68 | `most_common(n)` returns at most `n` words and no more than there are candidates |
| Keywords.MostCommonMembers | agents/presentation_agent.py:68 | `most_common(n)` returns min(n, number of distinct words) distinct candidates |
| Keywords.MostCommonRanked | agents/presentation_agent.py:68 | the chosen words come in `most_common` order, and each comes before every candidate left out |
| Keywords.TopRanked | agents/presentation_agent.py:68 | the stable top `n` of a word list is ordered by count, then first occurrence; it beats every word left out; with fewer than `n` words, every word is chosen |
| Keywords.MostCommonOfEqual | agents/presentation_agent.py:68 | when each candidate occurs once and there are at most `n`, `most_common(n)` returns them all in order of first occurrence |
| Keywords.KeywordsFacts | agents/presentation_agent.py:62-68 | the keywords are at most three distinct words; each is a lower-case token of the lower-cased prompt, is no stop word and has three or more characters |
| Keywords.KeywordsRanked | agents/presentation_agent.py:67-69 | the keywords are ordered by non-increasing frequency among the filtered tokens, ties going to the first seen; each beats every filtered word not chosen |
| Keywords.Simplify | agents/presentation_agent.py:69 | the result is the fallback phrase or the keywords joined by single spaces |
| Keywords.SimplifyShape | agents/presentation_agent.py:62-69 | if no token survives the filter, the result is exactly "technology diagram"; otherwise it is one to three joined keywords |
| Keywords.ChosenAgain | agents/presentation_agent.py:62-69 | simplifying a result of one to three distinct kept words gives back that result |
| Keywords.SimplifyIdempotent | agents/presentation_agent.py:62-69 | when some token survives the filter, simplifying twice equals simplifying once |
| Keywords.FallbackNotFixed | agents/presentation_agent.py:69 | the fallback is not a fixed point: "technology diagram" simplifies to "technology" |
| Keywords.KeptThenDropped | agents/presentation_agent.py:62-69 | a word followed by a word the filter drops simplifies to the first word alone |
| Fences.JsonOpeningLength | agents/presentation_agent.py:88 | `^```json` removes either nothing or seven characters from the start |
| Fences.OpeningLength | utils/evaluation/evaluation_service.py:46 | `^```(?:json)?` removes nothing, three or seven characters from the start |
| Fences.ClosingLength | utils/evaluation/evaluation_service.py:46 | `` ```$ `` matches at the very end or just before one final newline |
| Fences.ClosingOfFenced | utils/evaluation/evaluation_service.py:46 | a text closed by a fence, with or without one final newline, loses exactly the fence and keeps the newline |
| Fences.StripJsonFence | agents/presentation_agent.py:88 | the agent's cleaner returns a stripped slice of its input; only a "json"-tagged opening fence, the closing fence and outer whitespace are removed, so the interior is untouched |
| Fences.StripFence | utils/evaluation/evaluation_service.py:46 | the evaluation cleaner returns a stripped slice of its input; only an opening fence with or without "json", the closing fence and outer whitespace are removed |
| Fences.UnfencedOnlyStripped | utils/evaluation/evaluation_service.py:46 | text with no fence at either end is only trimmed, by both cleaners |
| Fences.FencedRoundTrip | utils/evaluation/evaluation_service.py:46 | a fence around content, tagged "json" in any case or bare, is stripped back to the trimmed content |
| Fences.JsonFencedRoundTrip | agents/presentation_agent.py:88 | a "json"-tagged fence, in any case, is stripped back to the trimmed content |
| Fences.BareFenceKept | agents/presentation_agent.py:88 | the agent's cleaner leaves a bare opening fence in place |
| Fences.BareFenceKeptExact | agents/presentation_agent.py:88 | on a bare fenced block over several lines, the agent's cleaner removes only the closing fence |
| Fences.BareFenceRemoved | utils/evaluation/evaluation_service.py:46 | the evaluation cleaner recovers the content of the same bare fenced block |
| ImageSearch.BackoffsDoubling | utils/image_search_service.py:107-109 | the first sleep lasts one second and each later one twice the one before; `n` failures sleep `2**n - 1` seconds in all, so three sleep 1, 2 and 4, seven in all |
| ImageSearch.FirstAccepted | utils/image_search_service.py:80-105 | the attempt the loop stops at is the first one that passes every check; when no attempt passes, it is the limit of three |
| ImageSearch.ImageUrl | utils/image_search_service.py:67-77 | the guard chain yields a non-empty URL or one of its three errors |
| ImageSearch.FetchImage | utils/image_search_service.py:11-112 | the requests, sleeps and outcome of a call are those of `fetch_image` run against the same world |
| ImageSearch.DownloadWithRetry | utils/image_search_service.py:79-112 | the download loop makes the requests and sleeps and reaches the outcome of the retry rule |
| ImageSearch.SearchComesFirst | utils/image_search_service.py:20-38 | the first request is the search for "{query} filetype:bitmap" with limit 1 in namespace 6 |
| ImageSearch.NoHitNoFurtherRequest | utils/image_search_service.py:40-43 | an empty result list raises "No image found for query: …" after the search request alone |
| ImageSearch.FirstHitOnly | utils/image_search_service.py:45 | only the first hit's title is looked up |
| ImageSearch.GuardsBeforeDownload | utils/image_search_service.py:67-77 | empty pages, empty `imageinfo` or a missing or empty URL each raise their message, naming the title, before any download or sleep |
| ImageSearch.RetryTrace | utils/image_search_service.py:79-112 | success exactly when some attempt passes; it stops right after the first such attempt and sleeps only after the earlier ones; otherwise three downloads, sleeps of 1, 2 and 4 seconds, then "Failed to download and save image after 3 attempts: {query}" |
| ImageSearch.AttemptsBounded | utils/image_search_service.py:80-109 | whatever the world answers, at most three download requests, at most two requests besides them, and at most three sleeps, the `k`-th lasting `2**k` seconds |
| Deck.Presentation.constructor | utils/presentation_service.py:60 | a new presentation has no slides |
| Deck.Presentation.AddSlide | utils/presentation_service.py:64 | adding a slide appends it after the existing ones |
| Deck.AddBullets | utils/presentation_service.py:91-95 | the bullet loop appends the bullet paragraphs of all the points, in order, after the paragraphs already there |
| Deck.SubtitleParagraphs | utils/presentation_service.py:82-88 | a dict adds at most one subtitle paragraph |
| Deck.PictureOf | utils/presentation_service.py:97-102 | a slide gets at most one picture |
| Deck.BuildSlide | utils/presentation_service.py:64-102 | the slide built for an item is the one the slide rules give, or the error iterating its bullets raises |
| Deck.SlidesFor | utils/presentation_service.py:63-102 | when the loop succeeds, there are as many slides as items |
| Deck.AddSlides | utils/presentation_service.py:63-102 | the loop leaves, in the presentation, exactly the slides for the items, or stops and reports the first error |
| Deck.CreatePresentation | utils/presentation_service.py:56-105 | the call returns the deck and path of `create_presentation`, or the error it raises |
| Deck.PrefixErrorStays | utils/presentation_service.py:63-102 | once the loop fails on a prefix of the items, the later items change nothing |
| Deck.SlidesOk | utils/presentation_service.py:63-102 | the loop succeeds exactly when every item gives a slide |
| Deck.SlideAt | utils/presentation_service.py:63-102 | slide `i` of the deck is the slide built from item `i` |
| Deck.FirstFailure | utils/presentation_service.py:63-102 | a failing loop reports the error of the first failing item |
| Deck.DefaultPathShape | utils/presentation_service.py:57-58 | with no path given, the path is "/tmp/" + the topic with each space made "_" + ".pptx", with no space left in it |
| Deck.ReturnsSavedPath | utils/presentation_service.py:104-105 | the returned path is the one given, or the default; the deck was saved there without error |
| Deck.OneSlidePerItem | utils/presentation_service.py:63-78 | a successful call adds exactly one slide per item, in input order, each the slide that item gives |
| Deck.StringSlide | utils/presentation_service.py:70-76 | a string item gives title "Slide", no picture and one paragraph holding one run of that text in 24pt bold |
| Deck.OtherItemBlank | utils/presentation_service.py:63-68 | an item that is neither a string nor a dict gives a slide with no title and one empty paragraph |
| Deck.DictTitle | utils/presentation_service.py:79 | a dict's title is its "title" value, or "Untitled" when that key is absent |
| Deck.SubtitleRule | utils/presentation_service.py:82-88 | a subtitle paragraph (18pt, italic, RGB(100, 100, 100)) exists exactly when the "subtitle" key is present |
| Deck.DictParagraphs | utils/presentation_service.py:68-95 | the first paragraph stays empty, the subtitle comes next, then one level-0 20pt paragraph per bullet in order |
| Deck.DictBullets | utils/presentation_service.py:91 | a dict gives its slide; a missing "bullet_points" key adds no bullet, and a list adds its own items |
| Deck.NonIterableBullets | utils/presentation_service.py:91 | a value of "bullet_points" that cannot be iterated raises "'T' object is not iterable" |
| Deck.PictureRule | utils/presentation_service.py:97-102 | a picture is placed at 5.5in, 1.5in and 4.5in wide exactly when `image_path` is truthy, exists and can be inserted; a failed insertion adds nothing and raises nothing |
| Evaluation.LastIndex | utils/evaluation/evaluation_service.py:14 | the index found holds the character, and no later index does; -1 when it is absent |
| Evaluation.LastIndexOfConcat | utils/evaluation/evaluation_service.py:14 | the last occurrence in a concatenation lies in the second part when there is one there |
| Evaluation.Splitext | utils/evaluation/evaluation_service.py:14 | `os.path.splitext` splits the path into two parts that concatenate back to it; the extension is empty, or a dot followed by no dot or slash |
| Evaluation.SplitextOfName | utils/evaluation/evaluation_service.py:14 | a name whose last component holds a non-dot character, followed by an extension, splits exactly at that extension |
| Evaluation.ExtensionOfName | utils/evaluation/evaluation_service.py:14 | the extension compared is the lower-cased extension of the file name |
| Evaluation.UpperCaseExtensions | utils/evaluation/evaluation_service.py:14-15 | ".PDF" and ".DOCX" select the same branches as ".pdf" and ".docx" |
| Evaluation.AppendLines | utils/evaluation/evaluation_service.py:18-27 | the `text +=` loop gives every part followed by "\n", in order |
| Evaluation.LinesConcat | utils/evaluation/evaluation_service.py:18-27 | the text of two runs of parts is the concatenation of their texts |
| Evaluation.LinesOfOne | utils/evaluation/evaluation_service.py:18-27 | one part gives that part followed by a newline |
| Evaluation.LinesLength | utils/evaluation/evaluation_service.py:18-27 | the text is as long as the parts together plus one newline per part |
| Evaluation.ExtractText | utils/evaluation/evaluation_service.py:13-29 | `extract_text` returns the text its reader gives, or the error it raises |
| Evaluation.ExtractDispatch | utils/evaluation/evaluation_service.py:14-29 | ".pdf" joins the page texts, ".docx" the paragraph texts, a reader's error passes through, and any other extension raises the unsupported-type message |
| Evaluation.PromptEmbedsContent | utils/evaluation/evaluation_service.py:32-44 | the content sits verbatim between the fixed header and the key instructions, so different contents give different prompts |
| Evaluation.CleanResponseFences | utils/evaluation/evaluation_service.py:45-47 | a fenced answer, tagged "json" in any case or bare, with an optional final newline, is parsed from its trimmed content |
| Evaluation.CleanResponseUnfenced | utils/evaluation/evaluation_service.py:45-47 | an unfenced answer is parsed after trimming alone |
| Evaluation.AskAndStore | utils/evaluation/evaluation_service.py:51-55 | after extraction, the prompt is sent, the answer cleaned and parsed, and the values stored, in that order |
| Evaluation.EvaluateExam | utils/evaluation/evaluation_service.py:49-55 | the steps and outcome are those of `evaluate_exam` run with the same services |
| Evaluation.StoredOnlyOnSuccess | utils/evaluation/evaluation_service.py:49-55 | something is stored exactly when every step succeeds, and then only after the prompt, with the parsed values; a failed extraction makes no call |
| PdfParser.KeepAllowed | utils/common/pdf_parser_service.py:62 | the first substitution leaves only ASCII letters, digits and whitespace |
| PdfParser.KeepAllowedOfAllowed | utils/common/pdf_parser_service.py:62 | text made only of those characters passes the first substitution unchanged |
| PdfParser.NonSpaceKeepAllowed | utils/common/pdf_parser_service.py:62 | apart from whitespace, the first substitution keeps exactly the ASCII letters and digits, in order |
| PdfParser.CollapseShape | utils/common/pdf_parser_service.py:63 | the second substitution leaves only letters, digits and single plain spaces |
| PdfParser.CollapseOfSingleSpaced | utils/common/pdf_parser_service.py:63 | text with only single plain spaces passes the second substitution unchanged |
| PdfParser.NonSpaceCollapse | utils/common/pdf_parser_service.py:63 | collapsing whitespace keeps every other character, in order |
| PdfParser.NonSpaceStrip | utils/common/pdf_parser_service.py:63 | trimming keeps every other character, in order |
| PdfParser.StripNormal | utils/common/pdf_parser_service.py:63 | trimming singly spaced text leaves no space at either end |
| PdfParser.CleanIsNormal | utils/common/pdf_parser_service.py:62-63 | a cleaned chunk holds only ASCII letters, digits and spaces, with no space at either end and no two spaces in a row |
| PdfParser.CleanKeepsAlnum | utils/common/pdf_parser_service.py:62-63 | deleting the spaces of a cleaned chunk gives the input filtered to [a-zA-Z0-9] |
| PdfParser.CleanIdempotent | utils/common/pdf_parser_service.py:62-63 | cleaning a cleaned chunk changes nothing |
| PdfParser.CleanText | utils/common/pdf_parser_service.py:58-68 | there is one output per input: output `i` is input `i` cleaned, or the input itself when it is not a string and the substitution raises |
| PdfParser.CleanTextFacts | utils/common/pdf_parser_service.py:59-68 | every cleaned string is in normal form and keeps its input's letters and digits, and cleaning the output again changes nothing |
| PdfParser.PdfLoader | utils/common/pdf_parser_service.py:43-55 | the loader returns the pages joined by ", ", or "File not found at path: …", or "An error occurred while loading the document: …" |
| PdfParser.LoaderJoinsInOrder | utils/common/pdf_parser_service.py:46-49 | pages are joined in load order; a single page comes back as is; the text is as long as the pages plus two characters per separator |
| PresentationAgent.PromptQuotesTopic | agents/presentation_agent.py:40-57 | the topic sits verbatim between the fixed head and tail of the prompt, so different topics give different prompts |
| PresentationAgent.ImagePathForm | agents/presentation_agent.py:97 | slide `i`'s image is saved as "<image dir>/slide_image_{i}.jpg" |
| PresentationAgent.ImageNameInjective | agents/presentation_agent.py:97 | different slide numbers give different image names |
| PresentationAgent.ImagePathsDistinct | agents/presentation_agent.py:97 | different slides save their images at different paths |
| PresentationAgent.LocalPathShape | agents/presentation_agent.py:105-106 | the local deck path is the deck service's default "/tmp/<underscored topic>.pptx", unless the topic starts with "/", when `os.path.join` drops "/tmp" |
| PresentationAgent.AttachOneCases | agents/presentation_agent.py:92-94 | a slide that is not a dict raises "… has no attribute 'get'"; a truthy `image_prompt` that is not a string raises "… has no attribute 'lower'"; a falsy one leaves the slide unchanged and fetches nothing |
| PresentationAgent.AttachOneFetch | agents/presentation_agent.py:94-103 | a string prompt makes one fetch with the simplified prompt at slide `i`'s path; `image_path` becomes that path on success and None on failure; every other key keeps its value and place |
| PresentationAgent.AssignImagePath | agents/presentation_agent.py:100-103 | setting `image_path` changes that key alone and adds it at the end when new |
| PresentationAgent.AttachSlide | agents/presentation_agent.py:92-103 | the loop body gives the slide and fetch of the attach rule, a fetch succeeding exactly when `fetch_image` returns |
| PresentationAgent.AttachAll | agents/presentation_agent.py:91-103 | a completed loop has one slide per input slide |
| PresentationAgent.AttachErrorStays | agents/presentation_agent.py:91-103 | once a slide raises, later slides are neither touched nor fetched for |
| PresentationAgent.AttachStep | agents/presentation_agent.py:91-103 | one more slide extends the loop by that slide's step, with its index in the whole list |
| PresentationAgent.AttachImages | agents/presentation_agent.py:91-103 | the in-place loop leaves each slide as the attach rule makes it and records its fetches in order, or reports the error of the first slide that raises |
| PresentationAgent.AttachAllOk | agents/presentation_agent.py:91-103 | the loop completes exactly when every slide is a dict whose prompt is falsy or a string; a failed fetch never stops it |
| PresentationAgent.AttachAllEach | agents/presentation_agent.py:91-103 | slide `k` after the loop is slide `k` after its own step at index `k` |
| PresentationAgent.AttachFetches | agents/presentation_agent.py:97-99 | there is at most one fetch per slide, each at the image path of some slide |
| PresentationAgent.RemoveImages | agents/presentation_agent.py:111-114 | the cleanup loop removes, in slide order, each slide's `image_path` that is truthy and exists |
| PresentationAgent.RemovalsSound | agents/presentation_agent.py:111-114 | at most one removal per slide, and only of truthy paths that exist |
| PresentationAgent.RemovalsComplete | agents/presentation_agent.py:111-114 | every slide's truthy, existing `image_path` is removed |
| PresentationAgent.UploadDeck | agents/presentation_agent.py:109-115 | the upload is followed by the removals and the directory removal; an upload that answers None raises the tuple-unpack error before any cleanup |
| PresentationAgent.PublishDeck | agents/presentation_agent.py:105-115 | building, uploading and cleaning up follow the publishing rule |
| PresentationAgent.PublishOrder | agents/presentation_agent.py:105-122 | the deck is built at the local path; it is uploaded under the underscored topic only if the build succeeded; success carries the mutated slides and the URL after the cleanup steps |
| PresentationAgent.HandleAnswer | agents/presentation_agent.py:88-115 | the model's answer is cleaned, parsed, iterated, given images and published, stopping at the first error |
| PresentationAgent.RunPipeline | agents/presentation_agent.py:82-122 | the directory is made, the model asked, then the answer handled, stopping at the first error |
| PresentationAgent.PipelineStartsWith | agents/presentation_agent.py:83-87 | the first step is making the image directory; the model is asked second, and its failure ends the run there |
| PresentationAgent.PublishErrorSkipsCleanup | agents/presentation_agent.py:107-115 | a failed publish removes no image and not the directory, unless the failure is that of `os.rmdir` itself, its last step, after the images were removed |
| PresentationAgent.AnsweredErrorSkipsCleanup | agents/presentation_agent.py:88-115 | any failure after the model answers removes nothing, unless it is `os.rmdir` that failed, as the last step after the image removals |
| PresentationAgent.ErrorSkipsCleanup | agents/presentation_agent.py:82-125 | any failure of the pipeline removes no image and not the directory, unless it is the failure of `os.rmdir` itself, the last step after the removals |
| PresentationAgent.GeneratePresentationFromTopic | agents/presentation_agent.py:78-125 | the reply and the calls made are those of `generate_presentation_from_topic` |
| PresentationAgent.EmptyTopicRefused | agents/presentation_agent.py:79-80 | an empty topic gives `{"status": "error", "error": "Topic is required"}` before any call |
| PresentationAgent.ReplyRecords | agents/presentation_agent.py:117-125 | the reply's status comes first; it is "success" exactly when the run succeeded, with topic, slides and URL; otherwise it is "error" with the message |

## Left out

- Unicode character classes:
  - Regex `\w`, `lower()` and the IGNORECASE match of "json" are limited to ASCII letters, digits and underscore. Python's Unicode letters, digits and case folding (for example "ſ" matching "s") are not modelled.
  - Whitespace (`\s`, `strip()`) is Python's full set.
- JSON values are null, booleans, integers, strings, lists and dicts. Floats are not modelled because no rule of the core depends on them.
- `json.loads`, the language model, `requests`, PIL, `prs.save`, `os.makedirs`, `os.rmdir`, `os.path.exists` and the Cloudinary upload are oracle parameters. Their internals are foreign code.
- The upload is modelled by its observable answer, `(secure_url, public_id)` or None. The scheduled deletion in utils/cloudinary_service.py is concurrent and is not modelled.
- Sleeping is recorded as the list of durations, not performed.
- Printing and logging are not modelled, because they do not affect results.
- `os.remove` is recorded as a step and assumed to succeed.
- ImageSearch.FetchImage does not model malformed reply shapes: a hit without "title" (a KeyError), or a reply body that is not JSON. The search reply is given as its list of titles and the info reply as its pages in order.
- Deck.BuildSlide records the value assigned to the title shape's, a run's or a paragraph's `text` as it is. python-pptx's own checks on that value are not modelled: it rejects a value that is not a string, such as a null or numeric "title", "subtitle" or bullet. Its splitting of text at line breaks into several paragraphs is not modelled either. The message python-pptx raises depends on its version.
- Deck.DictTitle: a dict's "title" value becomes the slide title whatever its type. In the source a title that is not a string makes python-pptx raise (utils/presentation_service.py:79), and the agent then answers with an error. The model lets such a slide succeed.
- PresentationAgent.RemovalsSound:
  - `os.path.exists` is one fixed oracle for the whole run. Two slides naming the same `image_path` therefore give two `Remove` steps, where Python finds the file gone after the first `os.remove`.
  - `os.path.exists` is total. It does not model the TypeError it raises on a value that is not a path, such as a list.
  - It is not tied to which fetches succeeded, so the model does not state that every fetched image is embedded in the deck and then deleted.
- Deck.AddSlides builds each slide as a value before adding it to the presentation. The slide objects of python-pptx, and editing a slide after it was added, are not modelled.
- `DocumentProcessor.__init__` and `DocumentProcessor.chunk_creator` are not modelled. They only store settings and call the LangChain splitter and pandas.
- PdfParser.PdfLoader takes the pages the asynchronous loader yields as a finished list. The `async for` interleaving is not modelled.
- Evaluation.EvaluateExam does not model how the Gemini client is constructed or called.
  - Both callers import `utils.common.gemini_service` (agents/presentation_agent.py:7, utils/evaluation/evaluation_service.py:6). That module is not part of this model, so the client actually called is unseen, and the model is treated as an oracle from prompt to answer.
  - The client in utils/gemini_service.py has a different signature: its constructor takes an argument, and its `get_response` takes none. That file is only a neighbour of the one imported.
  - The evaluation service also imports `DatabaseService`, which utils/common/db.py does not define, so the store is recorded as a `Stored` step.
  - The module-level `input()` call at the end of its file is not modelled.
- Json.Lookup: a dict from the `json.loads` oracle may hold a key twice. `Lookup` then takes the first entry, while `json.loads` keeps the last value. The model does not constrain the parse oracle to distinct keys; `Json.ValidEntries` states the distinct-key case, which `json.loads` always produces.
- The agent imports the services under `utils.common.*` and `utils.presentation.*`. The files modelled are the ones at the paths cited above.
- The cleaner of utils/gemini_service.py is the same regex as the evaluation cleaner, so it is modelled once as `Fences.StripFence`. The client around it is foreign code.
- The rest of the repository is not part of this model: the other agents, the RAG service, the databases and the configuration.
