/** `ImageSearchService.fetch_image` (utils/image_search_service.py:11-112): find the first
    Wikimedia Commons file for a query, look up its URL, then try up to three times to
    download it, check it is a raster image and save it as JPEG, sleeping `2**attempt`
    seconds after each failed attempt. The HTTP service and the image library are oracles;
    the requests made and the sleeps taken are returned as traces. */
module ImageSearch {
  import opened Results
  import opened PyText

  /** The query parameters of the search request that vary (utils/image_search_service.py:20-27). */
  datatype SearchParams = SearchParams(srsearch: string, srlimit: nat, srnamespace: nat)

  /** One page of the image-info reply: the "url" field of each of its `imageinfo`
      entries, `None` where an entry has none. */
  datatype Page = Page(imageinfo: seq<Option<string>>)

  /** What one download attempt meets: the exception `requests` or `raise_for_status`
      raised, if any; the Content-Type header ("" when absent); and whether PIL could open,
      verify and convert the bytes. */
  datatype Attempt = Attempt(raised: Option<string>, contentType: string, decodes: bool)

  /** The outside world: the search and info requests (an error is the text of the
      `RequestException`), each download attempt by URL and attempt number, and whether a
      JPEG can be written at a path. */
  datatype Web = Web(
    search: SearchParams -> Result<seq<string>>,
    info: string -> Result<seq<Page>>,
    download: (string, nat) -> Attempt,
    saves: string -> bool)

  datatype Request =
    | SearchRequest(params: SearchParams)
    | InfoRequest(title: string)
    | DownloadRequest(url: string, attempt: nat)

  /** The three observable traces of one call. */
  datatype Run = Run(outcome: Result<()>, requests: seq<Request>, sleeps: seq<nat>)

  const MaxAttempts: nat := 3

  function SearchFor(query: string): SearchParams {
    SearchParams(query + " filetype:bitmap", 1, 6)
  }

  /** An attempt passes every check of utils/image_search_service.py:88-103. */
  predicate Accepted(a: Attempt, saved: bool) {
    && a.raised.None?
    && StartsWith(a.contentType, "image/")
    && a.contentType != "image/svg+xml" && a.contentType != "image/gif"
    && a.decodes && saved
  }

  predicate AcceptedAt(web: Web, url: string, savePath: string, k: nat) {
    Accepted(web.download(url, k), web.saves(savePath))
  }

  function Pow2(k: nat): (r: nat)
    ensures r >= 1
  {
    if k == 0 then 1 else 2 * Pow2(k - 1)
  }

  /** The sleeps after `n` failed attempts. */
  function Backoffs(n: nat): (r: seq<nat>)
    ensures |r| == n
    ensures forall i :: 0 <= i < n ==> r[i] == Pow2(i)
  {
    seq(n, i requires 0 <= i < n => Pow2(i))
  }

  function Downloads(url: string, n: nat): (r: seq<Request>)
    ensures |r| == n
    ensures forall i :: 0 <= i < n ==> r[i] == DownloadRequest(url, i)
  {
    seq(n, i requires 0 <= i < n => DownloadRequest(url, i))
  }

  /** The first attempt from `k` on that is accepted, or `MaxAttempts` when none is. */
  function FirstAccepted(web: Web, url: string, savePath: string, k: nat): (r: nat)
    requires k <= MaxAttempts
    ensures k <= r <= MaxAttempts
    ensures r < MaxAttempts ==> AcceptedAt(web, url, savePath, r)
    ensures forall j :: k <= j < r ==> !AcceptedAt(web, url, savePath, j)
    decreases MaxAttempts - k
  {
    if k == MaxAttempts then MaxAttempts
    else if AcceptedAt(web, url, savePath, k) then k
    else FirstAccepted(web, url, savePath, k + 1)
  }

  /** The URL the guard chain of utils/image_search_service.py:67-77 arrives at, or the
      error it raises. */
  function ImageUrl(title: string, pages: seq<Page>): (r: Result<string>)
    ensures r.Ok? ==> r.value != []
  {
    if pages == [] then Err("No image info found for: " + title)
    else if pages[0].imageinfo == [] then Err("No image URL found for: " + title)
    else match pages[0].imageinfo[0]
      case None => Err("No URL found in image info for: " + title)
      case Some(url) => if url == [] then Err("No URL found in image info for: " + title) else Ok(url)
  }

  /** The download loop once a URL is known. */
  function Retry(query: string, url: string, savePath: string, web: Web, pre: seq<Request>): Run {
    var k := FirstAccepted(web, url, savePath, 0);
    if k < MaxAttempts then Run(Ok(()), pre + Downloads(url, k + 1), Backoffs(k))
    else Run(Err("Failed to download and save image after 3 attempts: " + query), pre + Downloads(url, MaxAttempts), Backoffs(MaxAttempts))
  }

  /** What `fetch_image(query, save_path)` does, as a function of the world. */
  function Fetch(query: string, savePath: string, web: Web): Run {
    var params := SearchFor(query);
    match web.search(params)
    case Err(e) => Run(Err("Search request failed: " + e), [SearchRequest(params)], [])
    case Ok(titles) =>
      if titles == [] then Run(Err("No image found for query: " + query), [SearchRequest(params)], [])
      else
        var title := titles[0];
        var pre := [SearchRequest(params), InfoRequest(title)];
        match web.info(title)
        case Err(e) => Run(Err("Image info request failed: " + e), pre, [])
        case Ok(pages) =>
          match ImageUrl(title, pages)
          case Err(e) => Run(Err(e), pre, [])
          case Ok(url) => Retry(query, url, savePath, web, pre)
  }

  method FetchImage(query: string, savePath: string, web: Web) returns (outcome: Result<()>, requests: seq<Request>, sleeps: seq<nat>)
    ensures Run(outcome, requests, sleeps) == Fetch(query, savePath, web)
  {
    var params := SearchFor(query);
    requests, sleeps := [SearchRequest(params)], [];
    var found := web.search(params);
    if found.Err? {
      outcome := Err("Search request failed: " + found.error);
      return;
    }
    if found.value == [] {
      outcome := Err("No image found for query: " + query);
      return;
    }
    var title := found.value[0];
    requests := requests + [InfoRequest(title)];
    var info := web.info(title);
    if info.Err? {
      outcome := Err("Image info request failed: " + info.error);
      return;
    }
    var pages := info.value;
    if pages == [] {
      outcome := Err("No image info found for: " + title);
      return;
    }
    if pages[0].imageinfo == [] {
      outcome := Err("No image URL found for: " + title);
      return;
    }
    var entry := pages[0].imageinfo[0];
    if entry.None? || entry.value == [] {
      outcome := Err("No URL found in image info for: " + title);
      return;
    }
    outcome, requests, sleeps := DownloadWithRetry(query, entry.value, savePath, web, requests);
  }

  /** The loop of utils/image_search_service.py:79-112, once a URL is known; `pre` are the
      requests already made. */
  method DownloadWithRetry(query: string, url: string, savePath: string, web: Web, pre: seq<Request>)
    returns (outcome: Result<()>, requests: seq<Request>, sleeps: seq<nat>)
    ensures Run(outcome, requests, sleeps) == Retry(query, url, savePath, web, pre)
  {
    requests, sleeps := pre, [];
    var attempt := 0;
    while attempt < MaxAttempts
      invariant 0 <= attempt <= MaxAttempts
      invariant FirstAccepted(web, url, savePath, 0) >= attempt
      invariant requests == pre + Downloads(url, attempt)
      invariant sleeps == Backoffs(attempt)
    {
      requests := requests + [DownloadRequest(url, attempt)];
      assert Downloads(url, attempt) + [DownloadRequest(url, attempt)] == Downloads(url, attempt + 1);
      var a := web.download(url, attempt);
      if a.raised.None? && StartsWith(a.contentType, "image/")
        && a.contentType != "image/svg+xml" && a.contentType != "image/gif"
        && a.decodes && web.saves(savePath)
      {
        outcome := Ok(());
        return;
      }
      sleeps := sleeps + [Pow2(attempt)];
      assert sleeps == Backoffs(attempt + 1);
      attempt := attempt + 1;
    }
    outcome := Err("Failed to download and save image after 3 attempts: " + query);
  }

  /** The search asks for bitmaps matching the query, one hit, in the File namespace; it
      is always the first request. */
  lemma SearchComesFirst(query: string, savePath: string, web: Web)
    ensures var run := Fetch(query, savePath, web);
      run.requests != [] && run.requests[0] == SearchRequest(SearchParams(query + " filetype:bitmap", 1, 6))
  {
  }

  /** No hit: the call fails before any info or download request. */
  lemma NoHitNoFurtherRequest(query: string, savePath: string, web: Web)
    requires web.search(SearchFor(query)) == Ok([])
    ensures Fetch(query, savePath, web) == Run(Err("No image found for query: " + query), [SearchRequest(SearchFor(query))], [])
  {
  }

  /** Only the first hit's title is looked up. */
  lemma FirstHitOnly(query: string, savePath: string, web: Web)
    requires web.search(SearchFor(query)).Ok? && web.search(SearchFor(query)).value != []
    ensures var run := Fetch(query, savePath, web);
      |run.requests| >= 2 && run.requests[1] == InfoRequest(web.search(SearchFor(query)).value[0])
  {
    var run := Fetch(query, savePath, web);
    var title := web.search(SearchFor(query)).value[0];
    var pre := [SearchRequest(SearchFor(query)), InfoRequest(title)];
    if web.info(title).Ok? && ImageUrl(title, web.info(title).value).Ok? {
      var url := ImageUrl(title, web.info(title).value).value;
      assert run == Retry(query, url, savePath, web, pre);
      assert run.requests[..2] == pre;
    }
  }

  predicate NoDownload(requests: seq<Request>) {
    forall i :: 0 <= i < |requests| ==> !requests[i].DownloadRequest?
  }

  /** Missing pages, a missing `imageinfo` or a missing or empty URL each raise before any
      download attempt, with the message naming the title. */
  lemma GuardsBeforeDownload(query: string, savePath: string, web: Web, title: string, pages: seq<Page>)
    requires web.search(SearchFor(query)).Ok? && web.search(SearchFor(query)).value != []
    requires title == web.search(SearchFor(query)).value[0] && web.info(title) == Ok(pages)
    requires pages == [] || pages[0].imageinfo == [] || pages[0].imageinfo[0] in {None, Some("")}
    ensures var run := Fetch(query, savePath, web);
      && run.outcome.Err? && NoDownload(run.requests) && run.sleeps == []
      && run.outcome.error == (
        if pages == [] then "No image info found for: " + title
        else if pages[0].imageinfo == [] then "No image URL found for: " + title
        else "No URL found in image info for: " + title)
  {
    assert ImageUrl(title, pages).Err?;
  }

  /** The number of the last attempt made, the downloads made and the sleeps taken. */
  lemma RetryTrace(query: string, url: string, savePath: string, web: Web, pre: seq<Request>)
    ensures var run := Retry(query, url, savePath, web, pre);
      var k := FirstAccepted(web, url, savePath, 0);
      && (run.outcome.Ok? <==> exists j :: 0 <= j < MaxAttempts && AcceptedAt(web, url, savePath, j))
      && (run.outcome.Ok? ==>
            && run.requests == pre + Downloads(url, k + 1)
            && AcceptedAt(web, url, savePath, k)
            && (forall j :: 0 <= j < k ==> !AcceptedAt(web, url, savePath, j))
            && run.sleeps == Backoffs(k))
      && (run.outcome.Err? ==>
            && run.outcome.error == "Failed to download and save image after 3 attempts: " + query
            && run.requests == pre + Downloads(url, 3)
            && run.sleeps == [1, 2, 4])
  {
    var k := FirstAccepted(web, url, savePath, 0);
    if k == MaxAttempts {
      assert Backoffs(3) == [1, 2, 4];
    }
  }

  /** The seconds slept in all. */
  function TotalSleep(sleeps: seq<nat>): nat
    decreases |sleeps|
  {
    if sleeps == [] then 0 else TotalSleep(sleeps[..|sleeps| - 1]) + sleeps[|sleeps| - 1]
  }

  /** The first sleep lasts one second and each later one twice the one before, so `n`
      failed attempts sleep `2**n - 1` seconds in all: 7 after three. */
  lemma {:induction false} BackoffsDoubling(n: nat)
    ensures var r := Backoffs(n);
      && (n > 0 ==> r[0] == 1)
      && (forall i :: 0 < i < n ==> r[i] == 2 * r[i - 1])
      && TotalSleep(r) + 1 == Pow2(n)
    ensures Backoffs(MaxAttempts) == [1, 2, 4] && TotalSleep(Backoffs(MaxAttempts)) == 7
  {
    if n > 0 {
      BackoffsDoubling(n - 1);
      assert Backoffs(n)[..n - 1] == Backoffs(n - 1);
    }
    var b: seq<nat> := [1, 2, 4];
    assert Backoffs(3) == b;
    assert b[..2] == [1, 2] && b[..2][..1] == [1] && b[..2][..1][..0] == [];
  }

  /** How many of `requests` are downloads. */
  function DownloadCount(requests: seq<Request>): nat
    decreases |requests|
  {
    if requests == [] then 0
    else DownloadCount(requests[..|requests| - 1]) + (if requests[|requests| - 1].DownloadRequest? then 1 else 0)
  }

  lemma {:induction false} NoDownloadCount(requests: seq<Request>)
    requires NoDownload(requests)
    ensures DownloadCount(requests) == 0
    decreases |requests|
  {
    if requests != [] {
      NoDownloadCount(requests[..|requests| - 1]);
    }
  }

  lemma {:induction false} DownloadsCount(pre: seq<Request>, url: string, k: nat)
    requires NoDownload(pre)
    ensures DownloadCount(pre + Downloads(url, k)) == k
    decreases k
  {
    if k == 0 {
      assert pre + Downloads(url, 0) == pre;
      NoDownloadCount(pre);
    } else {
      DownloadsCount(pre, url, k - 1);
      assert (pre + Downloads(url, k))[..|pre| + k - 1] == pre + Downloads(url, k - 1);
    }
  }

  /** At most three download requests, at most two requests before them, and at most
      three sleeps of 1, 2 and 4 seconds. */
  lemma AttemptsBounded(query: string, savePath: string, web: Web)
    ensures var run := Fetch(query, savePath, web);
      && |run.sleeps| <= MaxAttempts
      && (forall i :: 0 <= i < |run.sleeps| ==> run.sleeps[i] == Pow2(i))
      && DownloadCount(run.requests) <= MaxAttempts
      && |run.requests| - DownloadCount(run.requests) <= 2
      && |run.requests| <= 2 + MaxAttempts
  {
    var run := Fetch(query, savePath, web);
    var params := SearchFor(query);
    if web.search(params).Ok? && web.search(params).value != [] {
      var title := web.search(params).value[0];
      var pre := [SearchRequest(params), InfoRequest(title)];
      assert NoDownload(pre);
      NoDownloadCount(pre);
      if web.info(title).Ok? && ImageUrl(title, web.info(title).value).Ok? {
        var url := ImageUrl(title, web.info(title).value).value;
        var k := FirstAccepted(web, url, savePath, 0);
        assert run == Retry(query, url, savePath, web, pre);
        if k < MaxAttempts {
          DownloadsCount(pre, url, k + 1);
        } else {
          DownloadsCount(pre, url, MaxAttempts);
        }
      }
    } else {
      assert NoDownload(run.requests);
      NoDownloadCount(run.requests);
    }
  }
}
