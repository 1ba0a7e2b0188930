/** Headline selection: the checks on the API key and the selector, the query
    parameters of the top-headlines request, and the choice of headlines from
    the articles of the reply. */
module NewsClient {
  import opened Wrappers
  import opened Environment
  import Text

  /** The `keywords` argument: None, a bare string, or a collection of terms. */
  datatype Keywords = Absent | Phrase(text: string) | Terms(terms: seq<string>)

  /** Python truthiness of `keywords` as passed in. */
  predicate KeywordsTruthy(k: Keywords) {
    match k
    case Absent => false
    case Phrase(t) => t != ""
    case Terms(ts) => ts != []
  }

  /** `keywords` after a bare string has been wrapped in a list. */
  function AsTerms(k: Keywords): seq<string> {
    match k
    case Absent => []
    case Phrase(t) => [t]
    case Terms(ts) => ts
  }

  const API_KEY_VAR := "NEWS_API_KEY"
  const TOP_HEADLINES_URL := "https://newsapi.org/v2/top-headlines"
  const REQUEST_TIMEOUT := 10
  const MIN_LIMIT := 3
  const MAX_LIMIT := 5

  /** max(3, min(5, limit)) */
  function Clamp(limit: int): (r: int)
    ensures MIN_LIMIT <= r <= MAX_LIMIT
    ensures MIN_LIMIT <= limit <= MAX_LIMIT ==> r == limit
    ensures limit < MIN_LIMIT ==> r == MIN_LIMIT
    ensures limit > MAX_LIMIT ==> r == MAX_LIMIT
  {
    var upper := if limit < MAX_LIMIT then limit else MAX_LIMIT;
    if upper > MIN_LIMIT then upper else MIN_LIMIT
  }

  /** A query parameter; requests sends the integer as its decimal text. */
  datatype ParamValue = StrParam(s: string) | IntParam(n: int)

  type Params = map<string, ParamValue>

  datatype Request = Request(url: string, params: Params, timeout: int)

  /** The fields of an article that are read; a JSON null or a missing key is
      None. */
  datatype Article = Article(title: Option<string>, url: Option<string>)

  /** One {"title": ..., "url": ...} entry of the result. */
  datatype Headline = Headline(title: string, url: string)

  /** What comes back: an HTTP error status, or a JSON body that may lack the
      "articles" key. */
  datatype Reply = HttpFailure(status: int) | Json(articles: Option<seq<Article>>)

  /** EnvironmentError, ValueError and requests.HTTPError. */
  datatype NewsError = MissingApiKey | NoSelector | HttpError(status: int)

  /** The parameters sent for a given key, selector and clamped limit: always
      the key and the page size; `q` exactly when the keywords (after wrapping)
      are non-empty; `category` exactly when there is no such `q` and the
      category is non-empty; nothing else. */
  predicate QueryFor(p: Params, key: string, keywords: Keywords, category: Option<string>, limit: int) {
    var terms := AsTerms(keywords);
    (forall name | name in p :: name in {"apiKey", "pageSize", "q", "category"})
    && "apiKey" in p && p["apiKey"] == StrParam(key)
    && "pageSize" in p && p["pageSize"] == IntParam(limit)
    && ("q" in p <==> terms != [])
    && ("q" in p ==> p["q"] == StrParam(Text.Join(terms, " ")))
    && ("category" in p <==> terms == [] && Truthy(category))
    && ("category" in p ==> p["category"] == StrParam(category.value))
  }

  /** An article makes it into the result when its title and url are both
      non-empty. */
  predicate IsListed(a: Article) {
    Truthy(a.title) && Truthy(a.url)
  }

  /** The articles that make it into the result, in order. */
  function Listed(xs: seq<Article>): seq<Article> {
    if xs == [] then []
    else (if IsListed(xs[0]) then [xs[0]] else []) + Listed(xs[1..])
  }

  function ToHeadline(a: Article): Headline {
    Headline(a.title.GetOr(""), a.url.GetOr(""))
  }

  function ToHeadlines(xs: seq<Article>): seq<Headline> {
    if xs == [] then [] else [ToHeadline(xs[0])] + ToHeadlines(xs[1..])
  }

  /** articles[:limit] */
  function Window(articles: seq<Article>, limit: nat): (w: seq<Article>)
    ensures |w| <= limit && w <= articles
    ensures |articles| >= limit ==> |w| == limit
  {
    if |articles| <= limit then articles else articles[..limit]
  }

  /** The headlines chosen from the first `limit` articles. */
  function Selected(articles: seq<Article>, limit: nat): seq<Headline> {
    ToHeadlines(Listed(Window(articles, limit)))
  }

  /** The result for a reply to the request. */
  function Outcome(reply: Reply, limit: nat): Result<seq<Headline>, NewsError> {
    match reply
    case HttpFailure(status) => Failure(HttpError(status))
    case Json(articles) => Success(Selected(articles.GetOr([]), limit))
  }

  /** fetch_top_headlines. The reply to the request is `api(request)`; the
      request is returned so that the contract can say whether one was sent and
      what it carried. */
  method FetchTopHeadlines(env: Env, api: Request -> Reply, keywords: Keywords := Absent,
                           category: Option<string> := None, limit: int := 5)
    returns (result: Result<seq<Headline>, NewsError>, request: Option<Request>)
    ensures !Truthy(Getenv(env, API_KEY_VAR)) ==> result == Failure(MissingApiKey) && request == None
    ensures Truthy(Getenv(env, API_KEY_VAR)) && !KeywordsTruthy(keywords) && !Truthy(category) ==>
      result == Failure(NoSelector) && request == None
    ensures Truthy(Getenv(env, API_KEY_VAR)) && (KeywordsTruthy(keywords) || Truthy(category)) ==>
      request.Some?
      && request.value.url == TOP_HEADLINES_URL && request.value.timeout == REQUEST_TIMEOUT
      && QueryFor(request.value.params, env[API_KEY_VAR], keywords, category, Clamp(limit))
      && result == Outcome(api(request.value), Clamp(limit))
  {
    var apiKey := Getenv(env, API_KEY_VAR);
    if !Truthy(apiKey) {
      return Failure(MissingApiKey), None;
    }
    if !KeywordsTruthy(keywords) && !Truthy(category) {
      return Failure(NoSelector), None;
    }
    var terms := AsTerms(keywords);
    var pageSize := Clamp(limit);
    var params: Params := map["apiKey" := StrParam(apiKey.value), "pageSize" := IntParam(pageSize)];
    if terms != [] {
      params := params["q" := StrParam(Text.Join(terms, " "))];
    } else if Truthy(category) {
      params := params["category" := StrParam(category.value)];
    }
    request := Some(Request(TOP_HEADLINES_URL, params, REQUEST_TIMEOUT));
    var reply := api(request.value);
    if reply.HttpFailure? {
      return Failure(HttpError(reply.status)), request;
    }
    var articles := reply.articles.GetOr([]);
    var headlines := CollectHeadlines(Window(articles, pageSize));
    result := Success(headlines);
  }

  /** The loop over articles[:limit], appending the entries with a title and
      a url. */
  method CollectHeadlines(window: seq<Article>) returns (results: seq<Headline>)
    ensures results == ToHeadlines(Listed(window))
  {
    results := [];
    var i := 0;
    while i < |window|
      invariant 0 <= i <= |window|
      invariant results == ToHeadlines(Listed(window[..i]))
    {
      var article := window[i];
      ListedSnoc(window, i);
      if Truthy(article.title) && Truthy(article.url) {
        ToHeadlinesAppend(Listed(window[..i]), [article]);
        results := results + [Headline(article.title.value, article.url.value)];
      } else {
        assert Listed(window[..i + 1]) == Listed(window[..i]);
      }
      i := i + 1;
    }
    assert window[..|window|] == window;
  }

  lemma ListedSnoc(xs: seq<Article>, i: nat)
    requires i < |xs|
    ensures Listed(xs[..i + 1]) == Listed(xs[..i]) + (if IsListed(xs[i]) then [xs[i]] else [])
  {
    assert xs[..i + 1] == xs[..i] + [xs[i]];
    ListedAppend(xs[..i], [xs[i]]);
    assert Listed([xs[i]]) == (if IsListed(xs[i]) then [xs[i]] else []) + Listed([]);
  }

  lemma {:induction false} ListedAppend(xs: seq<Article>, ys: seq<Article>)
    ensures Listed(xs + ys) == Listed(xs) + Listed(ys)
  {
    if xs == [] {
      assert xs + ys == ys;
    } else {
      assert (xs + ys)[1..] == xs[1..] + ys;
      ListedAppend(xs[1..], ys);
    }
  }

  lemma {:induction false} ToHeadlinesAppend(xs: seq<Article>, ys: seq<Article>)
    ensures ToHeadlines(xs + ys) == ToHeadlines(xs) + ToHeadlines(ys)
  {
    if xs == [] {
      assert xs + ys == ys;
    } else {
      assert (xs + ys)[1..] == xs[1..] + ys;
      ToHeadlinesAppend(xs[1..], ys);
    }
  }

  // ---------------------------------------------------------------------------
  // Properties
  // ---------------------------------------------------------------------------

  /** Keywords win over the category: with truthy keywords the query has `q`
      and no `category`; a bare string is sent unchanged. */
  lemma KeywordsTakePrecedence(p: Params, key: string, keywords: Keywords, category: Option<string>, limit: int)
    requires QueryFor(p, key, keywords, category, limit) && KeywordsTruthy(keywords)
    ensures "q" in p && "category" !in p
    ensures keywords.Phrase? ==> p["q"] == StrParam(keywords.text)
  {
  }

  /** The category is sent only when there are no keywords at all. */
  lemma CategoryWithoutKeywords(p: Params, key: string, keywords: Keywords, category: Option<string>, limit: int)
    requires QueryFor(p, key, keywords, category, limit) && !KeywordsTruthy(keywords) && Truthy(category)
    ensures "category" in p <==> !keywords.Phrase?
  {
  }

  /** A listed article carries a non-empty title and url into its headline. */
  lemma {:induction false} ListedAreListed(xs: seq<Article>)
    ensures forall i :: 0 <= i < |Listed(xs)| ==> IsListed(Listed(xs)[i])
  {
    if xs != [] {
      ListedAreListed(xs[1..]);
    }
  }

  /** An article is kept exactly when it is in the input and has a title and a
      url. */
  lemma {:induction false} ListedMembers(xs: seq<Article>, a: Article)
    ensures a in Listed(xs) <==> a in xs && IsListed(a)
  {
    if xs != [] {
      ListedMembers(xs[1..], a);
      assert xs == [xs[0]] + xs[1..];
    }
  }

  /** The kept articles are an order-preserving subsequence of the input. */
  lemma {:induction false} ListedSubsequence(xs: seq<Article>)
    ensures IsSubsequence(Listed(xs), xs)
  {
    if xs != [] {
      ListedSubsequence(xs[1..]);
      if IsListed(xs[0]) {
        assert Listed(xs)[0] == xs[0] && Listed(xs)[1..] == Listed(xs[1..]);
      } else {
        assert Listed(xs) == Listed(xs[1..]);
      }
    }
  }

  lemma {:induction false} ListedShorter(xs: seq<Article>)
    ensures |Listed(xs)| <= |xs|
  {
    if xs != [] {
      ListedShorter(xs[1..]);
    }
  }

  lemma {:induction false} ToHeadlinesEach(xs: seq<Article>)
    ensures |ToHeadlines(xs)| == |xs|
    ensures forall i :: 0 <= i < |xs| ==> ToHeadlines(xs)[i] == ToHeadline(xs[i])
  {
    if xs != [] {
      ToHeadlinesEach(xs[1..]);
    }
  }

  /** The result has at most `limit` entries, each with a non-empty title and
      url taken from one of the first `limit` articles, in article order. */
  lemma SelectedShape(articles: seq<Article>, limit: nat)
    ensures |Selected(articles, limit)| <= limit
    ensures forall i :: 0 <= i < |Selected(articles, limit)| ==>
      Selected(articles, limit)[i].title != "" && Selected(articles, limit)[i].url != ""
    ensures IsSubsequence(Selected(articles, limit), ToHeadlines(Window(articles, limit)))
  {
    var w := Window(articles, limit);
    var kept := Listed(w);
    ListedShorter(w);
    ListedAreListed(w);
    ToHeadlinesEach(kept);
    ListedSubsequence(w);
    HeadlinesSubsequence(kept, w);
  }

  /** Turning articles into entries keeps an order-preserving subsequence one. */
  lemma {:induction false} HeadlinesSubsequence(xs: seq<Article>, ys: seq<Article>)
    requires IsSubsequence(xs, ys)
    ensures IsSubsequence(ToHeadlines(xs), ToHeadlines(ys))
    decreases |ys|
  {
    if xs != [] {
      var hs, gs := ToHeadlines(xs), ToHeadlines(ys);
      assert hs[0] == ToHeadline(xs[0]) && hs[1..] == ToHeadlines(xs[1..]);
      assert gs[0] == ToHeadline(ys[0]) && gs[1..] == ToHeadlines(ys[1..]);
      if xs[0] == ys[0] && IsSubsequence(xs[1..], ys[1..]) {
        HeadlinesSubsequence(xs[1..], ys[1..]);
      } else {
        HeadlinesSubsequence(xs, ys[1..]);
      }
    }
  }

  /** Truncation comes before filtering: three articles without a title use up
      a limit of 3, so a valid fourth article is never reached. */
  lemma TruncateBeforeFilter(good: Article, bad: Article)
    requires IsListed(good) && !IsListed(bad)
    ensures Selected([bad, bad, bad, good], 3) == []
    ensures Listed([bad, bad, bad, good]) == [good]
  {
    var xs := [bad, bad, bad, good];
    assert Window(xs, 3) == [bad, bad, bad];
    assert [bad][1..] == [] && [good][1..] == [];
    assert Listed([bad]) == [] && Listed([good]) == [good];
    assert [bad, bad][1..] == [bad] && [bad, good][1..] == [good];
    assert Listed([bad, bad]) == [] && Listed([bad, good]) == [good];
    assert [bad, bad, bad][1..] == [bad, bad] && [bad, bad, good][1..] == [bad, good];
    assert Listed([bad, bad, bad]) == [] && Listed([bad, bad, good]) == [good];
    assert xs[1..] == [bad, bad, good];
  }

  /** An empty bare string is falsy for the selector check but becomes the
      truthy list [""] afterwards, so with a category it sends an empty `q` and
      no category. */
  lemma EmptyPhraseSendsEmptyQuery(p: Params, key: string, category: Option<string>, limit: int)
    requires QueryFor(p, key, Phrase(""), category, limit) && Truthy(category)
    ensures !KeywordsTruthy(Phrase(""))
    ensures "q" in p && p["q"] == StrParam("") && "category" !in p
  {
  }
}
