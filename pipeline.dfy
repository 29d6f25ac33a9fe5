/** One news feed end to end (`getHKNews` and `getWorldNews`, which differ
    only in their query, heading, colour and error text): the response gate,
    the selection, the per-article translation, the rendering, and the error
    embed that replaces everything when any step throws. */
module Pipeline {
  import opened Values
  import opened Translation
  import opened Selection
  import opened Rendering

  /** What sets one feed apart from the other. `endpoint` is the news API query
      the API key is appended to; it is recorded as data only, since the
      request itself is replaced by its outcome (`FetchOutcome`). */
  datatype Feed = Feed(endpoint: string, heading: string, colour: string, errorText: string)

  const HK := Feed(
    "https://newsapi.org/v2/everything?q=hong+kong&language=en&sortBy=publishedAt&apiKey=",
    "香港重點新聞播報", "#FF4500", "無法獲取香港新聞，請檢查 API Key 或網路。")

  const World := Feed(
    "https://newsapi.org/v2/top-headlines?language=en&sortBy=publishedAt&apiKey=",
    "國際重點新聞播報", "#1E90FF", "無法獲取國際新聞，請檢查 API Key 或網路。")

  const ErrorTitle := "錯誤"

  const ErrorColour := "#FF0000"

  /** The parsed JSON body: its `status` field and, when `articles` is an
      array, its elements. */
  datatype Payload = Payload(status: JsText, articles: Option<seq<Article>>)

  /** What `fetch` and `response.json()` produced: the request itself failed,
      or a response with its HTTP status and its body when that parsed. */
  datatype FetchOutcome = NetworkFailure | Response(status: int, body: Option<Payload>)

  /** The exceptions that end the `try` block. */
  datatype FetchError =
    | Transport                // fetch rejected
    | HttpStatus(code: int)    // !response.ok
    | UnreadableBody           // response.json() rejected
    | ApiStatus                // data.status !== 'ok'
    | ArticlesNotAnArray       // data.articles.sort is not a function

  /** `response.ok`: a status in the range 200-299. */
  predicate StatusOk(status: int)
  {
    200 <= status <= 299
  }

  /** The checks before selection, in the order the code makes them. */
  function Gate(fetch: FetchOutcome): (r: Result<seq<Article>, FetchError>)
    ensures r.Success? <==>
      && fetch.Response? && StatusOk(fetch.status)
      && fetch.body.Some? && fetch.body.value.status == Str("ok")
      && fetch.body.value.articles.Some?
    ensures r.Success? ==> r.value == fetch.body.value.articles.value
    ensures fetch.Response? && !StatusOk(fetch.status) ==> r == Failure(HttpStatus(fetch.status))
  {
    match fetch
    case NetworkFailure => Failure(Transport)
    case Response(status, body) =>
      if !StatusOk(status) then Failure(HttpStatus(status))
      else if body.None? then Failure(UnreadableBody)
      else if body.value.status != Str("ok") then Failure(ApiStatus)
      else if body.value.articles.None? then Failure(ArticlesNotAnArray)
      else Success(body.value.articles.value)
  }

  datatype Field = TitleField | DescriptionField

  /** One call of `translateText` that reaches the provider: which selected
      article, which field, and the `q` sent. */
  datatype Call = Call(article: nat, field: Field, q: string)

  /** The translation provider's outcome for each call (see `TranslateText`). */
  type Provider = Call -> Option<JsText>

  /** The `.map` callback for the article at position `i` of the selection. */
  function MapArticle(provider: Provider, i: nat, a: Article): (item: Item)
    ensures item.image == "" <==> !Truthy(a.urlToImage)
    ensures !Truthy(a.description) ==> item.description == Str("")
    ensures item.title == a.title || Some(item.title) == provider(Call(i, TitleField, Query(a.title)))
  {
    Item(
      TranslateText(a.title, provider(Call(i, TitleField, Query(a.title)))),
      if Truthy(a.description)
      then TranslateText(a.description, provider(Call(i, DescriptionField, Query(a.description))))
      else Str(""),
      a.url,
      OrElse(a.urlToImage, ""))
  }

  /** `Promise.all(articles.map(...))`: the items in selection order. */
  function Items(provider: Provider, selected: seq<Article>): (items: seq<Item>)
    ensures |items| == |selected|
  {
    seq(|selected|, i requires 0 <= i < |selected| => MapArticle(provider, i, selected[i]))
  }

  /** Each item keeps its article's url; its image is `urlToImage` or ''; its
      title is the provider's translation or the original title; a falsy
      description becomes '' and a truthy one its translation or itself. */
  lemma ItemFields(provider: Provider, selected: seq<Article>, i: nat)
    requires i < |selected|
    ensures var a, item := selected[i], Items(provider, selected)[i];
      && item.url == a.url
      && item.image == (if Truthy(a.urlToImage) then a.urlToImage.s else "")
      && (provider(Call(i, TitleField, Query(a.title))).None? ==> item.title == a.title)
      && (provider(Call(i, TitleField, Query(a.title))).Some? ==>
            item.title == provider(Call(i, TitleField, Query(a.title))).value)
      && (!Truthy(a.description) ==> item.description == Str(""))
      && (Truthy(a.description) && provider(Call(i, DescriptionField, a.description.s)).None? ==>
            item.description == a.description)
      && (Truthy(a.description) && provider(Call(i, DescriptionField, a.description.s)).Some? ==>
            item.description == provider(Call(i, DescriptionField, a.description.s)).value)
  {
  }

  /** With the provider unreachable, every item shows its original title and
      description, not a blank or the placeholder. */
  lemma ItemsWithoutProvider(selected: seq<Article>)
    ensures forall i | 0 <= i < |selected| ::
      && Items(_ => None, selected)[i].title == selected[i].title
      && Items(_ => None, selected)[i].description
           == (if Truthy(selected[i].description) then selected[i].description else Str(""))
  {
  }

  /** An article without a title whose translation fails shows the text
      "undefined": the placeholder went to the provider only. */
  lemma UntitledFailureShowsUndefined(provider: Provider, selected: seq<Article>, i: nat)
    requires i < |selected| && selected[i].title == Undefined
    requires provider(Call(i, TitleField, Placeholder)).None?
    ensures Template(Items(provider, selected)[i].title) == "undefined"
  {
  }

  /** The provider calls one article makes: its title always, its description
      only when that is truthy. */
  function ArticleCalls(i: nat, a: Article): (calls: seq<Call>)
    ensures |calls| == (if Truthy(a.description) then 2 else 1)
    ensures forall c | c in calls :: c.article == i && c.q != ""
  {
    [Call(i, TitleField, Query(a.title))]
      + (if Truthy(a.description) then [Call(i, DescriptionField, Query(a.description))] else [])
  }

  /** The provider calls made for `selected`, whose first article has position
      `first`; the interleaving `Promise.all` allows is not recorded. */
  function Calls(selected: seq<Article>, first: nat): seq<Call>
  {
    if |selected| == 0 then []
    else ArticleCalls(first, selected[0]) + Calls(selected[1..], first + 1)
  }

  /** How many of the articles have a truthy description. */
  function Described(selected: seq<Article>): nat
  {
    if |selected| == 0 then 0
    else (if Truthy(selected[0].description) then 1 else 0) + Described(selected[1..])
  }

  /** One title call per article and one per truthy description. */
  lemma {:induction false} CallsCount(selected: seq<Article>, first: nat)
    ensures |Calls(selected, first)| == |selected| + Described(selected)
    decreases |selected|
  {
    if |selected| > 0 {
      CallsCount(selected[1..], first + 1);
    }
  }

  /** Every call made belongs to a selected article and sends a non-empty `q`:
      its title, or the placeholder; a description call is made only for a
      truthy description, and sends that description. */
  lemma {:induction false} CallsSound(selected: seq<Article>, first: nat)
    ensures forall c | c in Calls(selected, first) ::
      && c.q != ""
      && first <= c.article < first + |selected|
      && (c.field == TitleField ==> c.q == Query(selected[c.article - first].title))
      && (c.field == DescriptionField ==>
            Truthy(selected[c.article - first].description)
            && c.q == selected[c.article - first].description.s)
    decreases |selected|
  {
    if |selected| > 0 {
      var rest := selected[1..];
      CallsSound(rest, first + 1);
      var own, later := ArticleCalls(first, selected[0]), Calls(rest, first + 1);
      assert Calls(selected, first) == own + later;
      forall c | c in later
        ensures selected[c.article - first] == rest[c.article - (first + 1)]
      {
      }
    }
  }

  /** Every selected article's title is sent, and every truthy description. */
  lemma {:induction false} CallsComplete(selected: seq<Article>, first: nat)
    ensures forall i | 0 <= i < |selected| ::
      Call(first + i, TitleField, Query(selected[i].title)) in Calls(selected, first)
    ensures forall i | 0 <= i < |selected| && Truthy(selected[i].description) ::
      Call(first + i, DescriptionField, selected[i].description.s) in Calls(selected, first)
    decreases |selected|
  {
    if |selected| > 0 {
      var rest := selected[1..];
      CallsComplete(rest, first + 1);
      var own, later := ArticleCalls(first, selected[0]), Calls(rest, first + 1);
      assert Calls(selected, first) == own + later;
      forall i | 0 < i < |selected|
        ensures Call(first + i, TitleField, Query(selected[i].title)) in later
        ensures Truthy(selected[i].description) ==>
                  Call(first + i, DescriptionField, selected[i].description.s) in later
      {
        assert rest[i - 1] == selected[i];
        assert first + i == first + 1 + (i - 1);
      }
    }
  }

  /** The items depend on the provider only through the calls in the log: two
      providers that agree on every logged call give the same items, so no
      other call, such as one for a falsy description, is made. */
  lemma ItemsDependOnlyOnCalls(p1: Provider, p2: Provider, selected: seq<Article>)
    requires forall c | c in Calls(selected, 0) :: p1(c) == p2(c)
    ensures Items(p1, selected) == Items(p2, selected)
  {
    CallsComplete(selected, 0);
    forall i | 0 <= i < |selected|
      ensures Items(p1, selected)[i] == Items(p2, selected)[i]
    {
      var a := selected[i];
      assert Call(0 + i, TitleField, Query(a.title)) in Calls(selected, 0);
      if Truthy(a.description) {
        assert Call(0 + i, DescriptionField, a.description.s) in Calls(selected, 0);
      }
    }
  }

  /** The embed of the `catch` block. */
  function ErrorEmbed(feed: Feed): Embed
  {
    Embed(ErrorTitle, ErrorColour, feed.errorText, None)
  }

  /** What `getHKNews()` / `getWorldNews()` resolve to. */
  function FeedEmbed(feed: Feed, fetch: FetchOutcome, provider: Provider): Embed
  {
    match Gate(fetch)
    case Failure(_) => ErrorEmbed(feed)
    case Success(articles) => Render(feed.heading, feed.colour, Items(provider, Select(articles)))
  }

  /** The error embed comes back exactly when a check of the gate fails; it is
      then the feed's own, and no failure escapes. */
  lemma FeedEmbedError(feed: Feed, fetch: FetchOutcome, provider: Provider)
    requires feed == HK || feed == World
    ensures FeedEmbed(feed, fetch, provider).title == ErrorTitle <==> Gate(fetch).Failure?
    ensures Gate(fetch).Failure? ==>
      FeedEmbed(feed, fetch, provider) == Embed(ErrorTitle, ErrorColour, feed.errorText, None)
  {
    if Gate(fetch).Success? {
      RenderEmpty(feed.heading, feed.colour, Items(provider, Select(Gate(fetch).value)));
    }
  }

  /** After a good response: the feed's heading and colour, "no news" exactly
      when the article list was empty, otherwise min(3, n) entries and the
      image of the newest article, which is the first fetched of those
      published at the latest time. */
  lemma FeedEmbedSuccess(feed: Feed, fetch: FetchOutcome, provider: Provider)
    requires Gate(fetch).Success?
    ensures var e, articles := FeedEmbed(feed, fetch, provider), Gate(fetch).value;
      && e.title == feed.heading && e.colour == feed.colour
      && (e.description == NoNews <==> |articles| == 0)
      && (|articles| == 0 ==> e.image == Some(""))
    ensures var e, articles := FeedEmbed(feed, fetch, provider), Gate(fetch).value;
      |articles| > 0 ==>
        var newest := StableSortDesc(articles)[0];
        && e.image == Some(OrElse(newest.urlToImage, ""))
        && newest in articles
        && (forall a | a in articles :: a.publishedAt <= newest.publishedAt)
        && |PublishedAt(articles, newest.publishedAt)| > 0
        && newest == PublishedAt(articles, newest.publishedAt)[0]
    ensures |Items(provider, Select(Gate(fetch).value))| == Min(MaxArticles, |Gate(fetch).value|)
  {
    var articles := Gate(fetch).value;
    var items := Items(provider, Select(articles));
    SelectSize(articles);
    RenderEmpty(feed.heading, feed.colour, items);
    if |articles| > 0 {
      NewestLeads(articles);
      assert Select(articles)[0] == StableSortDesc(articles)[0];
    }
  }

  /** The two feeds run the same logic: given the same response and
      translations they show the same body and image, and on failure the same
      error embed but for its text. */
  lemma FeedsShareLogic(fetch: FetchOutcome, provider: Provider)
    ensures var hk, world := FeedEmbed(HK, fetch, provider), FeedEmbed(World, fetch, provider);
      && hk.image == world.image
      && (Gate(fetch).Success? ==> hk.description == world.description)
      && (Gate(fetch).Failure? ==> hk.description == HK.errorText && world.description == World.errorText)
  {
  }

  /** Runs one feed: the gate, the in-place sort of the fetched array and its
      first three entries, the translations, the embed. */
  method RunFeed(feed: Feed, fetch: FetchOutcome, provider: Provider) returns (embed: Embed)
    ensures embed == FeedEmbed(feed, fetch, provider)
  {
    var gate := Gate(fetch);
    if gate.Failure? {
      return ErrorEmbed(feed);
    }
    var fetched := gate.value;
    var articles := new Article[|fetched|](i requires 0 <= i < |fetched| => fetched[i]);
    assert articles[..] == fetched;
    var selected := SelectNewestInPlace(articles);
    var items := Items(provider, selected);
    embed := Render(feed.heading, feed.colour, items);
  }
}
