# News relay bot: the feed pipeline, modelled in Dafny

The bot posts news to a Discord channel. It has two feeds: Hong Kong news and
world news. Each feed runs the same pipeline:

1. Fetch the feed's query from the news API. Stop with an error when the HTTP
   status is not 2xx, when the body's `status` is not `'ok'`, or when
   `articles` cannot be sorted.
2. Sort the articles in place by `publishedAt`, newest first, and keep the
   first three. `Array.prototype.sort` is stable, so articles with the same
   time keep their fetch order.
3. Translate each kept title and each truthy description into zh-TW. A falsy
   text is sent as `無標題`. When a call fails, the original text is kept.
4. Render the embed: entries `N. **[title](url)**\ndescription`, joined by a
   blank line, or `沒有新聞` when nothing was kept. The image is the first
   entry's image.
5. Any error in steps 1-4 gives the feed's red `錯誤` embed. No error escapes.

The commands `!hknews` and `!worldnews` run one feed each. The hourly timer
sends the Hong Kong embed and then the world embed, but only when the channel
is in the client's cache.

Modules, one file each:

- `Values` (values.dfy): `Option`, `Result`, the text-valued JSON field `JsText`
  (`undefined`, `null` or a string), JavaScript truthiness, template insertion
  and the `Article` record.
- `Translation` (translation.dfy): `translateText`, with the provider's outcome
  given as an input.
- `Selection` (selection.dfy): the in-place stable sort on an `array` and the
  choice of the first three. A functional insertion sort, `StableSortDesc`,
  specifies the array method. Its properties are proved as lemmas: newest
  first, a permutation, ties kept in fetch order.
- `Rendering` (render.dfy): entry format, decimal numbering, `join`, and the
  embed.
- `Pipeline` (pipeline.dfy): the feed record, the response gate, the
  per-article mapping, the log of provider calls, the error embed, and
  `RunFeed`.
- `Bot` (bot.dfy): command dispatch and one timer tick.

The network and Discord are inputs and outputs here:

- A fetch result is `FetchOutcome`: the request failed, or a response with its
  HTTP status and its parsed body (`None` when `response.json()` rejects).
- The translation provider is a function from each call to its outcome. A call
  is the article's position, the field, and the `q` sent.
- Sends are the list of embeds a handler returns.

What the code does not do: there is no recency, source or headline filter;
the number of articles is fixed at 3; a falsy text is sent as `無標題`; an
entry is `N. **[title](url)**` over its description; the timer is a plain
3600000 ms interval with no alignment to the hour; within a tick the Hong Kong
embed is built and sent before the world embed is built.

## Model

| member | source | states |
|---|---|---|
| Translation.Query | index.js:16-20 | the `q` sent to the provider is never empty: the text when it is truthy, `無標題` otherwise |
| Translation.TranslateText | index.js:14-28 | the result is either the input text or the text the provider returned; `TranslateFallback` says which |
| Translation.TranslateFallback | index.js:21-27 | success returns the provider's `translatedText`; failure returns the input unchanged, also when it is empty or absent, never the placeholder that was sent |
| Selection.StableSortDesc | index.js:44 | sorting keeps the number of articles |
| Selection.StableSortDescNewestFirst | index.js:44 | the sorted list is ordered by `publishedAt`, non-increasing |
| Selection.StableSortDescPermutes | index.js:44 | the sorted list holds the fetched articles, each as often as fetched |
| Selection.StableSortDescKeepsTies | index.js:44 | stability: the articles sharing a timestamp appear in fetch order |
| Selection.Select | index.js:43-45 | `.sort(...).slice(0, 3)`: its size, order, origin and which articles it keeps are stated by the lemmas on the next rows |
| Selection.InsertIntoPrefix | index.js:44 | one pass of the in-place insertion: the array prefix becomes the stable insertion of the next element, the rest is untouched |
| Selection.SortNewestFirst | index.js:43-44 | the array, sorted in place, equals the stable descending sort of its old contents |
| Selection.SelectNewestInPlace | index.js:43-45 | sorts the array in place and returns its first min(3, n) entries |
| Selection.SelectSize | index.js:43-45 | the selection has min(3, n) articles and is a prefix of the sorted list |
| Selection.SelectNewestFirst | index.js:43-45 | the selected articles are newest first |
| Selection.SelectFromFetched | index.js:43-45 | the selection is a sub-multiset of the fetched articles |
| Selection.SelectKeepsNewer | index.js:43-45 | an article newer than a selected one is itself selected |
| Selection.NewestLeads | index.js:43-45 | the first selected article was fetched; no fetched article is newer; among those with its timestamp it is the first fetched |
| Rendering.Decimal | index.js:58 | the number of an entry is a non-empty string of decimal digits |
| Rendering.Entry | index.js:58 | one entry's text; `EntryNumber` states how it starts and `RenderEntries` where it sits in the body |
| Rendering.DecimalRoundTrip | index.js:58 | reading the numeral back gives the number; only 0 has a leading '0' |
| Rendering.Entries | index.js:58 | one entry per item |
| Rendering.Join | index.js:58 | `parts.join(sep)`; its layout is stated by `JoinSlot` |
| Rendering.JoinSlot | index.js:58 | `join` places part i at its offset, `sep` after every part but the last, and nothing after the last |
| Rendering.EntryNumber | index.js:58 | entry i starts with the numeral of i + 1 and `. **[` |
| Rendering.RenderEntries | index.js:57-59 | the body is exactly the entries in selection order, separated by a blank line |
| Rendering.Render | index.js:54-60 | the success embed; `RenderEmpty` and `RenderEntries` state its title, colour, body and image |
| Rendering.RenderEmpty | index.js:54-60 | the embed has the feed's heading and colour; the body is `沒有新聞` exactly when nothing was selected; the image is entry 0's image, or '' |
| Pipeline.Gate | index.js:34-42 | the fetched articles pass exactly when the request succeeded, the status is 2xx, the body parsed, its `status` is `'ok'` and `articles` is an array; a non-2xx status is reported as such |
| Pipeline.MapArticle | index.js:47-52 | the image is '' exactly when `urlToImage` is falsy; a falsy description is ''; the title is the original or the provider's text for that article's title call |
| Pipeline.Items | index.js:46-53 | one item per selected article, in selection order |
| Pipeline.ItemFields | index.js:47-52 | each item keeps `url`; the image is `urlToImage` or ''; the title is the translation when the call succeeds and the original when it fails; a falsy description is ''; a truthy one is its translation when the call succeeds and the original when it fails |
| Pipeline.ItemsWithoutProvider | index.js:46-53 | with every translation failing, titles and descriptions are the originals, not blanks |
| Pipeline.UntitledFailureShowsUndefined | index.js:48 | an article with no title whose translation fails renders the title `undefined` |
| Pipeline.ArticleCalls | index.js:47-52 | one article makes two provider calls when its description is truthy and one otherwise, all for that article and with a non-empty `q` |
| Pipeline.Calls | index.js:46-53 | the log of provider calls of the selection; stated by `CallsCount`, `CallsSound`, `CallsComplete` |
| Pipeline.CallsCount | index.js:46-53 | one provider call per selected title plus one per truthy description |
| Pipeline.CallsSound | index.js:46-53 | every call sends a non-empty `q` for a selected article; a description call is made only for a truthy description |
| Pipeline.CallsComplete | index.js:46-53 | every selected title and every truthy description is sent to the provider |
| Pipeline.ItemsDependOnlyOnCalls | index.js:46-53 | two providers that agree on every logged call give the same items: the mapping consults the provider on the logged calls and no others |
| Pipeline.ErrorEmbed | index.js:62-65 | the `catch` embed; stated by `FeedEmbedError` |
| Pipeline.FeedEmbed | index.js:30-66 | what a feed function resolves to; stated by `FeedEmbedError`, `FeedEmbedSuccess` and `RunFeed` |
| Pipeline.FeedEmbedError | index.js:62-65 | the embed is titled `錯誤` exactly when the gate fails, and it then is the feed's error embed, red `#FF0000` with the feed's message |
| Pipeline.FeedEmbedSuccess | index.js:54-61 | after a good response: the feed's heading and colour, `沒有新聞` exactly for an empty list, min(3, n) items, and the image of the newest article |
| Pipeline.FeedsShareLogic | index.js:30-104 | given the same response and translations, both feeds show the same body and image; on failure only the error text differs |
| Pipeline.RunFeed | index.js:30-66 | running a feed (gate, in-place sort and slice, translation, rendering) gives the feed's embed |
| Bot.Command | index.js:118-122 | `!hknews` names the HK feed and `!worldnews` the world feed, exactly; any other content names none |
| Bot.HandleMessage | index.js:117-123 | an exact command gets one embed of its feed; anything else, case or whitespace variants included, gets no reply |
| Bot.Tick | index.js:108-114 | no channel: nothing is sent; otherwise exactly two embeds, HK first, then World |
| Bot.EmbedNamesItsFeed | index.js:30-104 | every embed of a feed, success or error, is recognisably that feed's and not the other's |

## Left out

- The Discord client, login, intents and the channel cache lookup. The tick takes "channel found" as a boolean. `send` is modelled as the returned list of embeds.
- A rejected `channel.send`. In the source it would stop the tick before the world embed; the model assumes every send succeeds.
- The HTTP calls. `global.fetch`, `response.json()` and `axios.post` are replaced by their outcomes, given as inputs. The API keys and the request URLs are not built: `Feed.endpoint` records the query only.
- `Promise.all` concurrency. The translations are independent and never reject, so a sequential map gives the same items. The call log does not record the order in which calls are issued.
- The `setInterval` schedule. Only what one firing does is modelled.
- Date parsing. `publishedAt` is an already parsed integer. The NaN comparisons that unparsable dates cause are not modelled.
- Elements of `articles` that are not objects. In the source, `null` elements make the comparator or the map throw. The model's articles are always records.
- A `translatedText` that is neither a string, `null` nor absent.
- Console logging, and the colours of the success embeds beyond carrying them as data.
- The `EmbedBuilder` and its chained setters. Each setter is called once on a fresh builder, so the embed is modelled as one value; the setters' argument checks are covered on the next two lines.
- Rendering.RenderEmpty: argument checks made by the `EmbedBuilder` setters are not modelled. The setters run inside the `try` (index.js:54-60), and a builder that rejects its arguments would turn the embed into the `錯誤` embed. Some versions reject an empty image URL, a description longer than 4096 characters or a title longer than 256. With such a version, an empty article list or a newest article without `urlToImage` would give the error embed, not the `沒有新聞` / '' embed this member states. The library version is not recorded in the repository, so the model takes the setters as storing their arguments.
- Pipeline.FeedEmbedSuccess: for the same reason, the `沒有新聞` body and the '' image it states for an empty list or a newest article without `urlToImage` assume setters that store their arguments unchecked.
- Non-string JSON values in `title`, `description`, `url` and `urlToImage`. `JsText` holds only an absent field, `null` or a string. A number or boolean there has its own truthiness and its own `${}` text, which the model does not represent.
