/** The two entry points of the bot: the `messageCreate` command handler and
    the body of the hourly timer. Each returns the embeds it sends, in order. */
module Bot {
  import opened Values
  import opened Rendering
  import opened Pipeline

  const HkCommand := "!hknews"

  const WorldCommand := "!worldnews"

  /** The feed a message's content asks for; the match is exact. */
  function Command(content: string): (feed: Option<Feed>)
    ensures feed == Some(HK) <==> content == HkCommand
    ensures feed == Some(World) <==> content == WorldCommand
    ensures feed == None <==> content != HkCommand && content != WorldCommand
  {
    if content == HkCommand then Some(HK)
    else if content == WorldCommand then Some(World)
    else None
  }

  /** Handles one message: one embed of the named feed for an exact command,
      nothing otherwise. `fetch` and `provider` are what that feed's run sees. */
  method HandleMessage(content: string, fetch: FetchOutcome, provider: Provider)
    returns (replies: seq<Embed>)
    ensures content == HkCommand ==> replies == [FeedEmbed(HK, fetch, provider)]
    ensures content == WorldCommand ==> replies == [FeedEmbed(World, fetch, provider)]
    ensures content != HkCommand && content != WorldCommand ==> replies == []
  {
    match Command(content)
    case None =>
      replies := [];
    case Some(feed) =>
      var embed := RunFeed(feed, fetch, provider);
      replies := [embed];
  }

  /** One firing of the hourly timer: when the channel is in the cache, the
      Hong Kong embed and then the world embed; otherwise nothing, and no feed
      is fetched. */
  method Tick(
    channelFound: bool,
    hkFetch: FetchOutcome, hkProvider: Provider,
    worldFetch: FetchOutcome, worldProvider: Provider)
    returns (sent: seq<Embed>)
    ensures !channelFound ==> sent == []
    ensures channelFound ==>
      sent == [FeedEmbed(HK, hkFetch, hkProvider), FeedEmbed(World, worldFetch, worldProvider)]
  {
    sent := [];
    if channelFound {
      var hk := RunFeed(HK, hkFetch, hkProvider);
      sent := sent + [hk];
      var world := RunFeed(World, worldFetch, worldProvider);
      sent := sent + [world];
    }
  }

  /** Whether an embed can only have come from `feed`: its heading and colour,
      or its error embed. */
  predicate FromFeed(feed: Feed, e: Embed)
  {
    (e.title == feed.heading && e.colour == feed.colour) || e == ErrorEmbed(feed)
  }

  /** Every embed of a feed is recognisably that feed's and not the other's,
      so a tick's first message is the Hong Kong one and its second the world one. */
  lemma EmbedNamesItsFeed(feed: Feed, other: Feed, fetch: FetchOutcome, provider: Provider)
    requires feed == HK || feed == World
    requires other == HK || other == World
    ensures FromFeed(other, FeedEmbed(feed, fetch, provider)) <==> feed == other
  {
    FeedEmbedError(feed, fetch, provider);
  }
}
