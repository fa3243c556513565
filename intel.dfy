/** The bookkeeping of the intelligence collector: the cache of collected
    datasets keyed by source and query, the key filter of the export, the
    keyword sentiment counter and the status report. The Reddit, Twitter
    and GitHub clients are outside the model: whether a client exists and
    what a collection call returned (or that it raised) are parameters. */
module Intel {
  import opened Text
  import opened PyDict

  /** One collected record, as the client library shaped it. */
  type Record = string

  /** What a collection stores under its cache key. */
  datatype Dataset = RedditPosts(posts: seq<Record>) | TweetList(tweets: seq<Record>) | RepoData(repo: Record)

  datatype Sentiment = Sentiment(positive: real, negative: real, neutral: real)

  datatype SourceFlags = SourceFlags(reddit: bool, twitter: bool, github: bool)

  datatype CollectorStatus = CollectorStatus(
    redditConnected: bool,
    twitterConnected: bool,
    githubConnected: bool,
    cachedDatasets: nat,
    availableSources: SourceFlags)

  // ---------------------------------------------------------------------
  // Sentiment

  const PositiveWords: seq<string> := ["good", "great", "awesome", "excellent", "amazing", "love", "best", "perfect"]
  const NegativeWords: seq<string> := ["bad", "terrible", "awful", "hate", "worst", "horrible", "sucks", "disappointing"]

  datatype Tone = Positive | Negative | Neutral

  /** How one text counts: positive if it has a positive keyword, else
      negative if it has a negative one, else neutral; case is ignored. */
  function ToneOf(text: string): (t: Tone)
    ensures t == Positive <==> AnyIn(Lower(text), PositiveWords)
    ensures t == Negative <==> !AnyIn(Lower(text), PositiveWords) && AnyIn(Lower(text), NegativeWords)
  {
    var l := Lower(text);
    if AnyIn(l, PositiveWords) then Positive
    else if AnyIn(l, NegativeWords) then Negative
    else Neutral
  }

  /** Upper- or lower-case, a text gets the same tone. */
  lemma ToneIgnoresCase(text: string)
    ensures ToneOf(Upper(text)) == ToneOf(text)
  {
    LowerOfUpper(text);
  }

  /** How many of `texts` have tone `t`. */
  function CountTone(texts: seq<string>, t: Tone): (n: nat)
    ensures n <= |texts|
  {
    if |texts| == 0 then 0
    else CountTone(texts[..|texts| - 1], t) + (if ToneOf(texts[|texts| - 1]) == t then 1 else 0)
  }

  /** The count of one tone over one more text. */
  lemma CountToneStep(texts: seq<string>, i: nat, t: Tone)
    requires i < |texts|
    ensures CountTone(texts[..i + 1], t) == CountTone(texts[..i], t) + if ToneOf(texts[i]) == t then 1 else 0
  {
    assert texts[..i + 1][..i] == texts[..i];
  }

  /** Every text is counted under exactly one tone. */
  lemma {:induction false} TonesPartition(texts: seq<string>)
    ensures CountTone(texts, Positive) + CountTone(texts, Negative) + CountTone(texts, Neutral) == |texts|
  {
    if |texts| > 0 {
      TonesPartition(texts[..|texts| - 1]);
    }
  }

  /** `analyze_sentiment`: the share of positive, negative and neutral
      texts, all neutral for no texts. */
  method AnalyzeSentiment(texts: seq<string>) returns (s: Sentiment)
    ensures |texts| == 0 ==> s == Sentiment(0.0, 0.0, 1.0)
    ensures |texts| > 0 ==>
              && s.positive == CountTone(texts, Positive) as real / |texts| as real
              && s.negative == CountTone(texts, Negative) as real / |texts| as real
              && s.neutral == CountTone(texts, Neutral) as real / |texts| as real
    ensures 0.0 <= s.positive && 0.0 <= s.negative && 0.0 <= s.neutral
    ensures s.positive + s.negative + s.neutral == 1.0
  {
    var total := |texts|;
    if total == 0 {
      return Sentiment(0.0, 0.0, 1.0);
    }
    var positive: nat := 0;
    var negative: nat := 0;
    var i := 0;
    while i < total
      invariant 0 <= i <= total
      invariant positive == CountTone(texts[..i], Positive)
      invariant negative == CountTone(texts[..i], Negative)
    {
      CountToneStep(texts, i, Positive);
      CountToneStep(texts, i, Negative);
      var tone := ToneOf(texts[i]);
      if tone == Positive {
        positive := positive + 1;
      } else if tone == Negative {
        negative := negative + 1;
      }
      i := i + 1;
    }
    assert texts[..i] == texts;
    TonesPartition(texts);
    s := Shares(positive, negative, total);
  }

  /** The three ratios of `analyze_sentiment` for `p` positive and `q`
      negative texts out of `total`; the rest are neutral. */
  function Shares(p: nat, q: nat, total: nat): (s: Sentiment)
    requires total > 0 && p + q <= total
    ensures s.positive == p as real / total as real && s.negative == q as real / total as real
    ensures s.neutral == (total - p - q) as real / total as real
    ensures 0.0 <= s.positive && 0.0 <= s.negative && 0.0 <= s.neutral
    ensures s.positive + s.negative + s.neutral == 1.0
  {
    var t := total as real;
    var r := total - p - q;
    AddFractions(p as real, q as real, t);
    AddFractions(p as real + q as real, r as real, t);
    WholeFraction(t);
    Sentiment(p as real / t, q as real / t, r as real / t)
  }

  lemma AddFractions(x: real, y: real, t: real)
    requires t > 0.0
    ensures x / t + y / t == (x + y) / t
  {
  }

  lemma WholeFraction(t: real)
    requires t > 0.0
    ensures t / t == 1.0
  {
  }

  // ---------------------------------------------------------------------
  // Cache keys and export

  function RedditKey(subreddit: string): string { "reddit_" + subreddit }
  function TwitterKey(query: string): string { "twitter_" + query }
  function GitHubKey(repo: string): string { "github_" + repo }

  /** The keys of `keys` that contain `dataType`, in order. */
  function KeysWith(keys: seq<string>, dataType: string): (r: seq<string>)
    ensures forall k :: k in r <==> k in keys && Contains(k, dataType)
    ensures |r| <= |keys|
    ensures (forall i, j :: 0 <= i < j < |keys| ==> keys[i] != keys[j]) ==>
              (forall i, j :: 0 <= i < j < |r| ==> r[i] != r[j])
  {
    if |keys| == 0 then []
    else
      var rest := KeysWith(keys[..|keys| - 1], dataType);
      if Contains(keys[|keys| - 1], dataType) then rest + [keys[|keys| - 1]] else rest
  }

  /** The filter keeps the order of the keys: filtering two runs of keys
      joined is joining their filtered runs. */
  lemma {:induction false} KeysWithAppend(a: seq<string>, b: seq<string>, dataType: string)
    ensures KeysWith(a + b, dataType) == KeysWith(a, dataType) + KeysWith(b, dataType)
    decreases |b|
  {
    if |b| == 0 {
      assert a + b == a;
    } else {
      var front := b[..|b| - 1];
      var last := b[|b| - 1];
      KeysWithAppend(a, front, dataType);
      SplitLast(a, b);
      KeysWithSnoc(a + front, last, dataType);
      KeysWithSnoc(front, last, dataType);
      if Contains(last, dataType) {
        AppendAssoc(KeysWith(a, dataType), KeysWith(front, dataType), [last]);
      }
    }
  }

  /** `b` without its last element, and that element, rebuild `b` and `a + b`. */
  lemma SplitLast<T>(a: seq<T>, b: seq<T>)
    requires |b| > 0
    ensures b == b[..|b| - 1] + [b[|b| - 1]]
    ensures a + b == (a + b[..|b| - 1]) + [b[|b| - 1]]
  {
  }

  /** One more key at the end is kept at the end exactly when it contains
      the type. */
  lemma KeysWithSnoc(s: seq<string>, k: string, dataType: string)
    ensures KeysWith(s + [k], dataType) ==
      if Contains(k, dataType) then KeysWith(s, dataType) + [k] else KeysWith(s, dataType)
  {
    assert (s + [k])[..|s|] == s;
  }

  /** The datasets `export_data` writes out: all of them for "all",
      otherwise those whose key contains `dataType`, in cache order. */
  function ExportSelection(cache: Dict<string, Dataset>, dataType: string): (r: Dict<string, Dataset>)
    requires cache.Valid()
    ensures r.Valid()
    ensures forall k :: k in r.items <==> k in cache.items && (dataType == "all" || Contains(k, dataType))
    ensures forall k :: k in r.items ==> r.items[k] == cache.items[k]
    ensures dataType == "all" ==> r == cache
  {
    if dataType == "all" then cache
    else Dict(KeysWith(cache.keys, dataType), map k | k in cache.items && Contains(k, dataType) :: cache.items[k])
  }

  /** The prefix of a cache key is found by the export filter for its
      source. */
  lemma ExportBySource(cache: Dict<string, Dataset>, name: string)
    requires cache.Valid()
    ensures RedditKey(name) in cache.items ==> RedditKey(name) in ExportSelection(cache, "reddit").items
    ensures TwitterKey(name) in cache.items ==> TwitterKey(name) in ExportSelection(cache, "twitter").items
    ensures GitHubKey(name) in cache.items ==> GitHubKey(name) in ExportSelection(cache, "github").items
  {
    assert StartsWith(RedditKey(name), "reddit");
    assert StartsWith(TwitterKey(name), "twitter");
    assert StartsWith(GitHubKey(name), "github");
  }

  // ---------------------------------------------------------------------
  // The collector object

  class IntelligenceCollector {
    var redditConnected: bool
    var twitterConnected: bool
    var githubConnected: bool
    var dataCache: Dict<string, Dataset>
    /** Which client libraries could be imported. */
    const available: SourceFlags

    ghost predicate Valid()
      reads this
    {
      dataCache.Valid()
    }

    constructor(libraries: SourceFlags)
      ensures Valid() && available == libraries
      ensures !redditConnected && !twitterConnected && !githubConnected
      ensures dataCache.items == map[]
    {
      redditConnected := false;
      twitterConnected := false;
      githubConnected := false;
      dataCache := Empty();
      available := libraries;
    }

    /** `initialize`: a client is set up for each source whose library is
        available and whose client could be created (credentials present
        and no error); a failed set-up leaves the earlier client. */
    method Initialize(created: SourceFlags)
      requires Valid()
      modifies this
      ensures Valid()
      ensures redditConnected == (old(redditConnected) || (available.reddit && created.reddit))
      ensures twitterConnected == (old(twitterConnected) || (available.twitter && created.twitter))
      ensures githubConnected == (old(githubConnected) || (available.github && created.github))
      ensures dataCache == old(dataCache)
    {
      if available.reddit && created.reddit {
        redditConnected := true;
      }
      if available.twitter && created.twitter {
        twitterConnected := true;
      }
      if available.github && created.github {
        githubConnected := true;
      }
    }

    /** `collect_reddit_data`: `fetched` is the posts read, or None when
        the client raised. */
    method CollectRedditData(subreddit: string, fetched: Option<seq<Record>>) returns (posts: seq<Record>)
      requires Valid()
      modifies this
      ensures Valid()
      ensures !old(redditConnected) || fetched.None? ==> posts == [] && unchanged(this)
      ensures old(redditConnected) && fetched.Some? ==>
                && posts == fetched.value
                && dataCache == old(dataCache).Put(RedditKey(subreddit), RedditPosts(fetched.value))
                && redditConnected == old(redditConnected) && twitterConnected == old(twitterConnected)
                && githubConnected == old(githubConnected)
    {
      if !redditConnected || fetched.None? {
        return [];
      }
      posts := fetched.value;
      dataCache := dataCache.Put(RedditKey(subreddit), RedditPosts(posts));
    }

    /** `collect_twitter_data`: an empty search result is returned without
        caching anything. */
    method CollectTwitterData(query: string, fetched: Option<seq<Record>>) returns (tweets: seq<Record>)
      requires Valid()
      modifies this
      ensures Valid()
      ensures !old(twitterConnected) || fetched.None? || fetched == Some([]) ==> tweets == [] && unchanged(this)
      ensures old(twitterConnected) && fetched.Some? && fetched.value != [] ==>
                && tweets == fetched.value
                && dataCache == old(dataCache).Put(TwitterKey(query), TweetList(fetched.value))
                && redditConnected == old(redditConnected) && twitterConnected == old(twitterConnected)
                && githubConnected == old(githubConnected)
    {
      if !twitterConnected || fetched.None? || fetched.value == [] {
        return [];
      }
      tweets := fetched.value;
      dataCache := dataCache.Put(TwitterKey(query), TweetList(tweets));
    }

    /** `collect_github_data`: None stands for the empty result `{}`. */
    method CollectGitHubData(repo: string, fetched: Option<Record>) returns (data: Option<Record>)
      requires Valid()
      modifies this
      ensures Valid()
      ensures !old(githubConnected) || fetched.None? ==> data == None && unchanged(this)
      ensures old(githubConnected) && fetched.Some? ==>
                && data == fetched
                && dataCache == old(dataCache).Put(GitHubKey(repo), RepoData(fetched.value))
                && redditConnected == old(redditConnected) && twitterConnected == old(twitterConnected)
                && githubConnected == old(githubConnected)
    {
      if !githubConnected || fetched.None? {
        return None;
      }
      data := fetched;
      dataCache := dataCache.Put(GitHubKey(repo), RepoData(fetched.value));
    }

    /** What `export_data` serialises; writing the file is not modelled. */
    method ExportData(dataType: string) returns (exported: Dict<string, Dataset>)
      requires Valid()
      ensures exported == ExportSelection(dataCache, dataType)
    {
      if dataType == "all" {
        exported := dataCache;
      } else {
        exported := Dict(KeysWith(dataCache.keys, dataType),
                         map k | k in dataCache.items && Contains(k, dataType) :: dataCache.items[k]);
      }
    }

    /** `get_status` */
    method GetStatus() returns (s: CollectorStatus)
      requires Valid()
      ensures s.redditConnected == redditConnected && s.twitterConnected == twitterConnected
      ensures s.githubConnected == githubConnected && s.availableSources == available
      ensures s.cachedDatasets == |dataCache.items| == |dataCache.keys|
    {
      dataCache.Size();
      s := CollectorStatus(redditConnected, twitterConnected, githubConnected, |dataCache.keys|, available);
    }
  }
}
