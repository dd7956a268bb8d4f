/** `generateDailySummary` of `src/lib/summary-generator.ts`: the unread
    window query, the result cases, and the prompt listing it sends. The
    listing is built by `DigestPrompt`; the model's reply is an input. */
module DigestGenerator {
  import opened Wrappers
  import Store
  import ChatApi
  import DigestPrompt
  import Ordering
  import Strings
  import Seqs

  /** Items fetched for one digest, at most. */
  const FetchLimit: nat := 100

  /** The query's `where`: unread, published in the last 24 hours, in one of
      the user's feeds. */
  predicate InWindow(feeds: seq<Store.Feed>, userId: Store.Id, now: Store.Time, item: Store.Item) {
    !item.read && item.pubDate >= now - Store.DayMillis && Store.OwnedBy(feeds, item, userId)
  }

  function Eligible(feeds: seq<Store.Feed>, items: seq<Store.Item>, userId: Store.Id, now: Store.Time): seq<Store.Item> {
    Seqs.Filter(items, (i: Store.Item) => InWindow(feeds, userId, now, i))
  }

  function PubDate(i: Store.Item): int {
    i.pubDate
  }

  /** `findMany({ where, orderBy: { pubDate: "desc" }, take: 100 })`. */
  function FetchWindow(feeds: seq<Store.Feed>, items: seq<Store.Item>, userId: Store.Id, now: Store.Time): (r: seq<Store.Item>)
    ensures |r| <= FetchLimit
    ensures |r| == if |Eligible(feeds, items, userId, now)| < FetchLimit then |Eligible(feeds, items, userId, now)| else FetchLimit
    ensures forall x :: x in r ==> InWindow(feeds, userId, now, x)
    ensures Ordering.SortedDesc(r, PubDate)
    ensures multiset(r) <= multiset(Eligible(feeds, items, userId, now))
  {
    var e := Eligible(feeds, items, userId, now);
    var sorted := Ordering.SortDesc(e, PubDate);
    assert |sorted| == |multiset(sorted)| == |e|;
    var k := if |sorted| < FetchLimit then |sorted| else FetchLimit;
    Ordering.SortedDescPrefix(sorted, PubDate, k);
    forall x | x in sorted[..k] ensures InWindow(feeds, userId, now, x) {
      EligibleInWindow(feeds, items, userId, now, x);
    }
    sorted[..k]
  }

  lemma EligibleInWindow(feeds: seq<Store.Feed>, items: seq<Store.Item>, userId: Store.Id, now: Store.Time, x: Store.Item)
    requires x in multiset(Ordering.SortDesc(Eligible(feeds, items, userId, now), PubDate))
    ensures InWindow(feeds, userId, now, x)
  {
    var e := Eligible(feeds, items, userId, now);
    assert x in multiset(e);
    assert x in e;
  }

  /** The fetch keeps the newest items: every eligible item left out is no
      newer than any item fetched. */
  lemma FetchWindowNewest(feeds: seq<Store.Feed>, items: seq<Store.Item>, userId: Store.Id, now: Store.Time,
                          x: Store.Item, y: Store.Item)
    requires x in multiset(Eligible(feeds, items, userId, now)) - multiset(FetchWindow(feeds, items, userId, now))
    requires y in FetchWindow(feeds, items, userId, now)
    ensures x.pubDate <= y.pubDate
  {
    var e := Eligible(feeds, items, userId, now);
    var sorted := Ordering.SortDesc(e, PubDate);
    var k := if |sorted| < FetchLimit then |sorted| else FetchLimit;
    assert |sorted| == |multiset(sorted)| == |e|;
    assert FetchWindow(feeds, items, userId, now) == sorted[..k];
    Ordering.SortedDescCut(sorted, PubDate, k, x, y);
  }

  /** The digest's view of a fetched item: its title, description and the
      tags of its feed. */
  function ToArticle(feeds: seq<Store.Feed>, item: Store.Item): DigestPrompt.Article {
    var tags := match Store.FeedById(feeds, item.feedId)
      case Some(f) => f.tags
      case None => [];
    DigestPrompt.Article(item.title, item.description, tags)
  }

  function ToArticles(feeds: seq<Store.Feed>, items: seq<Store.Item>): (r: seq<DigestPrompt.Article>)
    ensures |r| == |items|
    ensures forall i :: 0 <= i < |items| ==> r[i] == ToArticle(feeds, items[i])
  {
    if |items| == 0 then [] else [ToArticle(feeds, items[0])] + ToArticles(feeds, items[1..])
  }

  /** The message for a language: Chinese for "zh", English otherwise. */
  function Localized(language: string, zh: string, en: string): string {
    if language == "zh" then zh else en
  }

  function NotConfiguredMessage(language: string): string {
    Localized(language, "未配置 OpenAI API，请在管理员设置中配置", "OpenAI API not configured, please configure in admin settings")
  }

  function NoUnreadMessage(language: string): string {
    Localized(language, "过去24小时内没有未读文章", "No unread articles in the last 24 hours")
  }

  function NoContentMessage(language: string): string {
    Localized(language, "未收到有效的摘要内容", "No valid summary content received")
  }

  function FailureMessage(language: string): string {
    Localized(language, "生成摘要时发生错误", "Error occurred while generating summary")
  }

  /** `SummaryResult`: success with content and item count, or an error with
      an item count only in the no-unread case. */
  datatype Outcome =
    | Generated(content: string, itemCount: nat)
    | NotGenerated(error: string, reportedCount: Option<nat>)

  /** The outcome, and the listing sent to the model when a request was made. */
  datatype Generation = Generation(outcome: Outcome, listing: Option<string>)

  /** The reply carries usable content: a text that is not empty once
      trimmed. */
  predicate Usable(reply: ChatApi.Reply) {
    reply.Body? && ChatApi.ReplyContent(reply.data).Text? && ChatApi.ReplyContent(reply.data).text != ""
  }

  /** The reply was read but holds no content: the path to it is missing or
      the text is blank. Every other reply that is not usable throws. */
  predicate Empty(reply: ChatApi.Reply) {
    reply.Body? && (ChatApi.ReplyContent(reply.data).Missing? || ChatApi.ReplyContent(reply.data) == ChatApi.Text(""))
  }

  /** The request with the grouped listing of `fetched` and the reading of
      the model's reply. */
  function Ask(language: string, fetched: seq<DigestPrompt.Article>, reply: ChatApi.Reply): (g: Generation)
    ensures g.listing == Some(DigestPrompt.GroupedText(fetched))
    ensures g.outcome.Generated? ==>
              && reply.Body?
              && ChatApi.ReplyContent(reply.data) == ChatApi.Text(g.outcome.content)
              && g.outcome.content != ""
              && Strings.IsTrimmed(g.outcome.content)
              && g.outcome.itemCount == |fetched|
    ensures reply.Failed? ==> g.outcome == NotGenerated(FailureMessage(language), None)
    ensures g.outcome.Generated? <==> Usable(reply)
    ensures Usable(reply) ==> g.outcome == Generated(ChatApi.ReplyContent(reply.data).text, |fetched|)
    ensures Empty(reply) ==> g.outcome == NotGenerated(NoContentMessage(language), None)
    ensures !Usable(reply) && !Empty(reply) ==> g.outcome == NotGenerated(FailureMessage(language), None)
  {
    var outcome :=
      match reply
      case Failed => NotGenerated(FailureMessage(language), None)
      case Body(data) =>
        match ChatApi.ReplyContent(data)
        case Throws => NotGenerated(FailureMessage(language), None)
        case Missing => NotGenerated(NoContentMessage(language), None)
        case Text(s) =>
          if s == "" then NotGenerated(NoContentMessage(language), None)
          else Generated(s, |fetched|);
    Generation(outcome, Some(DigestPrompt.GroupedText(fetched)))
  }

  /** `generateDailySummary(userId, language)` once the configuration has
      been read and the window fetched, as written: the grouping runs over a
      plain object, so a feed tag naming an inherited member throws into the
      `catch` and the generation error is reported before any request. */
  function Generate(config: Option<ChatApi.Config>, language: string, fetched: seq<DigestPrompt.Article>,
                    reply: ChatApi.Reply): (g: Generation)
    ensures config.None? ==> g == Generation(NotGenerated(NotConfiguredMessage(language), None), None)
    ensures config.Some? && fetched == [] ==> g == Generation(NotGenerated(NoUnreadMessage(language), Some(0)), None)
    ensures config.Some? && InheritedTag(fetched) ==> g == Generation(NotGenerated(FailureMessage(language), None), None)
    ensures g.listing.Some? <==> config.Some? && fetched != [] && !InheritedTag(fetched)
    ensures g.listing.Some? ==> g.listing.value == DigestPrompt.GroupedText(fetched)
    ensures g.outcome.Generated? ==>
              && g.listing.Some?
              && reply.Body?
              && ChatApi.ReplyContent(reply.data) == ChatApi.Text(g.outcome.content)
              && g.outcome.content != ""
              && Strings.IsTrimmed(g.outcome.content)
              && g.outcome.itemCount == |fetched|
    ensures g.listing.Some? && reply.Failed? ==> g.outcome == NotGenerated(FailureMessage(language), None)
    ensures g.outcome.Generated? <==> config.Some? && fetched != [] && !InheritedTag(fetched) && Usable(reply)
    ensures g.outcome.Generated? ==> g.outcome == Generated(ChatApi.ReplyContent(reply.data).text, |fetched|)
    ensures g.listing.Some? && Empty(reply) ==> g.outcome == NotGenerated(NoContentMessage(language), None)
    ensures g.listing.Some? && !Usable(reply) && !Empty(reply) ==> g.outcome == NotGenerated(FailureMessage(language), None)
  {
    GroupAsWrittenThrows(fetched);
    if config.None? then Generation(NotGenerated(NotConfiguredMessage(language), None), None)
    else if fetched == [] then Generation(NotGenerated(NoUnreadMessage(language), Some(0)), None)
    else if GroupAsWritten(fetched).None? then Generation(NotGenerated(FailureMessage(language), None), None)
    else Ask(language, fetched, reply)
  }

  /** The generation as evidently intended: every tag, inherited name or
      not, gets its section. */
  function GenerateIntended(config: Option<ChatApi.Config>, language: string, fetched: seq<DigestPrompt.Article>,
                            reply: ChatApi.Reply): (g: Generation)
    ensures config.None? ==> g == Generation(NotGenerated(NotConfiguredMessage(language), None), None)
    ensures config.Some? && fetched == [] ==> g == Generation(NotGenerated(NoUnreadMessage(language), Some(0)), None)
    ensures g.listing.Some? <==> config.Some? && fetched != []
    ensures g.listing.Some? ==> g.listing.value == DigestPrompt.GroupedText(fetched)
    ensures g.outcome.Generated? ==>
              && g.listing.Some?
              && reply.Body?
              && ChatApi.ReplyContent(reply.data) == ChatApi.Text(g.outcome.content)
              && g.outcome.content != ""
              && Strings.IsTrimmed(g.outcome.content)
              && g.outcome.itemCount == |fetched|
    ensures g.listing.Some? && reply.Failed? ==> g.outcome == NotGenerated(FailureMessage(language), None)
    ensures g.outcome.Generated? <==> config.Some? && fetched != [] && Usable(reply)
    ensures g.outcome.Generated? ==> g.outcome == Generated(ChatApi.ReplyContent(reply.data).text, |fetched|)
    ensures g.listing.Some? && Empty(reply) ==> g.outcome == NotGenerated(NoContentMessage(language), None)
    ensures g.listing.Some? && !Usable(reply) && !Empty(reply) ==> g.outcome == NotGenerated(FailureMessage(language), None)
  {
    if config.None? then Generation(NotGenerated(NotConfiguredMessage(language), None), None)
    else if fetched == [] then Generation(NotGenerated(NoUnreadMessage(language), Some(0)), None)
    else Ask(language, fetched, reply)
  }

  /** The two generations differ exactly on windows with an inherited tag,
      where the code as written fails without asking the model. */
  lemma GenerateAgrees(config: Option<ChatApi.Config>, language: string, fetched: seq<DigestPrompt.Article>,
                       reply: ChatApi.Reply)
    ensures Generate(config, language, fetched, reply) != GenerateIntended(config, language, fetched, reply)
            <==> config.Some? && InheritedTag(fetched)
  {
    if config.Some? && InheritedTag(fetched) {
      assert fetched != [];
    }
  }

  /** `generateDailySummary` end to end: read the configuration, fetch the
      window (`fetchFault` for a `findMany` that throws, which the `catch`
      turns into the generation error), generate. */
  function GenerateDailySummary(configRows: map<string, string>, configFault: bool, fetchFault: bool,
                                feeds: seq<Store.Feed>, items: seq<Store.Item>,
                                userId: Store.Id, language: string, now: Store.Time,
                                reply: ChatApi.Reply): (g: Generation)
    ensures ChatApi.GetOpenAIConfig(configRows, configFault).Some? && fetchFault ==>
              g == Generation(NotGenerated(FailureMessage(language), None), None)
    ensures g.outcome.Generated? ==>
              && !fetchFault
              && 0 < g.outcome.itemCount <= FetchLimit
              && g.outcome.itemCount <= |Eligible(feeds, items, userId, now)|
              && !InheritedTag(ToArticles(feeds, FetchWindow(feeds, items, userId, now)))
    ensures g.listing.Some? ==>
              g.listing.value == DigestPrompt.GroupedText(ToArticles(feeds, FetchWindow(feeds, items, userId, now)))
    ensures ChatApi.GetOpenAIConfig(configRows, configFault).None? ==>
              g == Generation(NotGenerated(NotConfiguredMessage(language), None), None)
    // A summary is generated exactly when the settings exist, the fetch
    // succeeds, the window is not empty, the grouping does not throw and
    // the reply carries content; it is that content.
    ensures g.outcome.Generated? <==>
              && ChatApi.GetOpenAIConfig(configRows, configFault).Some?
              && !fetchFault
              && |Eligible(feeds, items, userId, now)| > 0
              && !InheritedTag(ToArticles(feeds, FetchWindow(feeds, items, userId, now)))
              && Usable(reply)
    ensures g.outcome.Generated? ==>
              g.outcome == Generated(ChatApi.ReplyContent(reply.data).text, |FetchWindow(feeds, items, userId, now)|)
  {
    var config := ChatApi.GetOpenAIConfig(configRows, configFault);
    if config.Some? && fetchFault then Generation(NotGenerated(FailureMessage(language), None), None)
    else Generate(config, language, ToArticles(feeds, FetchWindow(feeds, items, userId, now)), reply)
  }

  /* ----- The grouping as written, over a plain object ----- */

  /** The members every plain JavaScript object inherits from
      `Object.prototype`; reading one of them on `{}` yields a function or an
      object rather than `undefined`. */
  const InheritedNames: set<string> := {
    "constructor", "__proto__", "toString", "toLocaleString", "valueOf",
    "hasOwnProperty", "isPrototypeOf", "propertyIsEnumerable",
    "__defineGetter__", "__defineSetter__", "__lookupGetter__", "__lookupSetter__" }

  /** Some fetched article's feed carries a tag naming an inherited member. */
  predicate InheritedTag(articles: seq<DigestPrompt.Article>) {
    exists t :: t in InheritedNames && t in DigestPrompt.AllTags(articles)
  }

  /** `if (!grouped[tag]) grouped[tag] = []; grouped[tag].push(e)` on a plain
      object: an inherited name is truthy and has no `push`, so the call
      throws (`None`). */
  function PushAsWritten(grouped: map<string, seq<DigestPrompt.Entry>>, tag: string, e: DigestPrompt.Entry)
    : (r: Option<map<string, seq<DigestPrompt.Entry>>>)
    ensures r.None? <==> tag !in grouped && tag in InheritedNames
  {
    if tag in grouped then Some(grouped[tag := grouped[tag] + [e]])
    else if tag in InheritedNames then None
    else Some(grouped[tag := [e]])
  }

  /** The grouping loop as written, over the articles' (tag, entry) pushes in
      order; `None` when a push throws. */
  function GroupAsWritten(articles: seq<DigestPrompt.Article>): Option<map<string, seq<DigestPrompt.Entry>>> {
    if |articles| == 0 then Some(map[])
    else
      match GroupAsWritten(articles[..|articles| - 1])
      case None => None
      case Some(g) => PushAll(g, articles[|articles| - 1].tags, DigestPrompt.ToEntry(articles[|articles| - 1]))
  }

  /** The pushes of one article's tags, in order. */
  function PushAll(grouped: map<string, seq<DigestPrompt.Entry>>, tags: seq<string>, e: DigestPrompt.Entry)
    : Option<map<string, seq<DigestPrompt.Entry>>>
  {
    if |tags| == 0 then Some(grouped)
    else
      match PushAll(grouped, tags[..|tags| - 1], e)
      case None => None
      case Some(g) => PushAsWritten(g, tags[|tags| - 1], e)
  }

  /** The pushes of one article throw exactly when one of its tags is
      inherited; otherwise each tag's group gains the entry once per
      occurrence, and no key is inherited. */
  lemma {:induction false} PushAllSpec(g: map<string, seq<DigestPrompt.Entry>>, tags: seq<string>, e: DigestPrompt.Entry)
    requires forall t :: t in g ==> t !in InheritedNames
    ensures PushAll(g, tags, e).None? <==> exists j :: 0 <= j < |tags| && tags[j] in InheritedNames
    ensures PushAll(g, tags, e).Some? ==>
              var r := PushAll(g, tags, e).value;
              forall t :: && (t in r <==> t in g || t in tags)
                          && (t in r ==> t !in InheritedNames
                                         && r[t] == (if t in g then g[t] else [])
                                                    + DigestPrompt.Repeat(e, DigestPrompt.Occurrences(tags, t)))
  {
    if |tags| > 0 {
      var init := tags[..|tags| - 1];
      var last := tags[|tags| - 1];
      PushAllSpec(g, init, e);
      assert tags == init + [last];
      InheritedSnoc(init, last);
      match PushAll(g, init, e)
      case None =>
      case Some(g1) =>
        if PushAsWritten(g1, last, e).Some? {
          PushLastSpec(g, g1, init, last, e);
        }
    }
  }

  /** A sequence with one more tag holds an inherited name exactly when the
      shorter one does or the new tag is one. */
  lemma InheritedSnoc(init: seq<string>, last: string)
    ensures (exists j :: 0 <= j < |init + [last]| && (init + [last])[j] in InheritedNames)
            <==> (exists j :: 0 <= j < |init| && init[j] in InheritedNames) || last in InheritedNames
  {
    var tags := init + [last];
    if exists j :: 0 <= j < |tags| && tags[j] in InheritedNames {
      var j :| 0 <= j < |tags| && tags[j] in InheritedNames;
      if j < |init| {
        assert init[j] == tags[j];
      }
    }
    if exists j :: 0 <= j < |init| && init[j] in InheritedNames {
      var j :| 0 <= j < |init| && init[j] in InheritedNames;
      assert tags[j] == init[j];
    }
    if last in InheritedNames {
      assert tags[|init|] == last;
    }
  }

  lemma PushLastSpec(g: map<string, seq<DigestPrompt.Entry>>, g1: map<string, seq<DigestPrompt.Entry>>,
                     init: seq<string>, last: string, e: DigestPrompt.Entry)
    requires forall t :: t in g1 ==> t !in InheritedNames
    requires PushAsWritten(g1, last, e).Some?
    requires forall t :: && (t in g1 <==> t in g || t in init)
                         && (t in g1 ==> g1[t] == (if t in g then g[t] else [])
                                                  + DigestPrompt.Repeat(e, DigestPrompt.Occurrences(init, t)))
    ensures var r := PushAsWritten(g1, last, e).value;
            forall t :: && (t in r <==> t in g || t in init + [last])
                        && (t in r ==> t !in InheritedNames
                                       && r[t] == (if t in g then g[t] else [])
                                                  + DigestPrompt.Repeat(e, DigestPrompt.Occurrences(init + [last], t)))
  {
    var r := PushAsWritten(g1, last, e).value;
    var tags := init + [last];
    forall t
      ensures && (t in r <==> t in g || t in tags)
              && (t in r ==> t !in InheritedNames
                             && r[t] == (if t in g then g[t] else [])
                                        + DigestPrompt.Repeat(e, DigestPrompt.Occurrences(tags, t)))
    {
      assert t in tags <==> t in init || t == last;
      DigestPrompt.OccurrencesSnoc(init, last, t);
      if t == last {
        assert DigestPrompt.Repeat(e, DigestPrompt.Occurrences(init, t) + 1)
            == DigestPrompt.Repeat(e, DigestPrompt.Occurrences(init, t)) + [e];
      }
    }
  }

  /** The grouping as written throws exactly when some tag is inherited, and
      otherwise builds the groups of the listing: one key per tag that
      occurs, holding that tag's entries. */
  lemma {:induction false} GroupAsWrittenSpec(articles: seq<DigestPrompt.Article>)
    ensures GroupAsWritten(articles).None? <==> InheritedTag(articles)
    ensures GroupAsWritten(articles).Some? ==>
              var g := GroupAsWritten(articles).value;
              forall t :: && (t in g <==> t in DigestPrompt.AllTags(articles))
                          && (t in g ==> t !in InheritedNames && g[t] == DigestPrompt.Group(articles, t))
  {
    if |articles| > 0 {
      var init := articles[..|articles| - 1];
      var last := articles[|articles| - 1];
      var e := DigestPrompt.ToEntry(last);
      GroupAsWrittenSpec(init);
      assert DigestPrompt.AllTags(articles) == DigestPrompt.AllTags(init) + last.tags;
      match GroupAsWritten(init)
      case None =>
        var t :| t in InheritedNames && t in DigestPrompt.AllTags(init);
        assert t in DigestPrompt.AllTags(articles);
      case Some(g) =>
        PushAllSpec(g, last.tags, e);
        if InheritedTag(articles) {
          var t :| t in InheritedNames && t in DigestPrompt.AllTags(articles);
          var j :| 0 <= j < |last.tags| && last.tags[j] == t;
        }
        if exists j :: 0 <= j < |last.tags| && last.tags[j] in InheritedNames {
          var j :| 0 <= j < |last.tags| && last.tags[j] in InheritedNames;
          assert last.tags[j] in DigestPrompt.AllTags(articles);
        }
        if PushAll(g, last.tags, e).Some? {
          var r := PushAll(g, last.tags, e).value;
          forall t
            ensures && (t in r <==> t in DigestPrompt.AllTags(articles))
                    && (t in r ==> t !in InheritedNames && r[t] == DigestPrompt.Group(articles, t))
          {
            if t !in g {
              DigestPrompt.GroupEmptyIff(init, t);
            }
          }
        }
    }
  }

  /** The grouping as written throws exactly when some tag is inherited. */
  lemma GroupAsWrittenThrows(articles: seq<DigestPrompt.Article>)
    ensures GroupAsWritten(articles).None? <==> InheritedTag(articles)
  {
    GroupAsWrittenSpec(articles);
  }

  /** Without an inherited tag the grouping as written agrees with the
      intended groups, so the listing it yields is `GroupedText`. */
  lemma GroupAsWrittenAgrees(articles: seq<DigestPrompt.Article>, t: string)
    requires !InheritedTag(articles)
    ensures GroupAsWritten(articles).Some?
    ensures t in GroupAsWritten(articles).value <==> t in DigestPrompt.AllTags(articles)
    ensures t in GroupAsWritten(articles).value ==> GroupAsWritten(articles).value[t] == DigestPrompt.Group(articles, t)
  {
    GroupAsWrittenSpec(articles);
  }

  /** A feed tagged "constructor" makes the grouping as written throw, so
      `generateDailySummary` reports a generation error (and the streaming
      route "Streaming error occurred"), whereas the intended listing simply
      has a "constructor" section. */
  lemma InheritedTagBreaksGrouping()
    ensures GroupAsWritten([DigestPrompt.Article("t", None, ["constructor"])]) == None
    ensures Strings.StartsWith(DigestPrompt.GroupedText([DigestPrompt.Article("t", None, ["constructor"])]),
                               DigestPrompt.Heading("constructor"))
  {
    var a := [DigestPrompt.Article("t", None, ["constructor"])];
    assert a[..0] == [];
    assert ["constructor"][..0] == [];
    assert PushAsWritten(map[], "constructor", DigestPrompt.ToEntry(a[0])) == None;
    assert DigestPrompt.AllTags(a) == ["constructor"];
    var sorted := DigestPrompt.SortedTags(a);
    Ordering.SortedUnique(sorted, ["constructor"]);
    assert sorted[..0] == [];
    var text := DigestPrompt.GroupedText(a);
    assert text == DigestPrompt.TagSection(a, "constructor") + DigestPrompt.OtherSection(a);
  }
}
