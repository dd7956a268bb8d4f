/** Automatic feed categorisation: the facts put into the prompt, the
    parsing of the model's comma-separated answer into tags, and the rule
    under which the answer is written back to the feed. The chat-completions
    exchange is a parameter (`ChatApi.Reply`); the fixed prose of the prompt
    is not modelled. */
module Categorizer {
  import opened Wrappers
  import Strings
  import Seqs
  import Ordering
  import Store
  import ChatApi
  import Tags

  /** The answer is split on the ASCII comma and the full-width comma. */
  const Separators: set<char> := {',', '\U{FF0C}'}

  /** What the categoriser is told about one recent article. */
  datatype Sample = Sample(title: Option<string>, description: Option<string>)

  datatype FeedInfo = FeedInfo(
    url: string,
    title: Option<string>,
    description: Option<string>,
    items: Option<seq<Sample>>)

  /** JavaScript's `s || fallback` on an optional string: the empty string
      is falsy too. */
  function Or(s: Option<string>, fallback: string): string {
    if s.Some? && s.value != "" then s.value else fallback
  }

  /** `${i + 1}. ${title || "Untitled"}: ${description || ""}`. */
  function SampleLine(i: nat, item: Sample): string {
    Strings.NatToString(i + 1) + ". " + Or(item.title, "Untitled") + ": " + Or(item.description, "")
  }

  /** The lines for `items.slice(0, 5)`, numbered from `from + 1`. */
  function SampleLines(items: seq<Sample>, from: nat): (r: seq<string>)
    requires from <= 5
    ensures |r| == Min(|items|, 5 - from)
    ensures forall i :: 0 <= i < |r| ==> r[i] == SampleLine(from + i, items[i])
    decreases 5 - from
  {
    if |items| == 0 || from == 5 then []
    else [SampleLine(from, items[0])] + SampleLines(items[1..], from + 1)
  }

  function Min(a: int, b: int): int {
    if a < b then a else b
  }

  /** The facts the prompt interpolates. */
  datatype Facts = Facts(title: string, description: string, url: string, itemsText: string)

  function PromptFacts(info: FeedInfo): (r: Facts)
    ensures r.url == info.url
    // The title falls back to the url, the description to a fixed phrase.
    ensures r.title == (if info.title.Some? && info.title.value != "" then info.title.value else info.url)
    ensures r.description == (if info.description.Some? && info.description.value != "" then info.description.value
                              else "No description available")
    // At most five articles, one per line.
    ensures r.itemsText == Strings.Join(SampleLines(info.items.GetOr([]), 0), "\n")
  {
    var lines := SampleLines(info.items.GetOr([]), 0);
    Facts(Or(info.title, info.url), Or(info.description, "No description available"), info.url,
          Strings.Join(lines, "\n"))
  }

  /** The sample lines are numbered 1, 2, ... in order, and a sample
      without a title is listed as "Untitled". */
  lemma SampleLinesNumbered(items: seq<Sample>, i: nat)
    requires i < |SampleLines(items, 0)|
    ensures i < 5 && i < |items|
    ensures Strings.StartsWith(SampleLines(items, 0)[i], Strings.NatToString(i + 1) + ". ")
    ensures items[i].title.None? ==>
              SampleLines(items, 0)[i] == Strings.NatToString(i + 1) + ". Untitled: " + Or(items[i].description, "")
  {
    SampleLineHead(i, items[i]);
  }

  lemma SampleLineHead(i: nat, item: Sample)
    ensures Strings.StartsWith(SampleLine(i, item), Strings.NatToString(i + 1) + ". ")
    ensures item.title.None? ==>
              SampleLine(i, item) == Strings.NatToString(i + 1) + ". Untitled: " + Or(item.description, "")
  {
    var head := Strings.NatToString(i + 1) + ". ";
    var tail := Or(item.title, "Untitled") + ": " + Or(item.description, "");
    assert SampleLine(i, item) == head + tail;
    assert (head + tail)[..|head|] == head;
  }

  /** `categorizeFeed`: the tags read off the model's answer, or `None`.
      Without a configuration nothing is asked; a failed exchange, a
      missing or blank answer and an answer with no tag in it all give
      `None`. */
  function Categorize(config: Option<ChatApi.Config>, info: FeedInfo, reply: ChatApi.Reply): (r: Option<seq<string>>)
    // Without a configuration the reply is never consulted.
    ensures config.None? ==> r.None?
    ensures r.Some? <==>
              && config.Some? && reply.Body?
              && ChatApi.ReplyContent(reply.data).Text?
              && |Tags.Parse(ChatApi.ReplyContent(reply.data).text, Separators)| > 0
    ensures r.Some? ==> r.value == Tags.Parse(ChatApi.ReplyContent(reply.data).text, Separators)
    ensures r.Some? ==> |r.value| > 0 && forall i :: 0 <= i < |r.value| ==> Tags.Clean(r.value[i], Separators)
  {
    if config.None? || reply.Failed? then None
    else
      match ChatApi.ReplyContent(reply.data)
      case Text(text) =>
        if text == "" then None
        else
          var tags := Tags.Parse(text, Separators);
          if |tags| == 0 then None else Some(tags)
      case _ => None
  }

  /** A well-formed answer listing clean tags yields exactly those tags. */
  lemma AnswerRoundTrip(config: ChatApi.Config, info: FeedInfo, tags: seq<string>)
    requires |tags| > 0
    requires forall i :: 0 <= i < |tags| ==> Tags.Clean(tags[i], Separators)
    ensures Categorize(Some(config), info, ChatApi.Body(ChatApi.ReplyWith(Tags.Show(tags)))) == Some(tags)
  {
    ChatApi.ReplyWithContent(Tags.Show(tags));
    ShowTrimmed(tags);
    Strings.TrimIdentity(Tags.Show(tags));
    Tags.ShowParse(tags, Separators);
  }

  /** The joined form of clean tags starts and ends inside a tag. */
  lemma {:induction false} ShowTrimmed(tags: seq<string>)
    requires |tags| > 0
    requires forall i :: 0 <= i < |tags| ==> Tags.Clean(tags[i], Separators)
    ensures |Tags.Show(tags)| > 0 && Strings.IsTrimmed(Tags.Show(tags))
    ensures Tags.Clean(tags[0], Separators) && Tags.Show(tags)[0] == tags[0][0]
    ensures Tags.Clean(tags[|tags| - 1], Separators)
            && Tags.Show(tags)[|Tags.Show(tags)| - 1] == tags[|tags| - 1][|tags[|tags| - 1]| - 1]
  {
    if |tags| > 1 {
      ShowTrimmed(tags[1..]);
      var rest := Tags.Show(tags[1..]);
      assert Tags.Show(tags) == tags[0] + ", " + rest;
    }
  }

  /** The five most recently stored items of a feed, as samples. */
  function RecentSamples(items: seq<Store.Item>, feedId: Store.Id): (r: seq<Sample>)
    ensures |r| <= 5
  {
    var own := Ordering.SortDesc(Seqs.Filter(items, (i: Store.Item) => i.feedId == feedId),
                                 (i: Store.Item) => i.createdAt);
    var recent := own[..Min(5, |own|)];
    seq(|recent|, k requires 0 <= k < |recent| =>
      Sample(if recent[k].title != "" then Some(recent[k].title) else None,
             if recent[k].description.Some? && recent[k].description.value != "" then recent[k].description else None))
  }

  /** `prisma.feed.update({ where: { id }, data: { tags } })`. */
  function SetTags(feeds: seq<Store.Feed>, id: Store.Id, tags: seq<string>): (r: seq<Store.Feed>)
    ensures |r| == |feeds|
    ensures forall i :: 0 <= i < |r| ==>
              r[i] == if feeds[i].id == id then feeds[i].(tags := tags) else feeds[i]
  {
    seq(|feeds|, i requires 0 <= i < |feeds| => if feeds[i].id == id then feeds[i].(tags := tags) else feeds[i])
  }

  /** `categorizeFeedById`. `fault` stands for a store error, which the
      function catches and turns into `None`. */
  function CategorizeFeedById(feeds: seq<Store.Feed>, items: seq<Store.Item>, feedId: Store.Id,
                              config: Option<ChatApi.Config>, reply: ChatApi.Reply, fault: bool)
    : (r: (Option<seq<string>>, seq<Store.Feed>))
    // Tags are written only when there are some, and then to that feed only.
    ensures r.0.None? ==> r.1 == feeds
    ensures r.0.Some? ==>
              && Store.FeedById(feeds, feedId).Some?
              && |r.1| == |feeds|
              && forall i :: 0 <= i < |feeds| ==>
                   r.1[i] == if feeds[i].id == feedId then feeds[i].(tags := r.0.value) else feeds[i]
    // A missing feed is reported as `None` without any write.
    ensures Store.FeedById(feeds, feedId).None? ==> r == (None, feeds)
    ensures !fault && Store.FeedById(feeds, feedId).Some? ==>
              var f := Store.FeedById(feeds, feedId).value;
              r.0 == Categorize(config, FeedInfo(f.url, Some(Or(f.title, "")), None,
                                                 Some(RecentSamples(items, feedId))), reply)
  {
    match Store.FeedById(feeds, feedId)
    case None => (None, feeds)
    case Some(f) =>
      if fault then (None, feeds)
      else
        var info := FeedInfo(f.url, Some(Or(f.title, "")), None, Some(RecentSamples(items, feedId)));
        var tags := Categorize(config, info, reply);
        if tags.Some? then (tags, SetTags(feeds, feedId, tags.value)) else (None, feeds)
  }
}
