/** The grouped article listing that the daily digest sends to the language
    model (`src/lib/summary-generator.ts` and, in identical code, the
    streaming route): descriptions are truncated, every article is listed
    under each tag of its feed, untagged articles go to an "other" list, and
    the tag sections are printed in sorted order with at most five numbered
    articles each. */
module DigestPrompt {
  import opened Wrappers
  import Strings
  import Seqs
  import Ordering

  /** Longest description shown before it is cut. */
  const DescriptionLimit: nat := 200

  /** Articles shown per section. */
  const SectionLimit: nat := 5

  /** An unread article as fetched, with the tags of its feed. */
  datatype Article = Article(title: string, description: Option<string>, tags: seq<string>)

  /** The digest's view of an article: its title and shortened description. */
  datatype Entry = Entry(title: string, description: Option<string>)

  /** `d ? (d.length > 200 ? d.substring(0, 200) + "..." : d) : undefined`. */
  function Truncate(d: Option<string>): (r: Option<string>)
    ensures r.None? <==> d.None? || d.value == ""
    ensures r.Some? && |d.value| <= DescriptionLimit ==> r.value == d.value
    ensures r.Some? && |d.value| > DescriptionLimit ==>
              |r.value| == DescriptionLimit + 3
              && r.value[..DescriptionLimit] == d.value[..DescriptionLimit]
              && r.value[DescriptionLimit..] == "..."
  {
    match d
    case None => None
    case Some(s) =>
      if s == "" then None
      else if |s| > DescriptionLimit then Some(s[..DescriptionLimit] + "...")
      else Some(s)
  }

  function ToEntry(a: Article): Entry {
    Entry(a.title, Truncate(a.description))
  }

  /** How many times `t` occurs in `tags`. */
  function Occurrences(tags: seq<string>, t: string): (n: nat)
    ensures n == 0 <==> t !in tags
    ensures n <= |tags|
  {
    if |tags| == 0 then 0
    else
      assert tags == tags[..|tags| - 1] + [tags[|tags| - 1]];
      Occurrences(tags[..|tags| - 1], t) + (if tags[|tags| - 1] == t then 1 else 0)
  }

  function Repeat(e: Entry, n: nat): (r: seq<Entry>)
    ensures |r| == n && forall i :: 0 <= i < n ==> r[i] == e
  {
    if n == 0 then [] else Repeat(e, n - 1) + [e]
  }

  /** Every tag of every article, in order, repetitions included. */
  function AllTags(articles: seq<Article>): seq<string> {
    if |articles| == 0 then []
    else AllTags(articles[..|articles| - 1]) + articles[|articles| - 1].tags
  }

  /** The entries listed under `tag`: each article once per occurrence of
      `tag` among its feed's tags, in input order. */
  function Group(articles: seq<Article>, tag: string): seq<Entry> {
    if |articles| == 0 then []
    else
      var last := articles[|articles| - 1];
      Group(articles[..|articles| - 1], tag) + Repeat(ToEntry(last), Occurrences(last.tags, tag))
  }

  /** The entries of the articles whose feed has no tags. */
  function Untagged(articles: seq<Article>): seq<Entry> {
    if |articles| == 0 then []
    else
      var last := articles[|articles| - 1];
      Untagged(articles[..|articles| - 1]) + (if |last.tags| == 0 then [ToEntry(last)] else [])
  }

  /** The section headings in print order: every tag that occurs, once, in
      ascending order. */
  function SortedTags(articles: seq<Article>): (r: seq<string>)
    ensures Ordering.StrictlySorted(r)
    ensures forall t :: t in r <==> t in AllTags(articles)
  {
    Ordering.SortDistinct(AllTags(articles))
  }

  /** `slice(0, 5)`: the entries a section shows. */
  function Shown(es: seq<Entry>): (r: seq<Entry>)
    ensures |r| <= SectionLimit
    ensures |r| == if |es| < SectionLimit then |es| else SectionLimit
    ensures r == es[..|r|]
  {
    if |es| <= SectionLimit then es else es[..SectionLimit]
  }

  /* ----- Properties of the grouping ----- */

  lemma {:induction false} AllTagsMember(articles: seq<Article>, t: string)
    ensures t in AllTags(articles) <==> exists i :: 0 <= i < |articles| && t in articles[i].tags
  {
    if |articles| > 0 {
      var init := articles[..|articles| - 1];
      AllTagsMember(init, t);
      if exists i :: 0 <= i < |init| && t in init[i].tags {
        var i :| 0 <= i < |init| && t in init[i].tags;
        assert articles[i] == init[i];
      }
      if exists i :: 0 <= i < |articles| && t in articles[i].tags {
        var i :| 0 <= i < |articles| && t in articles[i].tags;
        if i < |init| {
          assert init[i] == articles[i];
        }
      }
    }
  }

  /** An article with tag `t` is listed in the group of `t`, once per
      occurrence of the tag. */
  lemma {:induction false} GroupContains(articles: seq<Article>, i: nat, t: string)
    requires i < |articles| && t in articles[i].tags
    ensures ToEntry(articles[i]) in Group(articles, t)
  {
    var init := articles[..|articles| - 1];
    var last := articles[|articles| - 1];
    if i < |init| {
      assert init[i] == articles[i];
      GroupContains(init, i, t);
    } else {
      assert Repeat(ToEntry(last), Occurrences(last.tags, t))[0] == ToEntry(last);
    }
  }

  /** Only articles carrying `t` are listed in the group of `t`. */
  lemma {:induction false} GroupOnlyTagged(articles: seq<Article>, t: string, e: Entry)
    requires e in Group(articles, t)
    ensures exists i :: 0 <= i < |articles| && t in articles[i].tags && e == ToEntry(articles[i])
  {
    var init := articles[..|articles| - 1];
    var last := articles[|articles| - 1];
    if e in Group(init, t) {
      GroupOnlyTagged(init, t, e);
      var i :| 0 <= i < |init| && t in init[i].tags && e == ToEntry(init[i]);
      assert articles[i] == init[i];
    } else {
      var k := Occurrences(last.tags, t);
      assert e in Repeat(ToEntry(last), k);
      assert k > 0;
      assert t in articles[|articles| - 1].tags;
    }
  }

  /** The group of `t` is empty exactly when no article carries `t`, which is
      when `t` gets no section. */
  lemma {:induction false} GroupEmptyIff(articles: seq<Article>, t: string)
    ensures Group(articles, t) == [] <==> t !in AllTags(articles)
  {
    AllTagsMember(articles, t);
    if t in AllTags(articles) {
      var i :| 0 <= i < |articles| && t in articles[i].tags;
      GroupContains(articles, i, t);
    } else if Group(articles, t) != [] {
      GroupOnlyTagged(articles, t, Group(articles, t)[0]);
    }
  }

  /** The number of entries under `t` is the number of occurrences of `t`
      over all articles' tags. */
  lemma {:induction false} GroupSize(articles: seq<Article>, t: string)
    ensures |Group(articles, t)| == Occurrences(AllTags(articles), t)
  {
    if |articles| > 0 {
      GroupSize(articles[..|articles| - 1], t);
      OccurrencesAppend(AllTags(articles[..|articles| - 1]), articles[|articles| - 1].tags, t);
    }
  }

  lemma {:induction false} OccurrencesAppend(a: seq<string>, b: seq<string>, t: string)
    ensures Occurrences(a + b, t) == Occurrences(a, t) + Occurrences(b, t)
    decreases |b|
  {
    if |b| > 0 {
      OccurrencesAppend(a, b[..|b| - 1], t);
      assert (a + b)[..|a + b| - 1] == a + b[..|b| - 1];
    } else {
      assert a + b == a;
    }
  }

  /** An entry is in the "other" list exactly when it comes from an article
      whose feed has no tags. */
  lemma UntaggedIff(articles: seq<Article>, e: Entry)
    ensures e in Untagged(articles) <==>
            exists i :: 0 <= i < |articles| && |articles[i].tags| == 0 && e == ToEntry(articles[i])
  {
    if e in Untagged(articles) {
      UntaggedFrom(articles, e);
    }
    if exists i :: 0 <= i < |articles| && |articles[i].tags| == 0 && e == ToEntry(articles[i]) {
      var i :| 0 <= i < |articles| && |articles[i].tags| == 0 && e == ToEntry(articles[i]);
      UntaggedHas(articles, i);
    }
  }

  /** Each entry of the "other" list comes from an untagged article. */
  lemma {:induction false} UntaggedFrom(articles: seq<Article>, e: Entry)
    requires e in Untagged(articles)
    ensures exists i :: 0 <= i < |articles| && |articles[i].tags| == 0 && e == ToEntry(articles[i])
    decreases |articles|
  {
    var init := articles[..|articles| - 1];
    if e in Untagged(init) {
      UntaggedFrom(init, e);
      var i :| 0 <= i < |init| && |init[i].tags| == 0 && e == ToEntry(init[i]);
      assert init[i] == articles[i];
    } else {
      var last := |articles| - 1;
      assert |articles[last].tags| == 0 && e == ToEntry(articles[last]);
    }
  }

  /** Each untagged article is in the "other" list. */
  lemma {:induction false} UntaggedHas(articles: seq<Article>, i: nat)
    requires i < |articles| && |articles[i].tags| == 0
    ensures ToEntry(articles[i]) in Untagged(articles)
    decreases |articles|
  {
    var init := articles[..|articles| - 1];
    if i < |init| {
      UntaggedHas(init, i);
      assert init[i] == articles[i];
    }
  }

  /* ----- The listing text ----- */

  /** `${n}. ${title}`, then the description on an indented line when there
      is one, then a line break. */
  function EntryLine(n: nat, e: Entry): string {
    Strings.NatToString(n) + ". " + e.title
      + (if e.description.Some? then "\n   " + e.description.value else "") + "\n"
  }

  /** The numbered lines of a tag section, numbered from 1. */
  function EntryLines(es: seq<Entry>): string {
    if |es| == 0 then "" else EntryLines(es[..|es| - 1]) + EntryLine(|es|, es[|es| - 1])
  }

  /** `${n}. ${title}` and a line break: the "other" section shows titles only. */
  function OtherLine(n: nat, e: Entry): string {
    Strings.NatToString(n) + ". " + e.title + "\n"
  }

  function OtherLines(es: seq<Entry>): string {
    if |es| == 0 then "" else OtherLines(es[..|es| - 1]) + OtherLine(|es|, es[|es| - 1])
  }

  function Heading(tag: string): string {
    "\n## " + tag + "\n"
  }

  const OtherHeading: string := "\n## 其他\n"

  function TagSection(articles: seq<Article>, tag: string): string {
    Heading(tag) + EntryLines(Shown(Group(articles, tag)))
  }

  /** The sections of `tags`, in the order given. */
  function TagSections(articles: seq<Article>, tags: seq<string>): string {
    if |tags| == 0 then ""
    else TagSections(articles, tags[..|tags| - 1]) + TagSection(articles, tags[|tags| - 1])
  }

  function OtherSection(articles: seq<Article>): (r: string)
    ensures r == "" <==> Untagged(articles) == []
  {
    var u := Untagged(articles);
    if |u| > 0 then OtherHeading + OtherLines(Shown(u)) else ""
  }

  /** The listing inserted into the prompt. */
  function GroupedText(articles: seq<Article>): string {
    TagSections(articles, SortedTags(articles)) + OtherSection(articles)
  }

  /** The "other" section is present exactly when some article is untagged,
      and then it begins with its heading. */
  lemma OtherSectionIff(articles: seq<Article>)
    ensures OtherSection(articles) != "" <==> exists i :: 0 <= i < |articles| && |articles[i].tags| == 0
    ensures OtherSection(articles) != "" ==> Strings.StartsWith(OtherSection(articles), OtherHeading)
  {
    if exists i :: 0 <= i < |articles| && |articles[i].tags| == 0 {
      var i :| 0 <= i < |articles| && |articles[i].tags| == 0;
      UntaggedIff(articles, ToEntry(articles[i]));
    } else if Untagged(articles) != [] {
      UntaggedIff(articles, Untagged(articles)[0]);
    }
    var r := OtherSection(articles);
    if r != "" {
      assert r[..|OtherHeading|] == OtherHeading;
    }
  }

  /** The numbered lines of a section number its entries 1, 2, ... in order:
      line `k` of the listing is the entry at position `k - 1`. */
  lemma {:induction false} EntryLinesPrefix(es: seq<Entry>, k: nat)
    requires k <= |es|
    ensures Strings.StartsWith(EntryLines(es), EntryLines(es[..k]))
    decreases |es|
  {
    if k < |es| {
      assert es[..|es| - 1][..k] == es[..k];
      EntryLinesPrefix(es[..|es| - 1], k);
    } else {
      assert es[..k] == es;
    }
  }

  /* ----- The listing as the source builds it ----- */

  lemma {:induction false} GroupStep(articles: seq<Article>, k: nat, t: string)
    requires k < |articles|
    ensures Group(articles[..k + 1], t) ==
            Group(articles[..k], t) + Repeat(ToEntry(articles[k]), Occurrences(articles[k].tags, t))
    ensures Untagged(articles[..k + 1]) ==
            Untagged(articles[..k]) + (if |articles[k].tags| == 0 then [ToEntry(articles[k])] else [])
    ensures AllTags(articles[..k + 1]) == AllTags(articles[..k]) + articles[k].tags
  {
    assert articles[..k + 1][..k] == articles[..k];
  }

  lemma {:induction false} OccurrencesStep(tags: seq<string>, j: nat, t: string)
    requires j < |tags|
    ensures Occurrences(tags[..j + 1], t) == Occurrences(tags[..j], t) + (if tags[j] == t then 1 else 0)
  {
    assert tags[..j + 1][..j] == tags[..j];
  }

  /** `grouped` and `keys` after the tags `done` of an article with entry
      `e`, following the articles `before`. */
  ghost predicate Grouping(grouped: map<string, seq<Entry>>, keys: seq<string>, before: seq<Article>, e: Entry,
                     done: seq<string>) {
    && (forall t :: t in grouped <==> t in keys)
    && (forall t :: t in keys <==> t in AllTags(before) + done)
    && GroupValues(grouped, before, e, done)
  }

  /** Each group holds the entries of the earlier articles and one entry `e`
      per occurrence of its tag among the tags pushed so far. */
  ghost predicate GroupValues(grouped: map<string, seq<Entry>>, before: seq<Article>, e: Entry, done: seq<string>) {
    forall t :: t in grouped ==> grouped[t] == Group(before, t) + Repeat(e, Occurrences(done, t))
  }

  lemma OccurrencesSnoc(done: seq<string>, tag: string, t: string)
    ensures Occurrences(done + [tag], t) == Occurrences(done, t) + (if tag == t then 1 else 0)
  {
    assert (done + [tag])[..|done|] == done;
  }

  /** One push of the inner loop keeps the groups in step with the tags
      seen. */
  lemma PushStep(grouped: map<string, seq<Entry>>, keys: seq<string>, before: seq<Article>, e: Entry,
                 done: seq<string>, tag: string)
    requires Grouping(grouped, keys, before, e, done)
    ensures var g := if tag in grouped then grouped else grouped[tag := []];
            var k := if tag in grouped then keys else keys + [tag];
            Grouping(g[tag := g[tag] + [e]], k, before, e, done + [tag])
  {
    TagsSnoc(keys, before, done, tag);
    if tag in grouped {
      PushValues(grouped, before, e, done, tag);
    } else {
      FreshGroup(grouped, before, e, done, tag);
      PushValues(grouped[tag := []], before, e, done, tag);
    }
  }

  /** A tag not seen yet starts with an empty group. */
  lemma FreshGroup(grouped: map<string, seq<Entry>>, before: seq<Article>, e: Entry, done: seq<string>, tag: string)
    requires GroupValues(grouped, before, e, done)
    requires tag !in AllTags(before) + done
    ensures GroupValues(grouped[tag := []], before, e, done)
  {
    GroupEmptyIff(before, tag);
    assert Occurrences(done, tag) == 0;
  }

  lemma PushValues(g: map<string, seq<Entry>>, before: seq<Article>, e: Entry, done: seq<string>, tag: string)
    requires tag in g
    requires GroupValues(g, before, e, done)
    ensures GroupValues(g[tag := g[tag] + [e]], before, e, done + [tag])
  {
    var g' := g[tag := g[tag] + [e]];
    forall t | t in g' ensures g'[t] == Group(before, t) + Repeat(e, Occurrences(done + [tag], t)) {
      OccurrencesSnoc(done, tag, t);
    }
  }

  lemma TagsSnoc(keys: seq<string>, before: seq<Article>, done: seq<string>, tag: string)
    ensures AllTags(before) + (done + [tag]) == AllTags(before) + done + [tag]
  {
  }

  /** Adds one article's entry to the groups of its tags, as the inner
      `tags.forEach` does; `keys` records first insertions, like the key
      order of the object. */
  method AddToGroups(grouped: map<string, seq<Entry>>, keys: seq<string>, e: Entry, tags: seq<string>,
                     ghost before: seq<Article>)
    returns (newGrouped: map<string, seq<Entry>>, newKeys: seq<string>)
    requires forall t :: t in grouped <==> t in keys
    requires forall t :: t in keys <==> t in AllTags(before)
    requires forall t :: t in grouped ==> grouped[t] == Group(before, t)
    ensures forall t :: t in newGrouped <==> t in newKeys
    ensures forall t :: t in newKeys <==> t in AllTags(before) + tags
    ensures forall t :: t in newGrouped ==> newGrouped[t] == Group(before, t) + Repeat(e, Occurrences(tags, t))
  {
    newGrouped, newKeys := grouped, keys;
    assert tags[..0] == [] && AllTags(before) + [] == AllTags(before);
    for j := 0 to |tags|
      invariant Grouping(newGrouped, newKeys, before, e, tags[..j])
    {
      var tag := tags[j];
      PushStep(newGrouped, newKeys, before, e, tags[..j], tag);
      if tag !in newGrouped {
        newGrouped := newGrouped[tag := []];
        newKeys := newKeys + [tag];
      }
      newGrouped := newGrouped[tag := newGrouped[tag] + [e]];
      Seqs.TakeSnoc(tags, j);
    }
    assert tags[..|tags|] == tags;
  }

  /** Builds the groups and the "other" list in one pass over the articles,
      as the `items.forEach` of the source does. */
  method BuildGroups(articles: seq<Article>)
    returns (grouped: map<string, seq<Entry>>, keys: seq<string>, untagged: seq<Entry>)
    ensures forall t :: t in grouped <==> t in keys
    ensures forall t :: t in keys <==> t in AllTags(articles)
    ensures forall t :: t in grouped ==> grouped[t] == Group(articles, t)
    ensures untagged == Untagged(articles)
  {
    grouped, keys, untagged := map[], [], [];
    for k := 0 to |articles|
      invariant forall t :: t in grouped <==> t in keys
      invariant forall t :: t in keys <==> t in AllTags(articles[..k])
      invariant forall t :: t in grouped ==> grouped[t] == Group(articles[..k], t)
      invariant untagged == Untagged(articles[..k])
    {
      var e := ToEntry(articles[k]);
      var tags := articles[k].tags;
      forall t ensures Group(articles[..k + 1], t) == Group(articles[..k], t) + Repeat(e, Occurrences(tags, t)) {
        GroupStep(articles, k, t);
      }
      GroupStep(articles, k, "");
      if |tags| > 0 {
        grouped, keys := AddToGroups(grouped, keys, e, tags, articles[..k]);
      } else {
        forall t | t in grouped ensures grouped[t] == Group(articles[..k + 1], t) {
          assert Occurrences(tags, t) == 0;
        }
        untagged := untagged + [e];
      }
    }
    assert articles[..|articles|] == articles;
  }

  lemma EntryLinesStep(es: seq<Entry>, n: nat)
    requires n < |es|
    ensures EntryLines(es[..n + 1]) == EntryLines(es[..n]) + EntryLine(n + 1, es[n])
    ensures OtherLines(es[..n + 1]) == OtherLines(es[..n]) + OtherLine(n + 1, es[n])
  {
    assert es[..n + 1][..n] == es[..n];
  }

  /** One numbered line, written piece by piece as the template does. */
  method FormatEntry(n: nat, e: Entry) returns (line: string)
    ensures line == EntryLine(n, e)
  {
    line := Strings.NatToString(n) + ". " + e.title;
    if e.description.Some? {
      line := line + "\n   " + e.description.value;
    }
    line := line + "\n";
  }

  /** Appends the numbered lines of `es` to `text`. */
  method AppendEntryLines(text: string, es: seq<Entry>) returns (result: string)
    ensures result == text + EntryLines(es)
  {
    result := text;
    for n := 0 to |es|
      invariant result == text + EntryLines(es[..n])
    {
      var line := FormatEntry(n + 1, es[n]);
      EntryLinesStep(es, n);
      result := result + line;
    }
    assert es[..|es|] == es;
  }

  method AppendOtherLines(text: string, es: seq<Entry>) returns (result: string)
    ensures result == text + OtherLines(es)
  {
    result := text;
    for n := 0 to |es|
      invariant result == text + OtherLines(es[..n])
    {
      var line := Strings.NatToString(n + 1) + ". " + es[n].title + "\n";
      assert line == OtherLine(n + 1, es[n]);
      EntryLinesStep(es, n);
      result := result + line;
    }
    assert es[..|es|] == es;
  }

  /** Prints the sections of `tags` in order, from the built groups. */
  method AppendTagSections(articles: seq<Article>, grouped: map<string, seq<Entry>>, tags: seq<string>)
    returns (text: string)
    requires forall t :: t in tags ==> t in grouped && grouped[t] == Group(articles, t)
    ensures text == TagSections(articles, tags)
  {
    text := "";
    for i := 0 to |tags|
      invariant text == TagSections(articles, tags[..i])
    {
      var tag := tags[i];
      TagSectionsStep(articles, tags, i);
      assert grouped[tag] == Group(articles, tag);
      text := text + Heading(tag);
      text := AppendEntryLines(text, Shown(grouped[tag]));
    }
    assert tags[..|tags|] == tags;
  }

  lemma TagSectionsStep(articles: seq<Article>, tags: seq<string>, i: nat)
    requires i < |tags|
    ensures TagSections(articles, tags[..i + 1])
            == TagSections(articles, tags[..i]) + Heading(tags[i]) + EntryLines(Shown(Group(articles, tags[i])))
  {
    assert tags[..i + 1][..i] == tags[..i];
    assert TagSections(articles, tags[..i + 1]) == TagSections(articles, tags[..i]) + TagSection(articles, tags[i]);
    Seqs.Assoc(TagSections(articles, tags[..i]), Heading(tags[i]), EntryLines(Shown(Group(articles, tags[i]))));
  }

  /** The listing built statement by statement as in the source (group,
      sort the keys, print each section, then the "other" section); it is
      the declarative `GroupedText`. Both the non-streaming generator and
      the streaming route run this code. */
  method BuildGroupedText(articles: seq<Article>) returns (text: string)
    ensures text == GroupedText(articles)
  {
    var grouped, keys, untagged := BuildGroups(articles);
    var sortedTags := Ordering.SortDistinct(keys);
    Ordering.SortedUnique(sortedTags, SortedTags(articles));
    text := AppendTagSections(articles, grouped, sortedTags);
    if |untagged| > 0 {
      text := text + OtherHeading;
      text := AppendOtherLines(text, Shown(untagged));
    }
  }
}
