/** `GET /api/feeds/opml/export`: the caller's titled feeds as an OPML 2.0
    subscription list, each feed filed under every one of its tags, with
    untagged feeds at the top level after the groups. Attribute values are
    escaped with the five predefined entities of XML 1.0 (section 4.6). */
module Opml {
  import opened Wrappers
  import Strings
  import Seqs
  import Ordering
  import Store

  /* ----- Escaping ----- */

  /** `s.replace(/c/g, rep)`. */
  function ReplaceAll(s: string, c: char, rep: string): (r: string)
    ensures c !in s ==> r == s
  {
    if |s| == 0 then ""
    else (if s[0] == c then rep else [s[0]]) + ReplaceAll(s[1..], c, rep)
  }

  /** The character the `k`-th replacement of `escapeXML` replaces, and
      its entity: ampersand first. */
  function Target(k: nat): char
    requires k < 5
  {
    ['&', '<', '>', '"', '\''][k]
  }

  function Entity(k: nat): string
    requires k < 5
  {
    ["&amp;", "&lt;", "&gt;", "&quot;", "&apos;"][k]
  }

  /** The replacements from the `k`-th on, in order. */
  function ReplaceFrom(s: string, k: nat): string
    requires k <= 5
    decreases 5 - k
  {
    if k == 5 then s else ReplaceFrom(ReplaceAll(s, Target(k), Entity(k)), k + 1)
  }

  /** `escapeXML`: the five replacements in order. */
  function EscapeXml(s: string): string {
    ReplaceFrom(s, 0)
  }

  /** The entity for one character, or the character itself. */
  function EscapeChar(c: char): string {
    match c
    case '&' => "&amp;"
    case '<' => "&lt;"
    case '>' => "&gt;"
    case '"' => "&quot;"
    case '\'' => "&apos;"
    case _ => [c]
  }

  /** Character-by-character escaping: the reference the chain of
      replacements is measured against. */
  function EscapeEach(s: string): string {
    if |s| == 0 then "" else EscapeChar(s[0]) + EscapeEach(s[1..])
  }

  lemma {:induction false} ReplaceAppend(a: string, b: string, c: char, rep: string)
    ensures ReplaceAll(a + b, c, rep) == ReplaceAll(a, c, rep) + ReplaceAll(b, c, rep)
  {
    if |a| == 0 {
      assert a + b == b;
    } else {
      assert (a + b)[1..] == a[1..] + b;
      ReplaceAppend(a[1..], b, c, rep);
    }
  }

  lemma {:induction false} ReplaceFromAppend(a: string, b: string, k: nat)
    requires k <= 5
    ensures ReplaceFrom(a + b, k) == ReplaceFrom(a, k) + ReplaceFrom(b, k)
    decreases 5 - k
  {
    if k < 5 {
      ReplaceAppend(a, b, Target(k), Entity(k));
      ReplaceFromAppend(ReplaceAll(a, Target(k), Entity(k)), ReplaceAll(b, Target(k), Entity(k)), k + 1);
    }
  }

  lemma EscapeXmlAppend(a: string, b: string)
    ensures EscapeXml(a + b) == EscapeXml(a) + EscapeXml(b)
  {
    ReplaceFromAppend(a, b, 0);
  }

  /** Replacements whose characters do not occur change nothing. */
  lemma {:induction false} ReplaceFromSkips(s: string, k: nat, j: nat)
    requires k <= j <= 5
    requires forall m :: k <= m < j ==> Target(m) !in s
    ensures ReplaceFrom(s, k) == ReplaceFrom(s, j)
    decreases j - k
  {
    if k < j {
      ReplaceFromSkips(s, k + 1, j);
    }
  }

  /** On one character the chain of replacements gives its entity: no
      entity contains a character a later replacement looks for, which is
      why the ampersand has to go first. */
  lemma EscapeXmlChar(c: char)
    ensures EscapeXml([c]) == EscapeChar(c)
  {
    if c == '&' {
      EscapeXmlSpecial(0);
    } else if c == '<' {
      EscapeXmlSpecial(1);
    } else if c == '>' {
      EscapeXmlSpecial(2);
    } else if c == '"' {
      EscapeXmlSpecial(3);
    } else if c == '\'' {
      EscapeXmlSpecial(4);
    } else {
      ReplaceFromSkips([c], 0, 5);
    }
  }

  lemma EscapeXmlSpecial(j: nat)
    requires j < 5
    ensures EscapeXml([Target(j)]) == Entity(j)
  {
    ReplaceFromSkips([Target(j)], 0, j);
    ReplaceOne(Target(j), Target(j), Entity(j));
    EntityFree(j);
    ReplaceFromSkips(Entity(j), j + 1, 5);
  }

  /** No entity holds a character a later replacement looks for. */
  lemma EntityFree(j: nat)
    requires j < 5
    ensures forall m :: j < m < 5 ==> Target(m) !in Entity(j)
  {
  }

  lemma ReplaceOne(c: char, x: char, rep: string)
    ensures ReplaceAll([c], x, rep) == if c == x then rep else [c]
  {
    assert [c][1..] == [];
  }

  /** The chain of replacements escapes character by character. */
  lemma {:induction false} EscapeXmlEach(s: string)
    ensures EscapeXml(s) == EscapeEach(s)
  {
    if |s| > 0 {
      assert s == [s[0]] + s[1..];
      EscapeXmlAppend([s[0]], s[1..]);
      EscapeXmlChar(s[0]);
      EscapeXmlEach(s[1..]);
    }
  }

  /** Replacing the ampersand last would escape the entities already
      written: `<` would come out as `&amp;lt;`. */
  lemma AmpersandLastDoubleEscapes()
    ensures ReplaceAll(ReplaceAll("<", '<', "&lt;"), '&', "&amp;") == "&amp;lt;"
    ensures EscapeXml("<") == "&lt;"
  {
    assert ReplaceAll("<", '<', "&lt;") == "&lt;" by {
      ReplaceOne('<', '<', "&lt;");
      assert "<" == ['<'];
    }
    assert "&lt;" == ['&'] + "lt;";
    AmpersandFirst("lt;");
    assert "&amp;" + "lt;" == "&amp;lt;";
    assert "<" == [Target(1)];
    EscapeXmlSpecial(1);
  }

  /** An ampersand followed by text without one is escaped once. */
  lemma AmpersandFirst(rest: string)
    requires '&' !in rest
    ensures ReplaceAll(['&'] + rest, '&', "&amp;") == "&amp;" + rest
  {
    ReplaceAppend(['&'], rest, '&', "&amp;");
    ReplaceOne('&', '&', "&amp;");
  }

  predicate Markup(c: char) {
    c == '<' || c == '>' || c == '"' || c == '\''
  }

  /** Escaped text holds none of `<`, `>`, `"` and `'`. */
  lemma {:induction false} EscapedHasNoMarkup(s: string)
    ensures forall i :: 0 <= i < |EscapeXml(s)| ==> !Markup(EscapeXml(s)[i])
  {
    EscapeXmlEach(s);
    EachHasNoMarkup(s);
  }

  lemma {:induction false} EachHasNoMarkup(s: string)
    ensures forall i :: 0 <= i < |EscapeEach(s)| ==> !Markup(EscapeEach(s)[i])
  {
    if |s| > 0 {
      EachHasNoMarkup(s[1..]);
      var head, tail := EscapeChar(s[0]), EscapeEach(s[1..]);
      forall i | 0 <= i < |head + tail| ensures !Markup((head + tail)[i]) {
        if i >= |head| {
          assert (head + tail)[i] == tail[i - |head|];
        }
      }
    }
  }

  predicate Special(c: char) {
    c == '&' || Markup(c)
  }

  /** Text with nothing to escape is left as it is. */
  lemma {:induction false} EscapeIdentity(s: string)
    requires forall i :: 0 <= i < |s| ==> !Special(s[i])
    ensures EscapeXml(s) == s
  {
    EscapeXmlEach(s);
    EachIdentity(s);
  }

  lemma {:induction false} EachIdentity(s: string)
    requires forall i :: 0 <= i < |s| ==> !Special(s[i])
    ensures EscapeEach(s) == s
  {
    if |s| > 0 {
      EachIdentity(s[1..]);
      assert s == [s[0]] + s[1..];
    }
  }

  /** Decoding the five entities, as an XML reader does for attribute
      values. */
  function Unescape(s: string): string
    decreases |s|
  {
    if |s| == 0 then ""
    else if Strings.StartsWith(s, "&amp;") then "&" + Unescape(s[5..])
    else if Strings.StartsWith(s, "&lt;") then "<" + Unescape(s[4..])
    else if Strings.StartsWith(s, "&gt;") then ">" + Unescape(s[4..])
    else if Strings.StartsWith(s, "&quot;") then "\"" + Unescape(s[6..])
    else if Strings.StartsWith(s, "&apos;") then "'" + Unescape(s[6..])
    else [s[0]] + Unescape(s[1..])
  }

  lemma UnescapeStep(c: char, rest: string)
    ensures Unescape(EscapeChar(c) + rest) == [c] + Unescape(rest)
  {
    if c == '&' {
      UnescapeAmp(rest);
    } else if c == '<' {
      UnescapeEntity(1, rest);
    } else if c == '>' {
      UnescapeEntity(2, rest);
    } else if c == '"' {
      UnescapeEntity(3, rest);
    } else if c == '\'' {
      UnescapeEntity(4, rest);
    } else {
      UnescapePlain(c, rest);
    }
  }

  lemma UnescapeAmp(rest: string)
    ensures Unescape("&amp;" + rest) == "&" + Unescape(rest)
  {
    var s := "&amp;" + rest;
    assert s[..5] == "&amp;" && s[5..] == rest;
  }

  /** An entity other than `&amp;` is told apart from the ones tried
      before it by its second or third character. */
  lemma UnescapeEntity(j: nat, rest: string)
    requires 1 <= j < 5
    ensures Unescape(Entity(j) + rest) == [Target(j)] + Unescape(rest)
  {
    var s := Entity(j) + rest;
    var n := |Entity(j)|;
    assert s[..n] == Entity(j) && s[n..] == rest;
    assert s[1] == Entity(j)[1] && s[2] == Entity(j)[2];
  }

  lemma UnescapePlain(c: char, rest: string)
    requires c != '&'
    ensures Unescape([c] + rest) == [c] + Unescape(rest)
  {
    var s := [c] + rest;
    assert s[0] == c && s[1..] == rest;
    NoEntityStart(s, "&amp;");
    NoEntityStart(s, "&lt;");
    NoEntityStart(s, "&gt;");
    NoEntityStart(s, "&quot;");
    NoEntityStart(s, "&apos;");
  }

  /** Text that does not begin with an ampersand begins no entity. */
  lemma NoEntityStart(s: string, entity: string)
    requires |s| > 0 && s[0] != '&' && |entity| > 0 && entity[0] == '&'
    ensures !Strings.StartsWith(s, entity)
  {
    if |entity| <= |s| {
      assert s[..|entity|][0] == s[0];
    }
  }

  /** Decoding recovers exactly what was escaped. */
  lemma {:induction false} UnescapeEscape(s: string)
    ensures Unescape(EscapeXml(s)) == s
  {
    EscapeXmlEach(s);
    UnescapeEach(s);
  }

  lemma {:induction false} UnescapeEach(s: string)
    ensures Unescape(EscapeEach(s)) == s
  {
    if |s| > 0 {
      UnescapeEach(s[1..]);
      UnescapeStep(s[0], EscapeEach(s[1..]));
      assert s == [s[0]] + s[1..];
    }
  }

  /* ----- Grouping ----- */

  /** A feed as exported. */
  datatype Entry = Entry(url: string, title: string, tags: seq<string>)

  /** The `(tag, feed)` pushes of the nested `forEach`, in order. */
  function TagPairs(e: Entry): (r: seq<(string, Entry)>)
    ensures |r| == |e.tags|
    ensures forall k :: 0 <= k < |r| ==> r[k] == (e.tags[k], e)
  {
    seq(|e.tags|, k requires 0 <= k < |e.tags| => (e.tags[k], e))
  }

  function Pairs(entries: seq<Entry>): seq<(string, Entry)> {
    if |entries| == 0 then []
    else Pairs(entries[..|entries| - 1]) + TagPairs(entries[|entries| - 1])
  }

  /** The `Map<string, Entry[]>`: its keys in insertion order and its
      contents. */
  datatype Groups = Groups(keys: seq<string>, members: map<string, seq<Entry>>)

  /** `if (!m.has(t)) m.set(t, []); m.get(t)!.push(e)`. */
  function Push(g: Groups, t: string, e: Entry): Groups {
    if t in g.members then Groups(g.keys, g.members[t := g.members[t] + [e]])
    else Groups(g.keys + [t], g.members[t := [e]])
  }

  function Fold(ps: seq<(string, Entry)>): Groups {
    if |ps| == 0 then Groups([], map[])
    else
      var last := ps[|ps| - 1];
      Push(Fold(ps[..|ps| - 1]), last.0, last.1)
  }

  /** Reference: the tags in order of first appearance. */
  function FirstSeen(ps: seq<(string, Entry)>): seq<string> {
    if |ps| == 0 then []
    else
      var seen := FirstSeen(ps[..|ps| - 1]);
      var t := ps[|ps| - 1].0;
      if t in seen then seen else seen + [t]
  }

  /** Reference: the feeds pushed under `t`, in order. */
  function Under(ps: seq<(string, Entry)>, t: string): seq<Entry> {
    if |ps| == 0 then []
    else Under(ps[..|ps| - 1], t) + (if ps[|ps| - 1].0 == t then [ps[|ps| - 1].1] else [])
  }

  predicate Distinct(s: seq<string>) {
    forall i, j :: 0 <= i < j < |s| ==> s[i] != s[j]
  }

  /** The map's keys are the tags in first-appearance order, each once, and
      each group holds the feeds pushed under its tag. */
  lemma {:induction false} FoldIsReference(ps: seq<(string, Entry)>)
    ensures Fold(ps).keys == FirstSeen(ps)
    ensures Distinct(Fold(ps).keys)
    ensures forall t :: t in Fold(ps).members <==> t in Fold(ps).keys
    ensures forall t :: t in Fold(ps).members ==> Fold(ps).members[t] == Under(ps, t)
    ensures forall t :: t !in Fold(ps).keys ==> Under(ps, t) == []
  {
    if |ps| > 0 {
      FoldIsReference(ps[..|ps| - 1]);
    }
  }

  /** Feeds that go to the top level, in order. */
  function Untagged(entries: seq<Entry>): (r: seq<Entry>)
    ensures forall e :: e in r <==> e in entries && |e.tags| == 0
  {
    Seqs.Filter(entries, (e: Entry) => |e.tags| == 0)
  }

  /** With each feed's tags distinct, a group holds every feed carrying its
      tag exactly once, in feed order. */
  lemma {:induction false} GroupIsFilter(entries: seq<Entry>, t: string)
    requires forall i :: 0 <= i < |entries| ==> Distinct(entries[i].tags)
    ensures Under(Pairs(entries), t) == Seqs.Filter(entries, (e: Entry) => t in e.tags)
  {
    if |entries| > 0 {
      var init, last := entries[..|entries| - 1], entries[|entries| - 1];
      GroupIsFilter(init, t);
      UnderAppend(Pairs(init), TagPairs(last), t);
      UnderOwnTags(last, t);
      Seqs.FilterSnoc(entries, (e: Entry) => t in e.tags);
    }
  }

  lemma {:induction false} UnderAppend(ps: seq<(string, Entry)>, qs: seq<(string, Entry)>, t: string)
    ensures Under(ps + qs, t) == Under(ps, t) + Under(qs, t)
    decreases |qs|
  {
    if |qs| == 0 {
      assert ps + qs == ps;
    } else {
      assert (ps + qs)[..|ps + qs| - 1] == ps + qs[..|qs| - 1];
      UnderAppend(ps, qs[..|qs| - 1], t);
    }
  }

  /** A feed with distinct tags is pushed under `t` once if it carries `t`
      and not at all otherwise. */
  lemma UnderOwnTags(e: Entry, t: string)
    requires Distinct(e.tags)
    ensures Under(TagPairs(e), t) == if t in e.tags then [e] else []
  {
    UnderTagsPrefix(e, t, |e.tags|);
    assert e.tags[..|e.tags|] == e.tags;
    assert TagPairs(e)[..|e.tags|] == TagPairs(e);
  }

  lemma {:induction false} UnderTagsPrefix(e: Entry, t: string, n: nat)
    requires Distinct(e.tags) && n <= |e.tags|
    ensures Under(TagPairs(e)[..n], t) == if t in e.tags[..n] then [e] else []
  {
    if n > 0 {
      UnderTagsPrefix(e, t, n - 1);
      assert TagPairs(e)[..n][..n - 1] == TagPairs(e)[..n - 1];
      assert e.tags[..n] == e.tags[..n - 1] + [e.tags[n - 1]];
    }
  }

  /* ----- The document ----- */

  /** The outlines of the body, in order. */
  datatype Line = Open(tag: string) | Rss(nested: bool, entry: Entry) | Close

  function RssLines(entries: seq<Entry>, nested: bool): (r: seq<Line>)
    ensures |r| == |entries|
    ensures forall k :: 0 <= k < |r| ==> r[k] == Rss(nested, entries[k])
  {
    seq(|entries|, k requires 0 <= k < |entries| => Rss(nested, entries[k]))
  }

  /** Each group in key order: its opening outline, its feeds, its closing
      outline. */
  function GroupLines(keys: seq<string>, members: map<string, seq<Entry>>): seq<Line>
    requires forall t :: t in keys ==> t in members
  {
    if |keys| == 0 then []
    else [Open(keys[0])] + RssLines(members[keys[0]], true) + [Close] + GroupLines(keys[1..], members)
  }

  function BodyLines(entries: seq<Entry>): seq<Line> {
    var g := Fold(Pairs(entries));
    FoldIsReference(Pairs(entries));
    GroupLines(g.keys, g.members) + RssLines(Untagged(entries), false)
  }

  function Indent(n: nat): string {
    seq(n, _ => ' ')
  }

  /** The feed outline
      `<outline type="rss" text="T" title="T" xmlUrl="U" htmlUrl="U"/>`
      with its newline, written as its quote-free pieces joined by quotes. */
  function RssLine(indent: nat, e: Entry): string {
    var t, u := EscapeXml(e.title), EscapeXml(e.url);
    Strings.Join([Indent(indent) + "<outline type=", "rss", " text=", t, " title=", t,
                  " xmlUrl=", u, " htmlUrl=", u, "/>\n"], "\"")
  }

  function Render(l: Line): string {
    match l
    case Open(t) => "    <outline text=\"" + EscapeXml(t) + "\" title=\"" + EscapeXml(t) + "\">\n"
    case Rss(nested, e) => RssLine(if nested then 6 else 4, e)
    case Close => "    </outline>\n"
  }

  function RenderAll(lines: seq<Line>): string {
    if |lines| == 0 then "" else Render(lines[0]) + RenderAll(lines[1..])
  }

  function Header(date: string): string {
    "<?xml version=\"1.0\" encoding=\"UTF-8\"?>\n<opml version=\"2.0\">\n  <head>\n"
      + "    <title>FeedFlow Subscriptions</title>\n"
      + "    <dateCreated>" + date + "</dateCreated>\n"
      + "    <dateModified>" + date + "</dateModified>\n"
      + "  </head>\n  <body>\n"
  }

  const Footer: string := "  </body>\n</opml>"

  /** `generateOPML`; `date` is the ISO timestamp of the export. */
  function GenerateOpml(entries: seq<Entry>, date: string): string {
    Header(date) + RenderAll(BodyLines(entries)) + Footer
  }

  /* ----- Counting the feed outlines ----- */

  function RssCount(lines: seq<Line>): nat {
    if |lines| == 0 then 0 else (if lines[0].Rss? then 1 else 0) + RssCount(lines[1..])
  }

  lemma {:induction false} RssCountAppend(a: seq<Line>, b: seq<Line>)
    ensures RssCount(a + b) == RssCount(a) + RssCount(b)
  {
    if |a| == 0 {
      assert a + b == b;
    } else {
      assert (a + b)[1..] == a[1..] + b;
      RssCountAppend(a[1..], b);
    }
  }

  lemma {:induction false} RssCountRss(entries: seq<Entry>, nested: bool)
    ensures RssCount(RssLines(entries, nested)) == |entries|
  {
    if |entries| > 0 {
      RssCountRss(entries[1..], nested);
      assert RssLines(entries, nested)[1..] == RssLines(entries[1..], nested);
    }
  }

  /** The sizes of the groups of the given tags. */
  function UnderSizes(keys: seq<string>, ps: seq<(string, Entry)>): nat {
    if |keys| == 0 then 0 else |Under(ps, keys[0])| + UnderSizes(keys[1..], ps)
  }

  lemma {:induction false} GroupLinesCount(keys: seq<string>, members: map<string, seq<Entry>>, ps: seq<(string, Entry)>)
    requires forall t :: t in keys ==> t in members && members[t] == Under(ps, t)
    ensures RssCount(GroupLines(keys, members)) == UnderSizes(keys, ps)
  {
    if |keys| > 0 {
      GroupLinesCount(keys[1..], members, ps);
      var head := [Open(keys[0])] + RssLines(members[keys[0]], true) + [Close];
      RssCountAppend(head, GroupLines(keys[1..], members));
      RssCountAppend([Open(keys[0])] + RssLines(members[keys[0]], true), [Close]);
      RssCountAppend([Open(keys[0])], RssLines(members[keys[0]], true));
      RssCountRss(members[keys[0]], true);
    }
  }

  /** One more push adds one to the group sizes of distinct keys holding
      its tag, and nothing to those without it. */
  lemma {:induction false} UnderSizesPush(keys: seq<string>, ps: seq<(string, Entry)>, p: (string, Entry))
    requires Distinct(keys)
    ensures UnderSizes(keys, ps + [p]) == UnderSizes(keys, ps) + (if p.0 in keys then 1 else 0)
  {
    if |keys| > 0 {
      assert Distinct(keys[1..]) by {
        forall i, j | 0 <= i < j < |keys[1..]| ensures keys[1..][i] != keys[1..][j] {
          assert keys[1..][i] == keys[i + 1] && keys[1..][j] == keys[j + 1];
        }
      }
      UnderSizesPush(keys[1..], ps, p);
      assert (ps + [p])[..|ps|] == ps;
      if p.0 == keys[0] {
        assert p.0 !in keys[1..] by {
          forall j | 0 <= j < |keys[1..]| ensures keys[1..][j] != p.0 {
            assert keys[1..][j] == keys[j + 1];
          }
        }
      }
      assert p.0 in keys <==> p.0 == keys[0] || p.0 in keys[1..] by {
        assert keys == [keys[0]] + keys[1..];
      }
    }
  }

  /** A key first seen at the last push has a group of one feed. */
  lemma {:induction false} UnderSizesNew(keys: seq<string>, ps: seq<(string, Entry)>, p: (string, Entry))
    requires Distinct(keys + [p.0]) && Under(ps, p.0) == []
    ensures UnderSizes(keys + [p.0], ps + [p]) == UnderSizes(keys, ps + [p]) + 1
  {
    if |keys| == 0 {
      assert (ps + [p])[..|ps|] == ps;
      assert (keys + [p.0])[1..] == [];
    } else {
      assert (keys + [p.0])[1..] == keys[1..] + [p.0];
      assert Distinct(keys[1..] + [p.0]) by {
        forall i, j | 0 <= i < j < |keys[1..] + [p.0]|
          ensures (keys[1..] + [p.0])[i] != (keys[1..] + [p.0])[j] {
          assert (keys[1..] + [p.0])[i] == (keys + [p.0])[i + 1];
          assert (keys[1..] + [p.0])[j] == (keys + [p.0])[j + 1];
        }
      }
      UnderSizesNew(keys[1..], ps, p);
    }
  }

  /** The groups together hold one feed per push. */
  lemma {:induction false} GroupSizesTotal(ps: seq<(string, Entry)>)
    ensures UnderSizes(FirstSeen(ps), ps) == |ps|
  {
    if |ps| > 0 {
      var init, p := ps[..|ps| - 1], ps[|ps| - 1];
      var keys := FirstSeen(init);
      GroupSizesTotal(init);
      assert Distinct(keys) && (p.0 !in keys ==> Under(init, p.0) == []) by {
        FoldIsReference(init);
      }
      assert ps == init + [p];
      assert FirstSeen(ps) == if p.0 in keys then keys else keys + [p.0];
      UnderSizesPush(keys, init, p);
      if p.0 !in keys {
        assert Distinct(keys + [p.0]) by {
          FoldIsReference(ps);
        }
        UnderSizesNew(keys, init, p);
      }
    }
  }

  lemma {:induction false} PairsLength(entries: seq<Entry>)
    ensures |Pairs(entries)| == TagTotal(entries)
  {
    if |entries| > 0 {
      PairsLength(entries[..|entries| - 1]);
    }
  }

  /** The number of tags over all feeds. */
  function TagTotal(entries: seq<Entry>): nat {
    if |entries| == 0 then 0 else TagTotal(entries[..|entries| - 1]) + |entries[|entries| - 1].tags|
  }

  /** Every feed once per tag, or once when it has none. */
  function OutlinesExpected(entries: seq<Entry>): nat {
    if |entries| == 0 then 0
    else OutlinesExpected(entries[..|entries| - 1]) + (if |entries[|entries| - 1].tags| == 0 then 1 else |entries[|entries| - 1].tags|)
  }

  lemma {:induction false} ExpectedSplits(entries: seq<Entry>)
    ensures OutlinesExpected(entries) == TagTotal(entries) + |Untagged(entries)|
  {
    if |entries| > 0 {
      var init, last := entries[..|entries| - 1], entries[|entries| - 1];
      ExpectedSplits(init);
      assert entries == init + [last];
      Seqs.FilterAppend(init, [last], (e: Entry) => |e.tags| == 0);
    }
  }

  /** The document has one feed outline per (feed, tag) pair and one per
      untagged feed: the sum over the feeds of max(1, number of tags). */
  lemma OutlineCount(entries: seq<Entry>)
    ensures RssCount(BodyLines(entries)) == OutlinesExpected(entries)
  {
    var ps := Pairs(entries);
    var g := Fold(ps);
    FoldIsReference(ps);
    RssCountAppend(GroupLines(g.keys, g.members), RssLines(Untagged(entries), false));
    GroupLinesCount(g.keys, g.members, ps);
    GroupSizesTotal(ps);
    RssCountRss(Untagged(entries), false);
    PairsLength(entries);
    ExpectedSplits(entries);
  }

  /* ----- The outline attributes ----- */

  /** Splitting a feed outline on the quote character gives back the
      attribute values, and decoding them gives the title and the url: the
      escaped title fills `text` and `title`, the escaped url fills
      `xmlUrl` and `htmlUrl`. */
  lemma RssLineAttributes(indent: nat, e: Entry)
    ensures var parts := Strings.Split(RssLine(indent, e), {'"'});
            && |parts| == 11
            && parts[3] == parts[5] == EscapeXml(e.title)
            && parts[7] == parts[9] == EscapeXml(e.url)
            && Unescape(parts[3]) == e.title && Unescape(parts[7]) == e.url
  {
    RssLineSplit(indent, e);
    UnescapeEscape(e.title);
    UnescapeEscape(e.url);
  }

  /** The pieces of a feed outline come back from a split on the quote. */
  lemma RssLineSplit(indent: nat, e: Entry)
    ensures Strings.Split(RssLine(indent, e), {'"'})
            == [Indent(indent) + "<outline type=", "rss", " text=", EscapeXml(e.title), " title=", EscapeXml(e.title),
                " xmlUrl=", EscapeXml(e.url), " htmlUrl=", EscapeXml(e.url), "/>\n"]
  {
    var t, u := EscapeXml(e.title), EscapeXml(e.url);
    var parts := [Indent(indent) + "<outline type=", "rss", " text=", t, " title=", t, " xmlUrl=", u, " htmlUrl=", u, "/>\n"];
    assert forall x :: x in parts ==> Strings.NoneIn(x, {'"'}) by {
      EscapedQuoteFree(e.title);
      EscapedQuoteFree(e.url);
      IndentQuoteFree(indent);
      QuoteFree("rss");
      QuoteFree(" text=");
      QuoteFree(" title=");
      QuoteFree(" xmlUrl=");
      QuoteFree(" htmlUrl=");
      QuoteFree("/>\n");
    }
    SplitJoinFree(parts, '"');
  }

  lemma QuoteFree(s: string)
    requires '"' !in s
    ensures Strings.NoneIn(s, {'"'})
  {
  }

  lemma EscapedQuoteFree(s: string)
    ensures Strings.NoneIn(EscapeXml(s), {'"'})
  {
    EscapedHasNoMarkup(s);
  }

  lemma IndentQuoteFree(n: nat)
    ensures Strings.NoneIn(Indent(n) + "<outline type=", {'"'})
  {
    var s := Indent(n) + "<outline type=";
    forall i | 0 <= i < |s| ensures s[i] !in {'"'} {
      if i >= n {
        assert s[i] == "<outline type="[i - n];
      }
    }
  }

  /** Joining quote-free pieces with a quote and splitting on it is the
      identity. */
  lemma {:induction false} SplitJoinFree(parts: seq<string>, c: char)
    requires |parts| > 0
    requires forall x :: x in parts ==> Strings.NoneIn(x, {c})
    ensures Strings.Split(Strings.Join(parts, [c]), {c}) == parts
  {
    if |parts| == 1 {
      Strings.SplitFree(parts[0], {c});
    } else {
      SplitJoinFree(parts[1..], c);
      Strings.SplitAfterFree(parts[0], c, Strings.Join(parts[1..], [c]), {c});
      assert parts == [parts[0]] + parts[1..];
    }
  }

  /* ----- The route ----- */

  /** The sort key of `orderBy: { title: "asc" }`. */
  function TitleKey(f: Store.Feed): string {
    f.title.GetOr("")
  }

  /** The feeds exported: the caller's, by title, without the untitled
      ones. */
  function Exported(feeds: seq<Store.Feed>, userId: Store.Id): (r: seq<Store.Feed>)
    ensures forall f :: f in r <==> f in feeds && f.userId == userId && f.title.Some?
    ensures Ordering.SortedAsc(r, TitleKey)
  {
    var own := Seqs.Filter(feeds, (f: Store.Feed) => f.userId == userId);
    var sorted := Ordering.SortAsc(own, TitleKey);
    Seqs.SameMembers(sorted, own);
    var titled := Seqs.Filter(sorted, (f: Store.Feed) => f.title.Some?);
    FilterKeepsAsc(sorted, (f: Store.Feed) => f.title.Some?);
    titled
  }

  /** Filtering keeps an ascending order. */
  lemma {:induction false} FilterKeepsAsc(s: seq<Store.Feed>, p: Store.Feed -> bool)
    requires Ordering.SortedAsc(s, TitleKey)
    ensures Ordering.SortedAsc(Seqs.Filter(s, p), TitleKey)
  {
    if |s| > 0 {
      assert Ordering.SortedAsc(s[1..], TitleKey) by {
        forall i, j | 0 <= i < j < |s[1..]| ensures !Ordering.LexLess(TitleKey(s[1..][j]), TitleKey(s[1..][i])) {
          assert s[1..][i] == s[i + 1] && s[1..][j] == s[j + 1];
        }
      }
      FilterKeepsAsc(s[1..], p);
      if p(s[0]) {
        forall y | y in Seqs.Filter(s[1..], p) ensures !Ordering.LexLess(TitleKey(y), TitleKey(s[0])) {
          var j :| 0 <= j < |s[1..]| && s[1..][j] == y;
          assert s[j + 1] == y;
        }
        Ordering.SortedAscCons(s[0], Seqs.Filter(s[1..], p), TitleKey);
      }
    }
  }

  function ToEntry(f: Store.Feed): Entry {
    Entry(f.url, f.title.GetOr(""), f.tags)
  }

  /** The records handed to `generateOPML`, in export order. */
  function Entries(feeds: seq<Store.Feed>, userId: Store.Id): (r: seq<Entry>)
    ensures forall e :: e in r <==> exists f :: f in feeds && f.userId == userId && f.title.Some? && e == ToEntry(f)
  {
    var exported := Exported(feeds, userId);
    var r := seq(|exported|, k requires 0 <= k < |exported| => ToEntry(exported[k]));
    ToEntryMembers(feeds, userId, exported, r);
    r
  }

  lemma ToEntryMembers(feeds: seq<Store.Feed>, userId: Store.Id, exported: seq<Store.Feed>, r: seq<Entry>)
    requires forall f :: f in exported <==> f in feeds && f.userId == userId && f.title.Some?
    requires |r| == |exported| && forall k :: 0 <= k < |r| ==> r[k] == ToEntry(exported[k])
    ensures forall e :: e in r <==> exists f :: f in feeds && f.userId == userId && f.title.Some? && e == ToEntry(f)
  {
    forall e | e in r ensures exists f :: f in feeds && f.userId == userId && f.title.Some? && e == ToEntry(f) {
      var k :| 0 <= k < |r| && r[k] == e;
      assert exported[k] in exported;
    }
    forall e | exists f :: f in feeds && f.userId == userId && f.title.Some? && e == ToEntry(f) ensures e in r {
      var f :| f in feeds && f.userId == userId && f.title.Some? && e == ToEntry(f);
      var k :| 0 <= k < |exported| && exported[k] == f;
      assert r[k] == e;
    }
  }

  datatype ExportResponse = ExportUnauthorized | Document(content: string)

  /** The export route; `date` is the ISO timestamp of the request. */
  function Export(feeds: seq<Store.Feed>, session: Option<Store.Id>, date: string): (r: ExportResponse)
    ensures session.None? <==> r.ExportUnauthorized?
    ensures r.Document? ==> r.content == GenerateOpml(Entries(feeds, session.value), date)
  {
    if session.None? then ExportUnauthorized
    else Document(GenerateOpml(Entries(feeds, session.value), date))
  }
}
