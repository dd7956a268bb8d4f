/** The persisted records the routes read and write, and the daily-summary
    table keyed by (user, day). Times are integers (milliseconds since the
    epoch); a "day" is the local-midnight instant of that day. */
module Store {
  import opened Wrappers

  type Id = string

  /** Milliseconds since the epoch. */
  type Time = int

  const DayMillis: int := 24 * 60 * 60 * 1000

  datatype Role = Member | Admin | SuperAdmin

  datatype Feed = Feed(
    id: Id,
    userId: Id,
    url: string,
    title: Option<string>,
    tags: seq<string>,
    titleFilter: Option<string>,
    createdAt: Time)

  datatype Item = Item(
    id: Id,
    feedId: Id,
    title: string,
    link: Option<string>,
    description: Option<string>,
    pubDate: Time,
    read: bool,
    createdAt: Time)

  datatype User = User(
    id: Id,
    email: string,
    role: Role,
    summaryLanguage: Option<string>,
    itemRetentionDays: int,
    itemRetentionOnlyRead: bool,
    lastItemCleanup: Option<Time>)

  /** The feed with the given id, if any. */
  function FeedById(feeds: seq<Feed>, id: Id): (r: Option<Feed>)
    ensures r.Some? ==> r.value in feeds && r.value.id == id
    ensures r.None? ==> forall f :: f in feeds ==> f.id != id
  {
    if |feeds| == 0 then None
    else if feeds[0].id == id then Some(feeds[0])
    else FeedById(feeds[1..], id)
  }

  /** Prisma's relation filter `feed: { userId }`: the item's feed exists and
      belongs to the user. */
  predicate OwnedBy(feeds: seq<Feed>, item: Item, userId: Id) {
    var f := FeedById(feeds, item.feedId);
    f.Some? && f.value.userId == userId
  }

  /* ----- Daily summaries ----- */

  datatype SummaryKey = SummaryKey(userId: Id, date: Time)

  datatype DailySummary = DailySummary(
    userId: Id,
    date: Time,
    content: string,
    language: string,
    itemCount: int)

  /** The summary table; the unique index on (userId, date) makes it a map. */
  type Summaries = map<SummaryKey, DailySummary>

  /** Every row sits under its own (userId, date) key. */
  predicate KeysConsistent(m: Summaries) {
    forall k :: k in m ==> m[k].userId == k.userId && m[k].date == k.date
  }

  /** `findUnique({ where: { userId_date } })` at the given local midnight. */
  function GetTodaySummary(m: Summaries, userId: Id, today: Time): (r: Option<DailySummary>)
    requires KeysConsistent(m)
    ensures r.Some? <==> SummaryKey(userId, today) in m
    ensures r.Some? ==> r.value.userId == userId && r.value.date == today
  {
    var k := SummaryKey(userId, today);
    if k in m then Some(m[k]) else None
  }

  /** `createDailySummary`: inserts the row for (user, today), or fails on
      the unique index when one exists. */
  function CreateDailySummary(m: Summaries, userId: Id, content: string, language: string,
                              itemCount: int, today: Time): (r: Option<(Summaries, DailySummary)>)
    requires KeysConsistent(m)
    ensures r.None? <==> SummaryKey(userId, today) in m
    ensures r.Some? ==>
              var (m', s) := r.value;
              KeysConsistent(m')
              && s == DailySummary(userId, today, content, language, itemCount)
              && m'.Keys == m.Keys + {SummaryKey(userId, today)}
              && m'[SummaryKey(userId, today)] == s
              && forall k :: k in m && k != SummaryKey(userId, today) ==> m'[k] == m[k]
  {
    var k := SummaryKey(userId, today);
    if k in m then None
    else
      var s := DailySummary(userId, today, content, language, itemCount);
      Some((m[k := s], s))
  }

  /** `getUserSummaryLanguage`: the stored preference, or "zh" when the user
      or the preference is missing or empty. */
  function SummaryLanguage(users: map<Id, User>, userId: Id): (r: string)
    ensures |r| > 0
    ensures (userId in users && users[userId].summaryLanguage.Some?
             && users[userId].summaryLanguage.value != "") ==> r == users[userId].summaryLanguage.value
    ensures r != "zh" ==> userId in users && users[userId].summaryLanguage == Some(r)
  {
    if userId in users && users[userId].summaryLanguage.Some? && users[userId].summaryLanguage.value != ""
    then users[userId].summaryLanguage.value
    else "zh"
  }
}
