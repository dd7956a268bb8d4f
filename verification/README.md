# feedwise, modelled in Dafny

feedwise is a self-hosted RSS reader built on Next.js. Users subscribe to
feeds, which are optionally tagged by a chat-completions model. They read
and mark items, export their subscriptions as OPML, and receive a daily
digest, which the model writes either in one call or streamed to the page.
This project models the sequential rules at the core of the reader as pure
Dafny functions over immutable datatypes, and proves what those rules
promise.

The modules follow the source:

- `Store` holds the records and the daily-summary table, keyed by user and local day.
- The API routes:
  - `FeedRoutes` covers subscribe and list.
  - `ItemRoutes` covers listing, mark-read, mark-all-read and retention cleanup.
  - `SettingsRoutes` covers the retention and summary-language settings.
  - `SummaryRoutes` covers save, generate and check-and-generate. `GenerateRoute` stands for both of the last two, whose logic is the same.
  - `Opml` covers the OPML export.
  - `StreamRelay` covers the streamed digest. It uses the `data: …` framing of the event-stream format of section 9.2 of the WHATWG HTML Living Standard, reduced to single-line `data:` fields.
- The libraries:
  - `DigestPrompt` and `DigestGenerator` cover the digest prompt and its generation.
  - `Categorizer` and `ChatApi` cover feed tagging and the chat-completions configuration.
  - `ColorUtils` covers the colour helpers.
  - `Logger` covers the logger.
  - `Initialize` covers start-up initialisation.
- The client state:
  - `ClientFeeds`, `ClientItems`, `FeedActions` and `HomeState` cover the hooks and list updates.
  - `HomePage`, `RootPage`, `Sidebar`, `SettingsPage` and `AdminPage` cover the pages.
  - `ClientStream` covers the page's reader of the digest stream.
  - `ReaderContent` and `ReaderSettings` cover the article view and its presets.
- The shared modules:
  - `Tags` parses tag lists.
  - `Json` is a JSON value with its stringifier; `JsonParse` is its parser.
  - `Strings`, `Seqs`, `Ordering` and `Wrappers` hold the common helpers.

The model takes its outside world as parameters:

- Sessions, clocks and the local-midnight day are plain values. Times are integers in milliseconds.
- Upstream answers are values: the RSS fetch, the chat-completions reply and the SSE body chunks.
- Store faults are a `fault` flag wherever the source catches them.
- Environment variables are a map.
- Regular-expression compilation and matching are uninterpreted function parameters.

The HTML-tag stripping of `ReaderContent` is the same replacement that the
item list and the root page apply to descriptions.

## Model

| member | source | states |
|---|---|---|
| ChatApi.GetOpenAIConfig | src/lib/openai-categorizer.ts:19-50 | a configuration exists exactly when no lookup fails and all three keys are stored with a non-empty API key; an empty base URL or model still gives one, carrying the stored values |
| ChatApi.ReplyContent | src/lib/openai-categorizer.ts:140-141 | the text read at `choices[0].message.content` is trimmed; a `null` body makes the read throw |
| ChatApi.ReplyWithContent | src/lib/openai-categorizer.ts:140-141 | a well-formed reply carrying `s` yields the trimmed `s` |
| Categorizer.SampleLines | src/lib/openai-categorizer.ts:64-67 | at most the first five samples are listed, one line per sample, in order |
| Categorizer.SampleLinesNumbered | src/lib/openai-categorizer.ts:64-67 | line i starts with its number i+1 followed by ". ", and a sample without a title is listed as "Untitled" |
| Categorizer.SampleLineHead | src/lib/openai-categorizer.ts:66 | each sample line starts with its number and shows "Untitled" for a missing title |
| Categorizer.PromptFacts | src/lib/openai-categorizer.ts:61-67 | the prompt's title falls back to the url and its description to "No description available"; the samples are joined by newlines |
| Categorizer.Categorize | src/lib/openai-categorizer.ts:52-164 | no configuration gives no tags; tags are returned exactly when the exchange succeeds with non-blank content that leaves at least one tag; the tags are the parsed pieces, each non-empty, trimmed and free of both commas |
| Categorizer.AnswerRoundTrip | src/lib/openai-categorizer.ts:141-159 | an answer that lists clean tags joined by ", " yields exactly those tags |
| Categorizer.ShowTrimmed | src/lib/openai-categorizer.ts:141-151 | the joined form of clean tags is non-empty and already trimmed, so trimming the answer loses nothing |
| Categorizer.RecentSamples | src/lib/openai-categorizer.ts:168-192 | the samples of a feed are at most its five most recent stored items |
| Categorizer.SetTags | src/lib/openai-categorizer.ts:194-199 | only the feed with the given id gets the new tags; every other feed is unchanged |
| Categorizer.CategorizeFeedById | src/lib/openai-categorizer.ts:166-206 | a missing feed or a failure gives no tags and no write; tags are written to that feed exactly when categorisation returned some |
| Store.GetTodaySummary | src/lib/summary-generator.ts:223-238 | a row is found exactly when one is stored under (user, local midnight), and it belongs to that user and day |
| Store.CreateDailySummary | src/lib/summary-generator.ts:240-253 | creation fails exactly when the (user, day) key is taken; otherwise exactly that one row is added, keeping the table's keys consistent |
| Store.SummaryLanguage | src/lib/summary-generator.ts:255-262 | the stored non-empty preference, and "zh" when the user or the preference is missing or empty |
| Initialize.Defaults | src/lib/initialize.ts:16-37 | four default configurations with the three OpenAI keys first and a non-empty item limit last |
| Initialize.InitConfigs | src/lib/initialize.ts:39-71 | existing configurations are never modified and only default keys are added; a duplicate-key error counts as present; any other create error aborts; without an error every default key is present |
| Initialize.ConfigsSettled | src/lib/initialize.ts:42-63 | once every key exists a second pass neither writes nor fails, whatever the store would answer |
| Initialize.InitAdmin | src/lib/initialize.ts:73-117 | a missing or empty password throws before any lookup; an existing admin means no write; otherwise exactly one SUPER_ADMIN account is created, and a duplicate-key error counts as success |
| Initialize.InitApplication | src/lib/initialize.ts:133-140 | configurations are initialised first and an error there skips the administrator |
| Initialize.InitializeTwice | src/lib/initialize.ts:137-138 | running the initialisation again after a successful run changes nothing and throws nothing |
| SummaryRoutes.Force | src/app/api/summaries/save/route.ts:17 | `force` holds exactly when the body's `force` member is the boolean true |
| SummaryRoutes.ItemCount | src/app/api/summaries/save/route.ts:19 | the body's `itemCount` when truthy, otherwise 0 |
| SummaryRoutes.Save | src/app/api/summaries/save/route.ts:7-60 | 401 without a session; 400 without content (an unparsable body included) leaving the table alone; an existing row without force fails and is unchanged; a forced save replaces content and language only; otherwise one row is created; the language always comes from the user's preference; conversely a non-empty string content is always saved, over today's row when forced and otherwise as a new row holding exactly the user, the day, the content, the language and the numeric count |
| SummaryRoutes.GenerateRoute | src/app/api/summaries/generate/route.ts:8-77 | 401 without a session; today's existing row is returned unchanged; no unread items write nothing; missing settings report the not-configured message, a failed item query or an article carrying an inherited tag the failure message, and a reply without content the no-content message, each writing nothing; a reply with content stores and returns exactly the row of the user and day holding that content, the user's language and the size of the fetched window; a throw gives an empty summary |
| SummaryRoutes.Record | src/app/api/summaries/generate/route.ts:61-71 | with no row for the day, a failed result reports its error and writes nothing, and a generated one stores and returns exactly the row of the user and day with that content, the language, and the result's count or, when it is 0, the unread count |
| SummaryRoutes.SecondGenerateReturnsFirst | src/app/api/summaries/check-and-generate/route.ts:15-19 | a second request on the same day, to this route or to the generate route whose logic it shares, returns the row the first created and writes nothing |
| SummaryRoutes.ForcedSaveKeepsCount | src/app/api/summaries/save/route.ts:33-46 | a forced save of an existing day keeps its date and item count and replaces its content and language |
| SettingsRoutes.GetRetention | src/app/api/settings/cleanup/route.ts:6-39 | 401 without a session, 404 for a missing user, otherwise the three stored retention fields as they are |
| SettingsRoutes.PatchRetention | src/app/api/settings/cleanup/route.ts:41-93 | a retention below -1 or not a number is refused before the flag is checked; a non-boolean flag is refused; a body that is not JSON or a missing user fails; valid values for an existing user always succeed, storing exactly the two values, keeping the last-cleanup stamp and echoing it |
| SettingsRoutes.PatchThenGet | src/app/api/settings/cleanup/route.ts:68-85 | what a successful update stores a read returns, and nothing else of the user changes |
| SettingsRoutes.ParseLanguage | src/app/api/user/settings/route.ts:7-9 | a present language must be "zh" or "en"; an absent one is accepted as absent |
| SettingsRoutes.GetLanguage | src/app/api/user/settings/route.ts:52-80 | 401 without a session, 404 for a missing user, otherwise the stored language |
| SettingsRoutes.PatchLanguage | src/app/api/user/settings/route.ts:11-50 | an invalid language gives 400; a body that is not JSON or a missing user fails; a body the schema admits always succeeds for an existing user; an omitted language leaves the stored value; the reply carries the user's id and resulting language |
| SettingsRoutes.PatchLanguageThenGet | src/app/api/user/settings/route.ts:23-34 | a stored language is always one the schema admits, and what the update reports a read returns |
| TitleFilter.Compile | src/app/api/items/route.ts:49-61 | no filter for a missing or empty pattern, none for one that does not compile (fail-open), otherwise the compiled pattern |
| ClientFeeds.OrElse | src/hooks/useFeedActions.ts:61 | the reply's message when present and non-empty, otherwise the fallback |
| ClientFeeds.AllTags | src/components/Sidebar.tsx:43-51 | every tag of every feed occurs, nothing else does, strictly ascending and so without duplicates |
| ClientFeeds.AllTagsUnique | src/app/page.tsx:94-102 | any strictly sorted list of exactly the feeds' tags is the tag list, so the order of the feeds does not matter |
| ClientFeeds.AllTagsSameTags | src/app/settings/page.tsx:359-367 | two feed lists with the same tags give the same tag list |
| ClientFeeds.CheckUrl | src/app/page.tsx:109-119 | a URL blank after trimming is refused first; then the untrimmed URL must start with "http://" or "https://"; anything else is accepted |
| ClientFeeds.LeadingSpaceRefused | src/components/Sidebar.tsx:96-106 | the scheme is checked on the text as typed: a valid URL behind a space is refused although it trims to an accepted one |
| ClientFeeds.Select | src/components/Sidebar.tsx:133-151 | a feed click selects the feed and clears the tag, a tag click selects the tag and clears the feed, "all feeds" clears both |
| ClientFeeds.LastClickDecides | src/app/page.tsx:200-216 | whatever came before, the last click alone decides the selection, which is exclusive afterwards |
| ClientFeeds.AfterDelete | src/hooks/useFeedActions.ts:117-120 | deleting the selected feed clears the feed selection and keeps the tag; deleting another feed changes nothing |
| FeedActions.AddFeed | src/hooks/useFeedActions.ts:31-73 | a blank URL and then a non-http(s) URL are refused with their messages before any request; the POST is sent exactly when both checks pass; loading is lowered and the feeds, items and selection are untouched |
| FeedActions.AddAnswered | src/hooks/useFeedActions.ts:52-72 | an accepted feed clears the URL and the message; a refusal shows the reply's message or "Failed to add feed"; a thrown request shows the network message |
| FeedActions.RefreshFeed | src/hooks/useFeedActions.ts:75-99 | the refreshing flag is lowered; success keeps the message; a refusal or a throw shows its prefixed message |
| FeedActions.DeleteFeed | src/hooks/useFeedActions.ts:101-129 | nothing happens without confirmation; the deleting flag is lowered; a successful delete of the selected feed clears the feed selection, any other outcome keeps it |
| FeedActions.AutoCategorize | src/hooks/useFeedActions.ts:131-155 | the categorising flag is lowered and a message is always shown: the reply's on success, the refusal's or a fixed one otherwise |
| FeedActions.RefreshAll | src/hooks/useFeedActions.ts:157-177 | the flag is lowered; success keeps the message, any failure shows the fixed one |
| FeedActions.MarkAllAsRead | src/hooks/useFeedActions.ts:179-216 | after success exactly the items in the scope of the selected feed and tag become read; after a failure the items are unchanged and the refusal's or the fixed message is shown |
| FeedActions.MarkAsRead | src/hooks/useFeedActions.ts:218-262 | the items become the local list after the mark (removed on 404, read on success) and the message passed to the error setter is the one the reply calls for |
| FeedActions.HandlersSettle | src/hooks/useFeedActions.ts:96-98 | every busy flag a handler raises it lowers: from an idle state any run of completed handlers ends idle |
| FeedActions.HandlersKeepListing | src/hooks/useFeedActions.ts:23-274 | the handlers never change the feed list, the filter or the paging themselves |
| HomeState.Initial | src/hooks/useHomeState.ts:31-50 | filter "unread", page 1, more pages expected, the feed list expanded, no feeds, no items, nothing busy |
| HomeState.ApplyHolds | src/hooks/useHomeState.ts:52-54 | every field the update gives takes the given value |
| HomeState.ApplyKeeps | src/hooks/useHomeState.ts:52-54 | every field the update leaves out keeps its value |
| HomeState.ApplyUnique | src/hooks/useHomeState.ts:52-54 | a state that has every given field and keeps every other one is the result of the update |
| HomeState.ApplyNoChange | src/hooks/useHomeState.ts:52-54 | the empty update is the identity |
| HomeState.ApplyThen | src/hooks/useHomeState.ts:52-54 | applying one update and then another is applying their combination, in which the later value wins per field |
| HomeState.ApplyTwice | src/hooks/useHomeState.ts:52-54 | applying an update a second time changes nothing |
| FeedActions.Handle | src/hooks/useFeedActions.ts:264-273 | any one completed handler leaves the feed list, filter and paging alone and an idle state idle |
| ClientItems.ItemsParams | src/components/HomePage.tsx:58-65 | the read parameter is "true" exactly for the read filter and "false" exactly for the unread one; without paging at most three parameters are sent |
| ClientItems.Param | src/app/api/items/route.ts:21-23 | no value exactly when no parameter has the name; a value found is one sent under that name |
| ClientItems.QueryAgrees | src/app/api/items/route.ts:21-23 | the endpoint reads back exactly the feed, the tag and the read state the client put in the query |
| ClientItems.MarkAllRead | src/app/page.tsx:240-253 | same length; an item ends read exactly when it was read or lies in the scope of the selected feed and tag; nothing but the read flag changes |
| ClientItems.MarkAllReadIdempotent | src/components/HomePage.tsx:423-432 | repeating the local mark-all update changes nothing |
| ClientItems.MarkAllAgrees | src/app/api/items/mark-all-read/route.ts:23-45 | for an item the client shows as the store holds it, the body the client sends puts the item in the endpoint's scope exactly when the local update marks it |
| ClientItems.SentFields | src/app/api/items/mark-all-read/route.ts:20-38 | the endpoint reads back the feed and the tag the client sent when they are truthy, nothing otherwise |
| ClientItems.MarkRead | src/app/page.tsx:276-280 | same length; only the item with the given id changes, and only to read |
| ClientItems.MarkReadIdempotent | src/hooks/useFeedActions.ts:250-254 | marking the same item again changes nothing |
| ClientItems.AfterMark | src/components/HomePage.tsx:499-534 | a success marks the item read with no message; a 404 removes exactly that id and shows the not-found message; a refusal or a throw leaves the list unchanged |
| ClientItems.Ids | src/components/HomePage.tsx:75 | the ids of the listed items, position by position |
| ClientItems.RemoveId | src/hooks/useFeedActions.ts:232-235 | the list keeps exactly the items whose id differs, and never grows |
| ClientItems.RemoveIdCount | src/components/HomePage.tsx:512-513 | with distinct ids, removing a listed id shortens the list by exactly one, and removing an unlisted one changes nothing |
| ClientItems.Unseen | src/components/HomePage.tsx:75-76 | the items it holds are exactly the page's items whose id is not already listed |
| ClientItems.UnseenSnoc | src/components/HomePage.tsx:75-76 | one more page item at the end is kept, at the end, exactly when its id is not already listed, so the unseen items keep page order and repeats |
| ClientItems.Arrive | src/components/HomePage.tsx:73-81 | replace mode gives the page; append mode keeps the old list as a prefix followed by the page's unseen items, and holds exactly the old items and the page's items with new ids |
| ClientItems.ArriveEmpty | src/components/HomePage.tsx:73-81 | appending an empty page leaves the list as it was |
| ClientItems.ArriveSnoc | src/components/HomePage.tsx:73-81 | appending a page with one more item at the end adds that item at the end exactly when its id was not listed before, so the appended tail is the page's unseen items in page order |
| ClientItems.AppendDistinct | src/components/HomePage.tsx:73-77 | distinct ids before and in the page give distinct ids after, and every id of the page is listed afterwards |
| ClientItems.Loaded | src/components/HomePage.tsx:71-84 | a failed or non-ok response changes nothing; an answer sets the items as it arrives, more pages exactly when 20 items came, and the page to the one requested |
| ClientItems.LoadMore | src/components/HomePage.tsx:106-113 | nothing while a load runs or after a short page; otherwise the next page, to be appended |
| ClientItems.LoadMoreAdvances | src/components/HomePage.tsx:82-83 | after a short page no more is loaded, and a full page advances the page by one keeping what was listed |
| ClientStream.SaveRequestRead | src/components/HomePage.tsx:215-219 | the save endpoint reads back the force flag and the content the page sends, and the count when truthy, 0 otherwise |
| ClientStream.FrameLineRead | src/components/HomePage.tsx:200-228 | the page reads the `data:` line of a frame the route sends as the event it carries |
| ClientStream.ClosingEvent | src/components/HomePage.tsx:206-228 | tokens before the first error or done only add their text, in order; that event alone decides the outcome |
| ClientStream.ClientReadsFrames | src/app/api/summaries/stream/route.ts:231-233 | a reader that carries partial lines, as the route does, reads exactly the events the route sent, however the body was cut into chunks |
| ClientStream.WellFormedRead | src/components/HomePage.tsx:193-228 | a stream that ends with one error or done always ends the reading, at that event |
| ClientStream.WholeFramesRead | src/components/HomePage.tsx:197-200 | when every chunk holds whole frames the page as written reads the events in order |
| ClientStream.WholeFramesAgree | src/components/HomePage.tsx:197-198 | chunks holding whole frames are read alike with and without a carried line |
| ClientStream.CutFrameLost | src/components/HomePage.tsx:197-201 | a frame cut after "dat" is lost to the page as written, which then saves nothing, while a carrying reader reads it |
| ClientStream.DoneMarkerLosesCount | src/app/api/summaries/stream/route.ts:238-241 | closing on `[DONE]` sends `done` without a count, so the save request stores 0 items; the corrected route sends the count and it is stored |
| ClientStream.DoneOnlyRelayed | src/app/api/summaries/stream/route.ts:236-243 | the end marker alone is one complete line that finishes the relay with no event of its own |
| ClientStream.ClosingSaves | src/components/HomePage.tsx:214-227 | a stream closed by `done` saves the tokens' text with the force flag and the count, 0 when absent; one closed by an error saves nothing |
| ClientStream.DoneRequest | src/components/HomePage.tsx:215-219 | `done` posts the accumulated text, the force flag and its count, or 0 without one |
| ClientStream.ClientReadsRoute | src/components/HomePage.tsx:193-228 | end to end with the route as written and a carrying reader: the reading always ends; a save happens only for a signed-in user after a completion; it stores 0 items when the upstream body carried `[DONE]`, and otherwise between 1 and the fetch limit and at most the unread count |
| ColorUtils.HexToRgb | src/lib/color-utils.ts:1-8 | a colour is returned exactly for an optional '#' and six hex digits of either case, and every channel lies in 0..255 |
| ColorUtils.PairValue | src/lib/color-utils.ts:4-6 | two hex digits read as a number in 0..255 |
| ColorUtils.Clamp | src/lib/color-utils.ts:12 | the result lies in 0..255 and values already in range are kept |
| ColorUtils.Channel | src/lib/color-utils.ts:11-13 | two lower-case hex digits: the high and low digit of the rounded, clamped channel |
| ColorUtils.RgbToHex | src/lib/color-utils.ts:10-15 | '#' followed by six lower-case hex digits, for any input |
| ColorUtils.ParsePrinted | src/lib/color-utils.ts:1-15 | printing channels in 0..255 and parsing them back gives the same channels |
| ColorUtils.PrintParsed | src/lib/color-utils.ts:1-15 | parsing an accepted colour and printing it gives '#' and its six digits in lower case |
| ColorUtils.ChannelDigits | src/lib/color-utils.ts:4-13 | a channel parsed from two digits prints back as those digits in lower case |
| ColorUtils.IsDark | src/lib/color-utils.ts:25-29 | an unparsable colour is never dark; a parsed one is judged by the luminance test |
| ColorUtils.ClampReal | src/lib/color-utils.ts:38-40 | the result lies in 0..255 |
| ColorUtils.AdjustBrightness | src/lib/color-utils.ts:31-44 | an unparsable colour comes back unchanged; otherwise the result is '#' and six lower-case hex digits |
| ColorUtils.AdjustByNothing | src/lib/color-utils.ts:31-44 | scaling by zero percent prints the colour back, in lower case |
| ColorUtils.AddAlpha | src/lib/color-utils.ts:46-50 | an unparsable colour comes back unchanged; otherwise an `rgba(...)` text of its channels and the alpha clamped to 0..1 |
| ColorUtils.AdjustLightness | src/lib/color-utils.ts:52-94 | an unparsable colour comes back unchanged; otherwise the result is '#' and six lower-case hex digits |
| ColorUtils.ThemeColors | src/lib/color-utils.ts:96-161 | background and primary text are the inputs; the accent pair depends only on whether the text is dark; the input colour is "#ffffff" unless the background is dark; surface, focus ring and borders derive from the inputs as the palette defines |
| ColorUtils.AccentsAccepted | src/lib/color-utils.ts:133-139 | the four fixed accent colours are well-formed, so the focus ring is always an `rgba(...)` colour |
| ColorUtils.AllThemeColors | src/lib/color-utils.ts:163-167 | one palette per preset, in order, each built from that preset's two colours |
| DigestGenerator.FetchWindow | src/lib/summary-generator.ts:42-64 | at most 100 items, as many as there are eligible ones up to that limit, all unread, of the user's feeds and inside the 24-hour window, newest first, drawn from the eligible items |
| DigestGenerator.EligibleInWindow | src/lib/summary-generator.ts:43-51 | every item of the sorted candidates lies in the user's unread 24-hour window |
| DigestGenerator.FetchWindowNewest | src/lib/summary-generator.ts:60-63 | an eligible item left out of the fetch is no newer than any item fetched |
| DigestGenerator.ToArticles | src/lib/summary-generator.ts:80-88 | one article per fetched item, in order, with its feed's tags |
| DigestGenerator.Ask | src/lib/summary-generator.ts:164-221 | the request carries the grouped listing; a summary is generated exactly when the reply has non-empty content after trimming, and it is that content counting every fetched item; a missing or blank content gives the localised no-content message, and a failed request or a reply whose content path throws the localised failure message |
| DigestGenerator.Generate | src/lib/summary-generator.ts:24-221 | as written: no configuration fails before any listing; no fetched items fail with count 0 and no request; a fetched article whose feed carries a tag naming an inherited object property makes the grouping throw, so the generation fails with the localised message and sends no request; otherwise the request carries the grouped text; a summary is generated exactly when the settings exist, articles were fetched, none carries an inherited tag and the reply has non-empty content, and it is that trimmed content counting every fetched item; an empty reply gives the no-content message and any other failure the failure message |
| DigestGenerator.GenerateIntended | src/lib/summary-generator.ts:76-221 | with the grouping evidently meant: every configured generation over fetched articles sends the grouped listing; a summary is generated exactly when the settings exist, articles were fetched and the reply has non-empty content, and it is that trimmed content counting every fetched item; an empty reply gives the no-content message and any other failure the failure message |
| DigestGenerator.GenerateAgrees | src/lib/summary-generator.ts:90-100 | the generation as written and the intended one differ exactly when settings exist and some fetched article carries an inherited property name as a tag |
| DigestGenerator.GenerateDailySummary | src/lib/summary-generator.ts:24-74 | end to end: missing settings give the not-configured message and no listing; a failed item query fails with the localised message and no listing; a summary is generated exactly when the settings exist, the query succeeds, some item is eligible, no fetched article carries an inherited tag and the reply has non-empty content, and it is that content counting the fetched window, between 1 and 100 items and no more than are eligible; a listing sent is that of the fetched window |
| DigestGenerator.PushAsWritten | src/lib/summary-generator.ts:93-96 | pushing onto a plain object fails exactly for a new tag that names an inherited property |
| DigestGenerator.PushAllSpec | src/lib/summary-generator.ts:91-96 | pushing one article under each of its tags throws exactly when one of the tags names an inherited property; otherwise the keys gain the new tags and each tag's list gains the article once per occurrence of the tag |
| DigestGenerator.GroupAsWrittenSpec | src/lib/summary-generator.ts:80-100 | the plain-object grouping throws exactly when some article carries an inherited property name as a tag; otherwise its keys are all the tags, its lists are the intended groups, and no key is inherited |
| DigestGenerator.GroupAsWrittenAgrees | src/lib/summary-generator.ts:80-100 | when it does not throw, the grouping as written gives, for every tag, the same list as the intended grouping |
| DigestGenerator.InheritedTagBreaksGrouping | src/lib/summary-generator.ts:90-100 | a feed tagged "constructor" makes the grouping as written throw, while the intended grouping lists the article under that tag |
| DigestPrompt.Truncate | src/lib/summary-generator.ts:84 | an absent or empty description stays absent; one of at most 200 characters is kept; a longer one becomes its first 200 characters and "..." |
| DigestPrompt.Occurrences | src/lib/summary-generator.ts:92-97 | zero exactly when the tag does not occur, and never more than the number of tags |
| DigestPrompt.SortedTags | src/lib/summary-generator.ts:105 | every tag that occurs, once, strictly ascending |
| DigestPrompt.Shown | src/lib/summary-generator.ts:109 | the first five entries, or all of them when fewer |
| DigestPrompt.GroupContains | src/lib/summary-generator.ts:91-97 | an article is listed under every tag of its feed |
| DigestPrompt.GroupOnlyTagged | src/lib/summary-generator.ts:91-97 | only articles carrying a tag are listed under it |
| DigestPrompt.GroupEmptyIff | src/lib/summary-generator.ts:93-95 | a tag's group is empty exactly when no article carries it, which is when it gets no section |
| DigestPrompt.GroupSize | src/lib/summary-generator.ts:92-97 | a tag's group has one entry per occurrence of the tag over all articles' tag lists |
| DigestPrompt.UntaggedIff | src/lib/summary-generator.ts:98-100 | an entry is in the "other" list exactly when it comes from an article whose feed has no tags |
| DigestPrompt.UntaggedFrom | src/lib/summary-generator.ts:98-100 | each entry of the "other" list comes from an untagged article |
| DigestPrompt.UntaggedHas | src/lib/summary-generator.ts:98-100 | each untagged article is in the "other" list |
| DigestPrompt.OtherSection | src/lib/summary-generator.ts:118-123 | the "other" section is empty exactly when no article is untagged |
| DigestPrompt.OtherSectionIff | src/lib/summary-generator.ts:118-119 | the "other" section is present exactly when some article is untagged, and then starts with its heading |
| DigestPrompt.EntryLinesPrefix | src/lib/summary-generator.ts:109-115 | the lines of a section number its entries 1, 2, ... in input order: the listing of the first k entries is a prefix of the whole |
| DigestPrompt.AddToGroups | src/lib/summary-generator.ts:92-97 | after one article's tags are pushed, each group holds what it held plus one entry per occurrence of its tag, and the key list covers exactly the tags seen |
| DigestPrompt.BuildGroups | src/lib/summary-generator.ts:77-101 | the loop builds a group for exactly the tags that occur, each equal to the declarative group, and the "other" list of the untagged articles |
| DigestPrompt.FormatEntry | src/lib/summary-generator.ts:110-114 | the line written piece by piece is the numbered entry line |
| DigestPrompt.AppendEntryLines | src/lib/summary-generator.ts:109-115 | the loop appends exactly the numbered lines of the entries |
| DigestPrompt.AppendOtherLines | src/lib/summary-generator.ts:120-122 | the loop appends exactly the numbered title lines of the entries |
| DigestPrompt.AppendTagSections | src/lib/summary-generator.ts:107-116 | the loop prints exactly the sections of the tags, in order |
| DigestPrompt.BuildGroupedText | src/lib/summary-generator.ts:76-123 | the text built statement by statement equals the declarative grouped listing |
| FeedRoutes.Schema | src/app/api/feeds/route.ts:18-21 | the body passes exactly when its url is a string the URL check accepts and any titleFilter is a string; the url and the presence of the filter are read back |
| FeedRoutes.ParseRulesInOrder | src/app/api/feeds/route.ts:65-95 | the parse-error rules apply first-match in the source's order: timeout, unknown host, refused connection, invalid XML, then the generic message |
| FeedRoutes.ClassifyParseError | src/app/api/feeds/route.ts:62-96 | the first matching rule decides; a missing message gets the generic one; the status is always 408 or 400 |
| FeedRoutes.ClassifyError | src/app/api/feeds/route.ts:160-189 | a unique-constraint message gives 409; the other recognised messages their own statuses; anything else 500 with the message appended |
| FeedRoutes.Normalise | src/app/api/feeds/route.ts:98-103 | a falsy title becomes "Untitled"; the description is contentSnippet, else content, else description; a missing date becomes the current time |
| FeedRoutes.NormaliseAll | src/app/api/feeds/route.ts:98-103 | every fetched item is normalised, in order |
| FeedRoutes.FilterItems | src/app/api/feeds/route.ts:106-116 | all items without a working filter; otherwise exactly the items whose title the filter does not match, drawn from the input |
| FeedRoutes.StoredItems | src/app/api/feeds/route.ts:120-133 | one unread row per kept item, in order, under the new feed |
| FeedRoutes.Subscribe | src/app/api/feeds/route.ts:23-190 | only a created feed changes the tables; 401 without a session; an invalid url gives 400; a duplicate subscription is refused before any fetch; a failed fetch and a failed insert are classified; a feed is created exactly when the url is valid and new, the fetch succeeds and the insert does not throw; a created feed has the title or the url, no tags, a null empty filter, and its filtered items |
| FeedRoutes.CategorizeInput | src/app/api/feeds/route.ts:138-153 | the categorisation sees the feed's url and the first five fetched items, before the title filter |
| FeedRoutes.FailOpen | src/app/api/feeds/route.ts:106-116 | an absent, empty or uncompilable filter stores every item |
| FeedRoutes.FilterDropsMatches | src/app/api/feeds/route.ts:108-110 | with a working filter an item is stored exactly when the pattern does not match its title |
| FeedRoutes.ListFeeds | src/app/api/feeds/route.ts:192-231 | 401 without a session; otherwise exactly the caller's feeds, newest first |
| ItemRoutes.Candidates | src/app/api/items/route.ts:63-75 | exactly the items of the scoped feeds with the requested read state, newest first |
| ItemRoutes.Window | src/app/api/items/route.ts:66-78 | at most twice the limit of candidates, counted by its size when the limit is negative; all of them candidates of the scope, newest first |
| ItemRoutes.SliceTo | src/app/api/items/route.ts:87 | a non-negative end keeps that many items from the front; a negative end drops that many from the back |
| ItemRoutes.ItemsGet | src/app/api/items/route.ts:7-97 | 401 without a session; 400 exactly for a negative skip; for a non-negative limit at most `limit` shown items of the window, newest first, and a short page holds every shown item of the window; for a negative limit the window's shown items less `-limit` from the back |
| ItemRoutes.NegativeLimitFirstPage | src/app/api/items/route.ts:24-30 | on page 1 a negative limit is answered, with a window of the last candidates |
| ItemRoutes.NegativeLimitLaterPage | src/app/api/items/route.ts:24-30 | on any later page a negative limit gives a negative skip and so 400 |
| ItemRoutes.PagesOverlap | src/app/api/items/route.ts:30 | when only the newest candidate is hidden, the last item of page 1 is the first of page 2, because skip counts rows before the filter |
| ItemRoutes.PageItems | src/app/api/items/route.ts:81-86 | a signed-in request with a valid window gets the first `limit` shown items of its window |
| ItemRoutes.OptionalString | src/app/api/items/mark-all-read/route.ts:7-10 | an absent member reads as absent; a present member passes exactly when it is a string, which is read back |
| ItemRoutes.MarkRead | src/app/api/items/mark-all-read/route.ts:40-45 | same length; exactly the items in scope become read, all others are unchanged |
| ItemRoutes.MarkAllRead | src/app/api/items/mark-all-read/route.ts:12-66 | 401 without a session; a body that is not JSON fails; a non-object body or a `feedId` or `tag` that is present but not a string is refused; every other object body succeeds; only a success changes the items; the scope is the caller's unread items narrowed by feed and tag together; the count is the number in scope before the update |
| ItemRoutes.MarkAllReadAgain | src/app/api/items/mark-all-read/route.ts:27 | repeating the request right away marks nothing and reports count 0 |
| ItemRoutes.MarkReadSettles | src/app/api/items/mark-all-read/route.ts:27-45 | after marking a scope of unread items the scope is empty and a second update is the identity |
| ItemRoutes.DoomedSplit | src/app/api/items/cleanup/route.ts:36-56 | the deleted and the surviving items split the table between them |
| ItemRoutes.CleanupPost | src/app/api/items/cleanup/route.ts:6-96 | 401 without a session, 404 for a missing user, 400 when retention is off; otherwise exactly the eligible items are deleted, the number removed is reported, and the run is stamped even when nothing was deleted |
| ItemRoutes.CleanupGet | src/app/api/items/cleanup/route.ts:98-164 | 401 and 404 as for the cleanup; retention off reports 0 and no cutoff; otherwise the cutoff of the retention period |
| ItemRoutes.StatusMatchesCleanup | src/app/api/items/cleanup/route.ts:132-149 | the status count is what a cleanup at the same instant deletes |
| ItemRoutes.CleanupTwice | src/app/api/items/cleanup/route.ts:55-71 | a second cleanup with the same cutoff deletes nothing |
| Json.Lookup | src/app/api/summaries/save/route.ts:17-19 | no member exactly when no field has the key; a member found is the value of the last field with that key, as `JSON.parse` keeps the last duplicate |
| Json.StringifyNoControl | src/app/api/summaries/stream/route.ts:34 | a serialised value never contains a control character, so every event fits on one `data:` line |
| JsonParse.ParseStringify | src/components/HomePage.tsx:204 | parsing a serialised value gives the value back |
| JsonParse.ValueRoundTrip | src/components/HomePage.tsx:202-204 | reading a serialised value gives it back and stops right after it, whatever follows |
| JsonParse.StringRoundTrip | src/components/HomePage.tsx:204 | a quoted string reads back as itself, whatever follows it |
| JsonParse.SurrogatePairRead | src/app/api/summaries/stream/route.ts:245-246 | a character beyond the basic plane written as an escaped surrogate pair reads back as that one character |
| JsonParse.EmojiPair | src/app/api/summaries/stream/route.ts:245-246 | the escapes `\ud83d\ude00` read as the one character U+1F600 |
| JsonParse.EscapeInjective | src/app/api/summaries/stream/route.ts:249 | different strings have different escaped forms |
| JsonParse.IntRoundTrip | src/components/HomePage.tsx:204 | an integer's decimal text reads back as the integer when no digit follows |
| Logger.Find | src/lib/logger.ts:129-132 | the position of the first property with the key, or the length when there is none |
| Logger.Set | src/lib/logger.ts:129-132 | after the spread the key has the new value, every other key keeps its value, an existing key keeps its place and a new one goes last |
| Logger.Defined | src/lib/logger.ts:55 | the serialised properties are exactly the context's properties whose value is defined, never more than the context has |
| Logger.DefinedEmpty | src/lib/logger.ts:55 | an empty context serialises no property |
| Logger.DefinedSnoc | src/lib/logger.ts:55 | a property added at the end is serialised at the end exactly when its value is defined, so the kept properties stay in context order |
| Logger.RequestParts | src/lib/logger.ts:43-46 | one part per truthy field, in the order method, url, user, the user written "user:<id>" |
| Logger.RequestSegment | src/lib/logger.ts:42-51 | the request segment appears exactly when method, url or user is set, and is " \| Request: " and the parts joined by spaces |
| Logger.ContextSegment | src/lib/logger.ts:54-56 | the context segment appears exactly when the context has a property, and is " \| Context: " and the serialised context |
| Logger.ErrorLines | src/lib/logger.ts:59-67 | "name: message" first, then a stack line only with a stack and a cause line only with a truthy cause |
| Logger.ErrorBlockLines | src/lib/logger.ts:59 | the error block is empty exactly when no error is given |
| Logger.FormatMessage | src/lib/logger.ts:36-70 | every entry starts with "[timestamp] [LEVEL] message" |
| Logger.FormatLines | src/lib/logger.ts:39-67 | with single-line texts the entry's lines are the head line with its segments, then the error block's lines |
| Logger.DurationSuffix | src/lib/logger.ts:139 | the " (Nms)" suffix is absent exactly when the duration is missing or zero |
| Logger.ApiRequestStart | src/lib/logger.ts:128-133 | INFO, no request info and no error whatever user id is given; the phase is request_start and every other property comes from the extra context |
| Logger.ApiRequestSuccess | src/lib/logger.ts:138-144 | INFO without request info; the message carries the duration suffix; the phase is request_success and the duration is recorded |
| Logger.ApiRequestError | src/lib/logger.ts:149-167 | ERROR with the error and the request's method, url and user attached; phase request_error |
| Logger.DatabaseOperation | src/lib/logger.ts:172-188 | ERROR with phase database_error when an error is given, DEBUG with database_operation otherwise; operation and model recorded |
| Logger.ExternalApiCall | src/lib/logger.ts:193-209 | ERROR with phase external_api_error when an error is given, INFO with external_api_call otherwise |
| Logger.ExtractRequestInfo | src/lib/logger.ts:218-229 | method, url and user as given; exactly the headers other than authorization, cookie and set-cookie, in any letter case, are kept |
| Logger.ExtractKeepsOrder | src/lib/logger.ts:223-227 | the kept headers stay in their original order |
| Logger.Finish | src/lib/logger.ts:250-268 | at most one closing entry; only an error entry carries the request; a response is logged at INFO; without options exactly one entry |
| Logger.ApiLogging | src/lib/logger.ts:234-272 | at most two entries per request; only an option set to false switches one off; without options the start entry and one closing entry |
| StreamRelay.FrameLineFree | src/app/api/summaries/stream/route.ts:34 | the `data:` line of an event never holds a line break |
| StreamRelay.FramesSplit | src/app/api/summaries/stream/route.ts:240 | splitting the body the route sends at line feeds gives each event's `data:` line and a blank line, then an empty remainder |
| StreamRelay.BufferedSplit | src/app/api/summaries/stream/route.ts:231-233 | the complete lines handled so far followed by the carried buffer are the line-feed split of everything received: nothing is lost or duplicated |
| StreamRelay.ChunkingIrrelevant | src/app/api/summaries/stream/route.ts:231-233 | where the chunks break does not matter: the same text gives the same lines and buffer |
| StreamRelay.BufferedPrefix | src/app/api/summaries/stream/route.ts:231-235 | the lines handled after some of the chunks begin the lines handled after all of them |
| StreamRelay.HandleLine | src/app/api/summaries/stream/route.ts:236-253 | a line finishes the relay exactly when it trims to "data: [DONE]"; only truthy delta content is forwarded |
| StreamRelay.Relay | src/app/api/summaries/stream/route.ts:235-255 | the relay sends only token events |
| StreamRelay.RelayTokens | src/app/api/summaries/stream/route.ts:245-250 | every token sent carries the content of a line that asked for it |
| StreamRelay.RelayFinishedStable | src/app/api/summaries/stream/route.ts:239-242 | once `[DONE]` is seen, later lines change nothing |
| StreamRelay.RelayStream | src/app/api/summaries/stream/route.ts:227-256 | the read loop with its carried buffer sends exactly the events of the relay over the complete lines of the whole body |
| StreamRelay.RelayChunk | src/app/api/summaries/stream/route.ts:235-255 | the loop over one chunk's lines continues the relay, and on `[DONE]` stops after the line that finished it |
| StreamRelay.RelayStopsAt | src/app/api/summaries/stream/route.ts:239-242 | when `[DONE]` arrives inside a chunk no later line counts |
| StreamRelay.RelayLines | src/app/api/summaries/stream/route.ts:245-250 | every event sent is a token with truthy data |
| StreamRelay.DeltaLine | src/app/api/summaries/stream/route.ts:245-250 | a delta line is forwarded exactly when its content is truthy |
| StreamRelay.RelayForwardsDeltas | src/app/api/summaries/stream/route.ts:236-253 | relaying a well-formed completion forwards exactly its truthy deltas in order, and `[DONE]` finishes it |
| StreamRelay.ForwardsDeltas | src/app/api/summaries/stream/route.ts:236-253 | the same for any line handler that treats delta lines, blank lines and the end marker as the route does |
| StreamRelay.BodyEvents | src/app/api/summaries/stream/route.ts:227-273 | corrected: the events after the upstream body end with one `done` carrying the article count when the body completed or carried `[DONE]`, and with the streaming error exactly when it broke before `[DONE]`; every earlier event is a token with truthy data |
| StreamRelay.BodyEventsAsWritten | src/app/api/summaries/stream/route.ts:227-273 | as written: the events end with `done` without a count exactly when a complete line of the body trims to `data: [DONE]`, with the streaming error exactly when there is no such line and the body broke, and with `done` carrying the article count otherwise |
| StreamRelay.BodyEventsDiffer | src/app/api/summaries/stream/route.ts:238-241 | the two versions send as many events, agree on all but the last, and differ exactly when the body carried `[DONE]` |
| StreamRelay.DoneLineEndsBody | src/app/api/summaries/stream/route.ts:238-241 | a complete `data: [DONE]` line makes the last event a `done` without a count, whatever follows |
| StreamRelay.RelayFinishedIff | src/app/api/summaries/stream/route.ts:239-242 | the relay is finished exactly when one of the handled lines asked to finish |
| StreamRelay.RelayLinesFinished | src/app/api/summaries/stream/route.ts:236-242 | relaying lines finishes exactly when one of them trims to `data: [DONE]` |
| StreamRelay.AfterStart | src/app/api/summaries/stream/route.ts:42-273 | as written, after `start` the route sends a well-formed run: tokens, then exactly one closing event; fetched articles that carry an inherited property name as a tag end the run with the streaming error and no completion request |
| StreamRelay.AfterStartIntended | src/app/api/summaries/stream/route.ts:42-273 | with the corrected grouping and `done`, the run is well formed, a completion is asked exactly when the settings exist, nothing failed and there is an article, and a closing `done` counts every article |
| StreamRelay.AfterStartAgrees | src/app/api/summaries/stream/route.ts:104-112 | without an inherited tag and without `[DONE]` in the body, the route as written sends what the corrected route sends |
| StreamRelay.AfterStartCount | src/app/api/summaries/stream/route.ts:238-266 | a closing `done` follows a completion request; it lacks a count exactly when the body carried `[DONE]`, and otherwise counts the fetched articles |
| StreamRelay.Answer | src/app/api/summaries/stream/route.ts:181-273 | a failed upstream request gives the fetch-failure error alone; a body gives the body's events as written |
| StreamRelay.AnswerIntended | src/app/api/summaries/stream/route.ts:181-273 | the same with the corrected `done` |
| StreamRelay.AfterStartListing | src/app/api/summaries/stream/route.ts:45-139 | a completion is requested, listing the articles, exactly when the settings exist, nothing failed, there is an article, and no article carries an inherited property name as a tag |
| StreamRelay.StreamRoute | src/app/api/summaries/stream/route.ts:33-40 | a request without a session gets exactly one error event and no start; a signed-in one starts with `start`; the run is well formed |
| StreamRelay.StreamRouteNotConfigured | src/app/api/summaries/stream/route.ts:45-50 | without completion settings the route answers `start` and the Chinese message, whatever the user's language |
| StreamRelay.StreamRouteListing | src/app/api/summaries/stream/route.ts:83-139 | a completion is requested exactly when the user is signed in, the settings exist, nothing failed, there is an unread article and no fetched article carries an inherited tag; the prompt lists the fetched window |
| StreamRelay.StreamRouteInherited | src/app/api/summaries/stream/route.ts:104-112 | a signed-in, configured request whose fetched window holds an article tagged "constructor" gets `start` and the streaming error, with no completion request |
| StreamRelay.StreamRouteTokens | src/app/api/summaries/stream/route.ts:245-250 | only tokens with truthy data come between `start` and the last event |
| StreamRelay.StreamRouteCount | src/app/api/summaries/stream/route.ts:238-266 | a closing `done` lacks a count exactly when the body carried `[DONE]`; a count it carries is at least one, at most the fetch limit and at most the user's unread items |
| Opml.ReplaceAll | src/app/api/feeds/opml/export/route.ts:112 | replacing a character that does not occur changes nothing |
| Opml.EscapeXmlEach | src/app/api/feeds/opml/export/route.ts:110-117 | the chain of five replacements escapes character by character, each special character becoming its entity |
| Opml.AmpersandLastDoubleEscapes | src/app/api/feeds/opml/export/route.ts:112-113 | replacing the ampersand after `<` would turn "<" into "&amp;lt;"; the order as written gives "&lt;" |
| Opml.EscapedHasNoMarkup | src/app/api/feeds/opml/export/route.ts:110-117 | escaped text holds none of `<`, `>`, `"` and `'` |
| Opml.EscapeIdentity | src/app/api/feeds/opml/export/route.ts:110-117 | text with none of the five special characters is left as it is |
| Opml.UnescapeEscape | src/app/api/feeds/opml/export/route.ts:111-116 | decoding the five entities recovers exactly the text that was escaped |
| Opml.TagPairs | src/app/api/feeds/opml/export/route.ts:79-84 | one push per tag of the feed, in tag order |
| Opml.FoldIsReference | src/app/api/feeds/opml/export/route.ts:74-84 | the groups' keys are the tags in first-appearance order, each once, and each group holds the feeds pushed under its tag, in order |
| Opml.Untagged | src/app/api/feeds/opml/export/route.ts:85-87 | exactly the feeds without tags go to the top level |
| Opml.GroupIsFilter | src/app/api/feeds/opml/export/route.ts:77-88 | with each feed's tags distinct, a group holds every feed carrying its tag exactly once, in feed order |
| Opml.UnderOwnTags | src/app/api/feeds/opml/export/route.ts:79-84 | a feed with distinct tags is pushed under a tag once if it carries it and not at all otherwise |
| Opml.GroupSizesTotal | src/app/api/feeds/opml/export/route.ts:91-97 | the groups together hold one feed per push |
| Opml.OutlineCount | src/app/api/feeds/opml/export/route.ts:77-102 | the document has one feed outline per (feed, tag) pair and one per untagged feed: the sum over the feeds of max(1, number of tags) |
| Opml.RssLineAttributes | src/app/api/feeds/opml/export/route.ts:94 | a feed outline's attributes are the escaped title for text and title and the escaped url for xmlUrl and htmlUrl, and decoding them gives the title and the url |
| Opml.SplitJoinFree | src/app/api/feeds/opml/export/route.ts:94 | joining quote-free pieces with a quote and splitting on it gives the pieces back |
| Opml.Exported | src/app/api/feeds/opml/export/route.ts:22-40 | exactly the caller's feeds that have a title, in ascending title order |
| Opml.FilterKeepsAsc | src/app/api/feeds/opml/export/route.ts:34-35 | dropping the untitled feeds keeps the title order |
| Opml.Entries | src/app/api/feeds/opml/export/route.ts:34-40 | the records exported are exactly those of the caller's titled feeds |
| Opml.Export | src/app/api/feeds/opml/export/route.ts:8-58 | 401 without a session; otherwise the OPML document of the caller's titled feeds |
| ReaderContent.IndexOf | src/components/ReaderContent.tsx:21 | the position found holds the character and no earlier position does; the length when it is absent |
| ReaderContent.StripTags | src/components/ReaderContent.tsx:21 | the stripped text is no longer than the input, draws its characters from it, holds no complete tag, and is the input itself when it has no `<` |
| ReaderContent.ConsNoTag | src/components/ReaderContent.tsx:21 | a character kept in front of tag-free text leaves it tag-free unless it opens a tag closed later |
| ReaderContent.StripTagAhead | src/components/ReaderContent.tsx:21 | a complete tag after tag-free text is removed whole, and the text before it kept |
| ReaderContent.StripKeep | src/components/ReaderContent.tsx:21 | a first character other than `<` is kept |
| ReaderContent.StripLeadingTag | src/components/ReaderContent.tsx:21 | a leading `<…>` tag disappears entirely |
| ReaderContent.IndexOfAt | src/components/ReaderContent.tsx:21 | the first occurrence is found at its position |
| ReaderContent.StripNoTag | src/components/ReaderContent.tsx:21 | text holding no complete tag passes through unchanged |
| ReaderContent.StripIdempotent | src/components/ReaderContent.tsx:21 | stripping twice is stripping once |
| ReaderContent.Processed | src/components/ReaderContent.tsx:20-22 | the displayed text is trimmed and holds no tag; without `<` it is the description trimmed |
| ReaderContent.InfixNoTag | src/components/ReaderContent.tsx:22 | trimming tag-free text keeps it tag-free |
| ReaderContent.Paragraphs | src/components/ReaderContent.tsx:74 | one paragraph more than there are line breaks, none holding a line break, and joined by line breaks they give the displayed text back |
| ReaderSettings.DefaultConsistent | src/types/reader.ts:111-118 | the default settings lie within the documented ranges and use the first font and the first colour preset |
| ReaderSettings.PresetPairs | src/types/reader.ts:48-109 | one (background, text) pair per preset, in preset order |
| ReaderSettings.PresetsAccepted | src/types/reader.ts:48-109 | every preset colour is accepted by the hex colour parser |
| ReaderSettings.PresetAccepted | src/types/reader.ts:48-109 | each preset's two colours are seven-character hex colours the parser accepts |
| ReaderSettings.BackgroundLower | src/types/reader.ts:48-109 | each preset background is `#` and six lower-case hex digits |
| ReaderSettings.TextLower | src/types/reader.ts:48-109 | each preset text colour is `#` and six lower-case hex digits |
| ReaderSettings.LowerHexColour | src/lib/color-utils.ts:1-8 | `#` and six lower-case hex digits is a colour the parser accepts |
| ReaderSettings.FontTitlesDistinct | src/types/reader.ts:13-46 | no two fonts share a label |
| ReaderSettings.PresetNamesDistinct | src/types/reader.ts:48-109 | no two colour presets share a name |
| AdminPage.Gate | src/app/admin/page.tsx:31-43 | signed-in administrators and super administrators stay, other signed-in users go home, signed-out visitors go to sign-in, and nothing happens while loading |
| AdminPage.AccessByRole | src/app/admin/page.tsx:35-37 | by role: every role but the ordinary member stays, only the super administrator sees the user section, and nobody sees a role selector on their own row |
| AdminPage.UsersOnlyForAdmins | src/app/admin/page.tsx:356 | whoever sees the user section passed the administrator gate |
| AdminPage.Defaults | src/app/admin/page.tsx:100-125 | four defaults in a fixed key order, each id equal to its key and described; registration on, the key empty, base url and model from the environment or their fallbacks |
| AdminPage.Find | src/app/admin/page.tsx:128 | nothing found exactly when no stored setting has the key |
| AdminPage.FindFirst | src/app/admin/page.tsx:128 | what is found is the first stored setting with the key |
| AdminPage.Overlay | src/app/admin/page.tsx:129-134 | the key is the default's; id, value and description are the stored ones when non-empty and the default's otherwise |
| AdminPage.Merge | src/app/admin/page.tsx:127-135 | exactly the four defaults, in their order, each overlaid with the first stored setting of its key |
| AdminPage.MergeKeys | src/app/admin/page.tsx:127-135 | the merged list carries the default keys in order and no other key |
| AdminPage.MergeIgnoresUnknown | src/app/admin/page.tsx:127-135 | a stored setting whose key is no default key does not change what is shown |
| AdminPage.MergeNothing | src/app/admin/page.tsx:99-135 | with nothing stored the defaults are shown as they are |
| AdminPage.Lookup | src/app/admin/page.tsx:302 | no pending value exactly when no pending change has the key |
| AdminPage.Change | src/app/admin/page.tsx:177-179 | after a change the key reads the new value and every other key reads what it read before |
| AdminPage.ChangeOrder | src/app/admin/page.tsx:178 | changing a key again keeps its place in the key order; a new key goes last |
| AdminPage.KeysLookup | src/app/admin/page.tsx:154 | a key is iterated over exactly when it has a pending value |
| AdminPage.ChangeShown | src/app/admin/page.tsx:302-313 | a change shows at once on its own toggle and on no other |
| AdminPage.Save | src/app/admin/page.tsx:149-175 | the writes are a prefix of the pending changes in key order; all of them are sent and the edits dropped exactly when every write is accepted; otherwise the run stops at the first refusal and shows its message, or the fallback message for that key, or the generic one when the request failed |
| AdminPage.ConfigsFetched | src/app/admin/page.tsx:93-147 | a listing replaces the list by the merge and drops every pending edit; a refusal or an unreachable endpoint keeps both and shows a message, the endpoint's own when it sent one |
| AdminPage.SavedShowsStore | src/app/admin/page.tsx:168-169 | after a successful save and refetch every setting shows the value the merge put there |
| AdminPage.Promoted | src/app/admin/page.tsx:69-91 | the user list is fetched again and the message cleared exactly when the role change is accepted; a refusal shows the endpoint's message when it sent one |
| Tags.TrimNonBlank | src/app/settings/page.tsx:225-226 | trimming and dropping blank pieces never yields more tags than pieces |
| Tags.Parse | src/app/settings/page.tsx:223-226 | every tag parsed is non-empty, trimmed and free of separators |
| Tags.ShowParse | src/app/settings/page.tsx:235 | joining clean tags with ", " and parsing the text gives exactly those tags back, provided the comma separates and the space does not |
| Tags.ShowParseAfter | src/app/settings/page.tsx:235 | the same round trip with blank text in front of the joined tags |
| Tags.BlankTrims | src/app/settings/page.tsx:225-226 | a blank piece yields no tag |
| Tags.PaddedTrims | src/app/settings/page.tsx:225-226 | a clean word behind blanks yields just the word |
| SettingsPage.ParseTags | src/app/settings/page.tsx:223-226 | for any separator class, every tag is non-empty, trimmed and holds no separator |
| SettingsPage.ParseWord | src/app/settings/page.tsx:223-226 | a clean tag typed alone parses to itself |
| SettingsPage.ParsePair | src/app/settings/page.tsx:223-226 | two clean tags around a separator parse to the two |
| SettingsPage.FullWidthCommaAsWritten | src/app/settings/page.tsx:224 | with the character class as written, text split by a full-width comma stays one tag |
| SettingsPage.FullWidthComma | src/app/settings/page.tsx:224 | with the class evidently meant, the full-width comma separates tags |
| SettingsPage.LetterSplitAsWritten | src/app/settings/page.tsx:224 | with the class as written, a tag holding the letter å is cut in two |
| SettingsPage.LetterKept | src/app/settings/page.tsx:224 | with the class evidently meant, such a tag stays whole |
| SettingsPage.EditRoundTripAsWritten | src/app/settings/page.tsx:282 | with the class as written, a feed tagged "Småland", a tag clean for the categorizer, is saved back unchanged as "Sm" and "land"; with the comma class it is kept |
| SettingsPage.SaveTags | src/app/settings/page.tsx:222-230 | the typed tags are added to the feed exactly when at least one is left after parsing with the page's class, and those are the tags sent |
| SettingsPage.OpenEdit | src/app/settings/page.tsx:232-238 | the form holds the feed's id, its tags joined with ", " and the default read state; the rest of the page is untouched |
| SettingsPage.SaveEdit | src/app/settings/page.tsx:278-287 | an update is sent exactly when a feed is being edited, with the form tags parsed by the page's class and the form's read state |
| SettingsPage.EditRoundTrip | src/app/settings/page.tsx:232-287 | with a class that holds the comma and not the space, opening the edit form of a feed with clean tags and saving it unchanged sends back exactly the feed's tags |
| SettingsPage.Remove | src/app/settings/page.tsx:298 | deleting from the set keeps every other member, drops the id, and keeps members distinct |
| SettingsPage.Toggle | src/app/settings/page.tsx:295-303 | the id changes membership and nothing else does; members stay distinct |
| SettingsPage.ToggleTwice | src/app/settings/page.tsx:295-303 | toggling twice restores the members, and the order when the id was absent; an id first of several moves to the end |
| SettingsPage.Dedup | src/app/settings/page.tsx:309 | the ids once each, the same members, and distinct ids unchanged |
| SettingsPage.FeedIds | src/app/settings/page.tsx:309 | one id per feed, in list order |
| SettingsPage.SelectAll | src/app/settings/page.tsx:305-311 | a selection as large as the list is cleared; any other becomes exactly the listed feeds, without repeats |
| SettingsPage.SelectAllSwitch | src/app/settings/page.tsx:305-311 | when the selection holds only listed feeds, "select all" clears a full selection and selects every feed otherwise |
| SettingsPage.SelectAllStale | src/app/settings/page.tsx:306 | a selection holding a feed no longer listed and as large as the list is cleared although a listed feed is unselected |
| SettingsPage.Attempts | src/app/settings/page.tsx:333-345 | the requests sent stop right after the first one that fails; all before it succeeded |
| SettingsPage.BatchUpdate | src/app/settings/page.tsx:313-357 | an empty selection and then an empty tag list are refused without a request; otherwise the selected feeds are asked in order up to the first failure, and only a run without failure clears the selection and ends the batch edit |
| RootPage.Clicked | src/app/page.tsx:200-216 | a click selects as the sidebar's clicks do and requests the items of exactly that selection under the current filter, unpaged |
| RootPage.PagingKeepsScope | src/app/page.tsx:77-82 | the items endpoint reads the same feed, tag and read state from the root page's unpaged query as from the home page's query for any page |
| RootPage.DeleteReload | src/app/page.tsx:186-189 | items are reloaded exactly after a confirmed, successful delete of the selected feed, for the selection left after the delete |
| RootPage.MarkAsRead | src/app/page.tsx:268-284 | any response marks exactly the item read and keeps the list's ids and length; only a failed request leaves the list as it was |
| RootPage.MissingItemKept | src/app/page.tsx:270-280 | on a 404 the root page keeps the item and shows it read, where the home page removes it |
| RootPage.MarkedAgrees | src/app/page.tsx:276-280 | when the mark is accepted both pages leave the same list |
| RootPage.RefreshFeed | src/app/page.tsx:145-167 | the home page's refresh, except that the fallback texts are the shared `errors.unknown` and `errors.network` instead of the `home` namespace's |
| RootPage.DeleteFeed | src/app/page.tsx:169-198 | the home page's delete, except for the same fallback texts |
| RootPage.RefreshAgrees | src/app/page.tsx:157-162 | the two pages leave the same state after a refresh exactly when no fallback text is shown |
| RootPage.DeleteAgrees | src/app/page.tsx:182-194 | the two pages leave the same state after a delete exactly when it is not confirmed, succeeds, or shows the reply's own message |
| RootPage.MarkAllAsRead | src/app/page.tsx:223-266 | a successful reply with a JSON body marks the scope read; one whose body is not JSON marks nothing and shows the failure text; refusals and throws are handled as on the home page |
| RootPage.MarkAllAgrees | src/app/page.tsx:236-237 | the pages agree except on a successful reply whose body is not JSON, where the root page marks nothing and fails while the home page marks the scope |
| HomePage.FeedSelect | src/components/HomePage.tsx:116-123 | selecting a feed clears the tag, empties the list, resets the page to 1 and requests page 1 of that feed under the current filter |
| HomePage.TagSelect | src/components/HomePage.tsx:125-132 | selecting a tag clears the feed, empties the list, resets the page to 1 and requests page 1 of that tag |
| HomePage.FilterChange | src/components/HomePage.tsx:134-139 | a new filter keeps the selection, empties the list, resets the page to 1 and requests page 1 under the new filter |
| HomePage.ClickAgrees | src/components/Sidebar.tsx:133-151 | after a click in the sidebar the page holds the selection the sidebar shows, and its list becomes exactly the page answered |
| HomePage.DeleteAgrees | src/components/Sidebar.tsx:196-199 | deleting a feed in the sidebar leaves page and sidebar on the same selection when they agreed before |
| HomePage.LoadMore | src/components/HomePage.tsx:106-111 | a load starts exactly when none runs and the last page was full, and asks for the next page of the current scope to be appended; otherwise nothing changes |
| HomePage.MoreLoaded | src/components/HomePage.tsx:111-112 | after the load the flag is down, the scope unchanged, and an appended answer keeps the items listed before in front |
| HomePage.ScrollKeeps | src/components/HomePage.tsx:50-113 | scrolling keeps what is listed in front and ids distinct, advances the page by one, and allows another load exactly when the page answered was full |
| HomePage.ItemKeys | src/components/HomePage.tsx:143-145 | exactly the stored keys with the item prefix, ascending |
| HomePage.Evicted | src/components/HomePage.tsx:147-151 | only item keys are removed, as many as exceed ten |
| HomePage.AfterEvict | src/components/HomePage.tsx:148-150 | the storage afterwards holds exactly the keys not removed |
| HomePage.Kept | src/components/HomePage.tsx:147-151 | the sorted item keys are the removed ones followed by at most ten kept ones |
| HomePage.KeptMembers | src/components/HomePage.tsx:143-151 | the kept keys are exactly the item keys left in storage |
| HomePage.EvictKeepsLast | src/components/HomePage.tsx:143-151 | exactly the ten greatest item keys survive (all of them when fewer), every removed key sorts before every kept one, and other keys are never removed |
| HomePage.EvictIdempotent | src/components/HomePage.tsx:143-151 | evicting twice is evicting once |
| HomePage.Click | src/components/HomePage.tsx:141-166 | after a click the storage holds exactly the keys left by the eviction, the page-state key, and the clicked item's key when the item is listed |
| HomePage.ClickBound | src/components/HomePage.tsx:141-166 | after any click at most eleven item keys are stored, the clicked one among them when listed |
| Sidebar.Fetched | src/components/Sidebar.tsx:54-83 | a failed fetch changes nothing; a listing replaces the feeds, collapses the list when more than ten arrive and never expands it, and starts the background refresh on the first non-empty listing only |
| Sidebar.RefreshAtMostOnce | src/components/Sidebar.tsx:67-78 | over any run of fetches the background refresh starts at most once, and exactly when some fetch brought a feed |
| Sidebar.NeverExpands | src/components/Sidebar.tsx:61-64 | fetching never expands the list, and once more than ten feeds arrived it stays collapsed |
| Sidebar.Clicked | src/components/Sidebar.tsx:133-151 | a click sets the selection it names and reports a feed click or "all feeds" as a feed selection and a tag click as a tag selection |
| Sidebar.Deleted | src/components/Sidebar.tsx:179-208 | nothing happens unless confirmed; the page is told to clear its selection exactly when the selected feed was deleted; the selection changes only on success |
| Sidebar.AddFeed | src/components/Sidebar.tsx:91-130 | the POST is sent exactly when the url passes the check, blank and non-http urls show their messages, and the page reloads and the form clears exactly on success |
| Sidebar.Refreshed | src/components/Sidebar.tsx:154-176 | the page reloads exactly on success; a refusal or a failed request shows its message |
| Sidebar.RefreshedAll | src/components/Sidebar.tsx:211-231 | the page reloads exactly on success; otherwise the fixed failure message is shown |
| Sidebar.SameMessages | src/hooks/useFeedActions.ts:75-99 | the sidebar's refresh handlers show the same messages as the home page's |
| Ordering.SortDistinct | src/components/Sidebar.tsx:44-50 | strictly ascending, holding exactly the elements given, each once |
| Ordering.SortedUnique | src/components/Sidebar.tsx:50 | two strictly ascending sequences with the same elements are equal |
| Ordering.SortedUnion | src/app/settings/page.tsx:359-367 | strictly ascending, holding exactly the elements of the lists |
| Ordering.SortDesc | src/app/api/items/route.ts:73-75 | sorted by the key, largest first, and a permutation of the input |
| Ordering.SortAsc | src/app/api/feeds/opml/export/route.ts:26-28 | sorted by the text key, smallest first, and a permutation of the input |
| Store.FeedById | src/lib/openai-categorizer.ts:167-168 | a feed found has the id and is stored; nothing found means no stored feed has the id |
| Strings.Trim | src/components/ReaderContent.tsx:22 | the result has no white space at either end and is no longer than the input |
| Strings.TrimEmptyIffBlank | src/app/settings/page.tsx:225-226 | trimming leaves nothing exactly when the text is all white space |
| Strings.SplitCount | src/components/ReaderContent.tsx:74 | splitting on a character gives one piece more than it occurs |
| Strings.SplitJoin | src/components/ReaderContent.tsx:74 | joining the pieces with the character gives the text back |
| Strings.NatToStringValue | src/lib/color-utils.ts:49 | the decimal digits printed for a number read back as that number |

## Left out

- Rendering, JSX, CSS classes and the purely presentational components: they compute nothing the model could state. This covers the item list, the feed list, the tag filter, the filter tabs, the add-feed form, the user menu, the reader-settings panel, the providers, the profile page, and the sign-in and sign-up pages.
- The theme provider's writing of CSS variables to the document: a side effect only. The colour derivation it uses is modelled in `ColorUtils`.
- Fetching and parsing RSS, the chat-completions HTTP call, sessions, bcrypt and `TextDecoder`. Their results are inputs to the model. Strings are sequences of characters, and decoding is not modelled.
- Prisma and the database. Tables are sequences and maps in memory. The uniqueness of (user, day) summaries is the store invariant `Store.KeysConsistent`.
- JavaScript regular expressions: "pattern compiles" and "pattern matches the title ignoring case" are uninterpreted parameters. Only the rules around them are modelled: fail-open on a bad pattern, and an item is dropped exactly on a match.
- Floating-point colour arithmetic:
  - luminance, the brightness factor, the HSL round trip and alpha formatting are abstract functions;
  - `isDark` is an abstract predicate, with its fallback on unparsable input modelled;
  - an alpha value is a number clamped to the range 0 to 1, printed by an abstract function.
- Clocks and calendar arithmetic (`Date.now`, `setHours`, `toISOString`): times, the 24-hour window and the local midnight are integers passed in.
- Concurrency and fire-and-forget work:
  - the promise memo and busy-wait of `initializeApplication`;
  - the background categorisation after a subscription, modelled as an outcome that cannot change the response;
  - check-then-insert races;
  - `setTimeout` clearing of messages;
  - the interleaving of React state updates, which are modelled as applied in order.
- `src/lib/api-middleware.ts`, `src/app/api/summaries/today/route.ts` and `src/lib/prisma.ts` are not part of this model. They are thin wrappers with no rule of their own.
- The fixed instruction prose of the prompts: only the assembled article listing and the language switch are modelled.
- Translation lookups: each translated message is represented by its key, prefixed with its namespace (`home.` for the home page's lookups).
- Reloads that the pages trigger through callbacks (`fetchFeeds`, `onItemsNeedRefresh`): modelled as a flag or a request value, not as a second round trip.
- Opml.Exported: the export asks the database for `orderBy: { title: 'asc' }`, whose order is the database collation. The model orders titles by code point, which agrees with a binary collation but not with a locale-aware one.
- Ordering.SortAsc: the same. It stands for the database's title order and compares code points.
- Ordering.SortDistinct: JavaScript's `sort()` compares strings by UTF-16 code unit, while the model compares Dafny characters by code point. The two orders differ only for characters outside the Basic Multilingual Plane.
- Ordering.SortedUnion: the same UTF-16 code-unit caveat as `Ordering.SortDistinct`.
- HomePage.ItemKeys: the same UTF-16 code-unit caveat for the sorted storage keys.
- DigestPrompt.SortedTags: the same UTF-16 code-unit caveat for `Object.keys(grouped).sort()`.
- DigestPrompt.Truncate: the source measures and cuts descriptions in UTF-16 code units (`length` and `substring` at src/lib/summary-generator.ts:84 and src/app/api/summaries/stream/route.ts:100). The model counts characters. The two differ for text outside the Basic Multilingual Plane, where the source may keep fewer characters or cut a surrogate pair in half.
- ItemRoutes.ItemsGet: `page` and `limit` are integers. A value that `parseInt` cannot read, such as `?page=abc`, is `NaN`; Prisma then rejects the query, and the catch at src/app/api/items/route.ts:90-96 answers 400. The model has no `NaN`. A negative `take` follows Prisma's documented reading from the end of the ordered rows.
- JsonParse.Parse: a number with a fraction or an exponent is not read and the parse fails, where `JSON.parse` reads it; so does an escaped lone surrogate, which a JavaScript string can hold but a character here cannot. Values are integers and strings are sequences of code points throughout the model.
- StreamRelay.HandleLine: because of the parser's limits above, a completion chunk holding a fractional or exponent number, or an escaped lone surrogate, is skipped where src/app/api/summaries/stream/route.ts:245-250 forwards its content.
- Json.Value: numbers are integers. A fractional number in a request body is not modelled. The source would store it in an integer column and fail with a 500.
- SettingsRoutes.PatchRetention: a fractional `itemRetentionDays` passes the check at src/app/api/settings/cleanup/route.ts:53, and the integer update then fails with a 500. The model has only integers.
- SummaryRoutes.Save: a fractional `itemCount` likewise fails the integer create or update with a 500. It is not modelled.
- Ordering.SortDesc: the database does not define the order of rows with equal keys. The model uses one stable order, and no lemma depends on how ties are broken.
- The root page's add-feed handler is `FeedActions.AddFeed`. Its refresh, delete and mark-all handlers are modelled in `RootPage`, each with a lemma stating where it departs from the home page's.
- The order of outlines in the OPML body puts the tag groups first and the untagged feeds after them. This order is fixed by `Opml.BodyLines` itself. No separate lemma states it.

## Findings

| source | as written | input that shows it | evidently intended | confidence | as-written member | corrected member |
|---|---|---|---|---|---|---|
| src/lib/summary-generator.ts:93-96 | `grouped` is a plain object, so `grouped[tag]` of a new tag can be an inherited property; the `push` then throws and the digest fails (the stream route repeats this at lines 109-112) | an article of a feed tagged "constructor" | the article is listed under the tag "constructor" like under any other tag | not executed | DigestGenerator.InheritedTagBreaksGrouping, DigestGenerator.Generate | DigestPrompt.GroupContains, DigestGenerator.GenerateIntended |
| src/app/api/summaries/stream/route.ts:240 | the `done` event sent on `[DONE]` carries no `itemCount`, so the page saves the digest with `itemCount` 0 | an upstream body that ends with `data: [DONE]` after some tokens | `done` carries the number of articles, as the `done` at line 266 does | not executed | StreamRelay.BodyEventsAsWritten, StreamRelay.AfterStart | StreamRelay.BodyEvents, StreamRelay.AfterStartIntended |
| src/components/HomePage.tsx:197-198 | each chunk is split into lines on its own, so a `data:` line cut between two chunks is read as two broken lines and dropped | two chunks "dat" and "a: {…}\n\n" | partial lines are carried to the next chunk, as the route's own reader does at lines 231-233 | not executed | ClientStream.CutFrameLost | ClientStream.ClientReadsFrames |
| src/app/settings/page.tsx:224 | the separator class reads `[,Ôºå]` (also at lines 282 and 320): the full-width comma's UTF-8 bytes shown as Mac Roman text. The same garbling runs through this file's Chinese display text (lines 542, 567 and 678, for example) and appears in no other file, so it is likely an artefact of how this copy was decoded rather than of the source itself | the tag text "科技，新闻", and the tag "Småland", which is cut at "å" | the class `[,，]` of the categorizer, which splits on the comma and the full-width comma only | not executed; low, since the file may only have been decoded badly | SettingsPage.FullWidthCommaAsWritten, SettingsPage.EditRoundTripAsWritten | SettingsPage.FullWidthComma, SettingsPage.EditRoundTrip |
