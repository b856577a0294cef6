# Kijiji bot: a verified model

This project models the core of a Discord bot that watches Kijiji search
pages for a set of guilds (servers). For each guild the bot keeps:

- the search URLs it tracks (`scrape_urls`);
- the channel its ads go to (`guild_channels`);
- the users to ping per keyword (`keyword_pings`);
- a `seen_ads` table of (ad id, guild) pairs already posted.

Every five minutes a scraper task does the following:

1. It fetches every tracked URL.
2. It extracts the listings of each page.
3. It groups the results by guild.
4. It posts each ad the guild has not seen yet, followed by the mentions of
   the users whose keyword occurs in the ad.

Chat commands change the tracked URLs, the subscriptions and the channel.

The model is split into these Dafny modules:

- `Entities`, `Wrappers`, `OrderedMaps`: ids, options, and insertion-ordered
  dictionaries. An ordered dictionary is a key sequence plus a map.
  Iteration order matters: ads are posted in dictionary order.
- `Text`: `str.strip`, `str.replace`, substring test, split/join on a
  separator, and `int()` on ASCII decimal strings.
- `TextWrap`: `textwrap.dedent`. Blank lines are cleared, the longest common
  indent of the non-blank lines is found, and it is cut from every line.
- `UrlPattern`: the anchored regular expression `addurl` uses, written as a
  character-by-character recogniser. It is proved equal to "prefix, then two
  to four `/`-separated non-empty `[\w+-]` segments".
- `Listings`: the listing extractor on a parsed page (a sequence of
  `search-item` containers) and the normalisation of title, price and
  description.
- `Scraping`: the `Scraper` class. Its `ExtractAds`, `Fetch` and `Execute`
  methods are proved against the functions `ParsePage`, `FetchSpec` and
  `Group`/`FetchAll`.
- `Messages`: `format_ad`. The dedented header is proved to be the fixed
  nine-line template for newline-free fields. The mentions are proved to be
  those of the users subscribed to a matching keyword.
- `Ticks`: which ads one scraper run posts, specified by `Dedup`. Each
  (ad id, guild) key is posted at most once, only when it is not in
  `seen_ads`, and is then recorded. A second run over the same ads posts
  nothing.
- `Commands`: the dictionary updates and replies of the chat commands, as
  functions.
- `BotState`: the `Bot` class that holds the dictionaries, `seen_ads` and
  the database rows. Its methods are proved against `Commands` and `Ticks`.
  They keep an invariant: the `guild_channels` and `track_urls` tables
  mirror the dictionaries exactly, and every `keyword_pings` row is backed by
  an in-memory subscription.

Where the documented behaviour and the code disagree, the model follows the
code:

- **Description.** The description keeps `*`. Only the title has its
  asterisks removed.
- **Incomplete listings.** One incomplete listing makes the whole page fail
  (the exception escapes `extract_ads` into `fetch`). So no ad of that URL is
  reported in that run; the incomplete listing is not simply skipped.
- **`listurls`.** `listurls` prints each URL as `<url>` on its own line, in
  list order.
- **Repeated `notify`.** Running `notify` twice for the same keyword puts the
  user in the in-memory list twice but stores one database row. A single
  `unnotify` then deletes the row while the user stays subscribed in memory
  (`Commands.NotifyTwiceUnnotifyOnce`).

## Model

| member | source | states |
|---|---|---|
| BotState.Bot.constructor | bot.py:15-17 | the bot starts with no channels, no tracked URLs, no subscriptions, no seen ads, and its invariant holds |
| BotState.Bot.AddUrl | bot.py:138-165 | a URL already tracked by the guild, one that fails the pattern, or one whose probe is not 200 with "showing" gets its reply and changes nothing; otherwise the URL is appended to the guild's list and one track_urls row is added; the row/dictionary invariant is kept |
| BotState.Bot.ListUrls | bot.py:168-179 | a guild with a URL list gets the header followed by each URL in angle brackets on its own line; other guilds get the "no URLs" reply |
| BotState.Bot.RemoveUrl | bot.py:182-194 | an untracked URL changes nothing; a tracked one is removed from the guild's list (first occurrence) and all its rows are deleted, keeping the tables equal to the dictionaries |
| BotState.Bot.Notify | bot.py:197-221 | a keyword over 32 characters changes nothing; otherwise the author is appended to the keyword's list (creating guild and keyword entries) and the (user, guild, keyword) row is present afterwards |
| BotState.Bot.Unnotify | bot.py:224-243 | unless the author is in the keyword's list nothing changes; otherwise one occurrence of the author is removed and the row is deleted |
| BotState.Bot.SetChannel | bot.py:267-282 | a missing channel changes nothing and sends nothing; the channel already set gets the "already" reply; any other channel replaces the guild's channel and its table row |
| BotState.Bot.GetAdDumpChannel | bot.py:291-294 | the guild's channel exactly when one is set, None otherwise |
| BotState.Bot.FormatAd | bot.py:297-315 | the message is the header followed by the mentions of the guild's matching subscribers |
| BotState.MentionText | bot.py:309-313 | the loop over keywords and users produces the mention run of the users of the matching keywords, in key order |
| BotState.MentionsOf | bot.py:312-313 | appending each user's mention in turn gives the mention run of the list |
| BotState.HasUserExec | bot.py:232 | `author not in users` as a test by user id, equal to the specification predicate |
| BotState.Bot.RunScraper | bot.py:110-135 | one tick posts exactly the announcements of Dedup over the candidates of the scraped ad map and leaves seen_ads equal to Dedup's recorded set |
| BotState.Bot.PostGuilds | bot.py:116-135 | the loop over guilds posts the Dedup of all candidates of guilds with a channel, in ad-map order |
| BotState.Bot.PostEntries | bot.py:119-135 | the loop over one guild's URL entries posts the Dedup of that guild's candidates |
| BotState.Bot.PostAds | bot.py:122-134 | the loop over one entry's ads posts each ad whose (id, guild) key is new and records the key |
| BotState.Bot.SubscribeBacksRows | bot.py:212-217 | after a subscription every keyword_pings row, including the new one, is backed by a user in memory |
| BotState.Bot.UnsubscribeBacksRows | bot.py:236-240 | removing one occurrence keeps every other row backed |
| BotState.Bot.UntrackedRows | bot.py:186-190 | deleting the (guild, url) rows leaves track_urls equal to the dictionary after removal |
| Commands.TrackUrl | bot.py:154-156 | the guild's new list is its old list (empty for a new guild) with the URL appended; a new guild goes last in key order and an existing one keeps its place; other guilds are unchanged |
| Commands.UntrackUrl | bot.py:185-186 | the guild's list loses the first occurrence; the key order and other guilds are unchanged |
| Commands.RemoveFirst | bot.py:186 | list.remove shortens a list holding x by one and leaves any other list as it is |
| Commands.RemoveFirstAt | bot.py:186 | list.remove cuts out exactly the first occurrence |
| Commands.RemoveFirstMultiset | bot.py:186 | list.remove takes away one copy of x and nothing else |
| Commands.RemoveFirstGone | bot.py:186 | from a duplicate-free list the URL is gone and the list stays duplicate-free |
| Commands.RemoveUser | bot.py:236 | users.remove(author) drops one user with the author's id, keeps every other user and adds none; a list without the author is unchanged |
| Commands.UserIndex | bot.py:236 | the position of the first user with the author's id |
| Commands.RemoveUserAt | bot.py:236 | users.remove(author) cuts out exactly the first user with the author's id and keeps the order of the rest |
| Commands.RemoveUserMultiset | bot.py:236 | users.remove(author) takes away one copy of that first matching user and nothing else |
| Commands.RemoveUserKeepsLater | bot.py:236 | when the author occurs twice, one remove leaves the author in the list |
| Commands.Subscribe | bot.py:206-212 | the keyword's new list is its old list (empty for a new keyword) with the author appended; a new keyword goes last in the guild's key order and the old order is kept; other keywords and guilds are unchanged |
| Commands.Unsubscribe | bot.py:236 | the keyword's list loses one occurrence of the author; key order, other keywords and other guilds are unchanged |
| Commands.UrlLinesAppend | bot.py:173-174 | one more URL appends its bracketed line |
| Commands.ListingLines | bot.py:172-175 | the listing's lines are the bracketed URLs in list order, then an empty tail |
| Commands.TrackKeepsUrlsOnce | bot.py:142-156 | because addurl refuses a tracked URL, no guild ever tracks a URL twice |
| Commands.UntrackKeepsUrlsOnce | bot.py:185-186 | removeurl keeps the lists duplicate-free and the URL is no longer tracked |
| Commands.UntrackOnlyUrl | bot.py:185-190 | after removeurl exactly the (guild, url) pair stops being tracked |
| Commands.TrackedIsFetched | bot.py:156 | a URL addurl adds is fetched on the next tick; one removeurl removes is not |
| Commands.UntrackUndoesTrack | bot.py:138-194 | removeurl after addurl restores the guild's list |
| Commands.SubscribedIsMentioned | bot.py:309-313 | a user who subscribed to a keyword occurring in the ad is mentioned |
| Commands.NotifyTwiceUnnotifyOnce | bot.py:212-236 | two notify calls and one unnotify leave the user subscribed in memory |
| Scraping.Scraper.constructor | scraper.py:12-14 | a new scraper holds the tracked URLs and an empty ad map |
| Scraping.Scraper.ExtractAds | scraper.py:28-56 | the loop over containers returns ParsePage: all listings in order, or failure if any piece is missing |
| Scraping.Scraper.Fetch | scraper.py:19-26 | the fetch succeeds exactly when the request and the extraction do, and returns (url, guild, ads) |
| Scraping.Scraper.EnumerateTasks | scraper.py:63-65 | the tasks are the (guild, url) pairs in dictionary order, then list order |
| Scraping.Scraper.Gather | scraper.py:67 | the results are the fetches of the tasks, in task order |
| Scraping.Scraper.GroupResults | scraper.py:69-73 | ad_map becomes Group of the old map and the results |
| Scraping.Scraper.Execute | scraper.py:58-73 | ad_map becomes the grouping of the fetches of all tasks |
| Scraping.FetchSpec | scraper.py:19-26 | defines fetch: the (url, guild, ads) triple when the request and the extraction succeed, None when either raises (its meaning is SuccessesSpec) |
| Scraping.Group | scraper.py:69-73 | defines the grouping loop of execute: each non-None result is appended to its guild's list, creating the guild's entry on first use; the dictionary stays well formed (its meaning is GroupStep and GroupEntries) |
| Scraping.FetchAllAt | scraper.py:67 | result i is the fetch of task i |
| Scraping.FetchAllAppend | scraper.py:67 | fetching two task lists one after the other gives the concatenated results |
| Scraping.PairsMembers | scraper.py:64-65 | a guild's tasks are exactly its URLs paired with it |
| Scraping.TasksMembers | scraper.py:63-65 | a pair is fetched exactly when the guild tracks the URL |
| Scraping.GroupStep | scraper.py:69-73 | a successful result is added to the map; a failed one is skipped |
| Scraping.GroupEntries | scraper.py:69-73 | a guild is a key after grouping exactly when it was one or has a successful result; its list grows by those results in order |
| Scraping.EntriesForPairs | scraper.py:64-73 | among one guild's results, only that guild has entries, namely its successful fetches |
| Scraping.EntriesForTasks | scraper.py:63-73 | with distinct guilds, a guild's entries among all results are the successful fetches of its own URLs |
| Scraping.AdMapSpec | scraper.py:58-73 | after execute a guild is in ad_map exactly when one of its fetches succeeded, and its list holds those fetches in URL order |
| Scraping.SuccessesSpec | scraper.py:19-26 | an entry is listed exactly when its URL is tracked and its fetch produced those ads |
| Listings.NormalizeTitle | scraper.py:51 | the title is the stripped text with back-ticks replaced by quotes and then asterisks deleted (ReplaceChar and DeleteChar, whose meaning is proved below); it holds no back-tick and no asterisk, and a clean stripped title is kept as is |
| Listings.TitleKeepsOtherChars | scraper.py:51 | every character other than `` ` ``, `'` and `*` keeps its count |
| Listings.NormalizePrice | scraper.py:52 | the stripped price, or "Not specified" when it is empty |
| Listings.NormalizeDescription | scraper.py:53 | "Not specified" for an empty description; otherwise the stripped text, same length, where each back-tick becomes a quote and every other character stays in place |
| Listings.ParseContainer | scraper.py:32-55 | a listing is produced exactly when every piece is present; its id is the listing id, its url the site root plus the vip URL, and its title, price and description are the normalisers applied to the direct texts of the title, price and description elements |
| Listings.MapAllSpec | scraper.py:32-55 | mapping succeeds exactly when every element does, and element i maps to result i |
| Listings.ParsePage | scraper.py:28-56 | defines extract_ads on a page: every container through ParseContainer in document order, failing as soon as one fails (its meaning is ParsePageSpec) |
| Listings.ParsePageSpec | scraper.py:28-56 | a page parses exactly when all its containers are complete, into one listing per container in order |
| Listings.ParsePageStep | scraper.py:32-55 | one more container extends the parsed prefix by its listing |
| Listings.ParsePageStops | scraper.py:32-46 | once a prefix fails, the whole page fails |
| Listings.PageSanitized | scraper.py:47-55 | a parsed page has one listing per container; listing i keeps container i's id and URL, its title has no back-tick or asterisk, its description no back-tick unless it is the default, and its price and description are never empty; its title, price and description are container i's direct texts through the normalisers |
| Messages.Header | bot.py:297-307 | defines the dedented base message of format_ad (its closed form is HeaderTemplate) |
| Messages.Message | bot.py:297-315 | defines format_ad: the header followed by the mentions of the matching subscribers (its meaning is MessageShape and MentionedIff) |
| Messages.HeaderTemplate | bot.py:298-307 | for newline-free fields, the dedented header is exactly the nine unindented template lines |
| Messages.TemplateIndented | bot.py:299-306 | every template line is either blank or the eight-space margin followed by text |
| Messages.TemplateLineIndented | bot.py:299-306 | template line i is header line i behind the margin |
| Messages.MentionedIff | bot.py:309-313 | a user is mentioned exactly when subscribed to a keyword found in the title or the description |
| Messages.MentionedUsersStep | bot.py:310-313 | one more keyword adds its users when it matches |
| Messages.MentionRunAppend | bot.py:312-313 | mention text concatenates over lists of users |
| Messages.MessageShape | bot.py:297-315 | the message starts with the header, and a guild without subscriptions gets the header alone |
| TextWrap.Dedent | bot.py:298 | defines textwrap.dedent: clear blank lines, find the common margin of the other lines, cut it from every line (its meaning is DedentLines and UniformMargin) |
| TextWrap.DedentLines | bot.py:298 | dedent of uniformly indented lines cuts the margin and clears blank lines |
| TextWrap.UniformMargin | bot.py:298 | when every non-blank line has the same indent, that indent is the margin |
| TextWrap.Indent | bot.py:298 | the indent is the longest leading run of spaces and tabs |
| TextWrap.CommonPrefix | bot.py:298 | the common prefix of two margins is a prefix of both and cannot be extended |
| Text.Strip | scraper.py:37 | the result has no surrounding whitespace and is empty exactly when the input is all whitespace |
| Text.StripIsSlice | scraper.py:37 | the result is the slice of the input that starts after its leading whitespace |
| Text.StripRemovesSpace | scraper.py:37 | every input character before and after that slice is whitespace, so the result is exactly the input with its surrounding whitespace cut |
| Text.StripIdempotent | scraper.py:37 | stripping twice is stripping once |
| Text.ReplaceChar | scraper.py:51 | every occurrence of one character is replaced, nothing else changes |
| Text.DeleteChar | scraper.py:51 | the character disappears and every other character keeps its count; a one-character string is emptied exactly when it is that character |
| Text.DeleteCharAppend | scraper.py:51 | deleting from a concatenation deletes from each part, so the kept characters keep their order |
| Text.IsSubstring | bot.py:311 | `keyword in text` holds exactly when the keyword occurs at some position |
| Text.JoinSplit | bot.py:298 | joining the lines of a text gives the text back |
| Text.SplitJoin | bot.py:298 | splitting joined separator-free lines gives the lines back |
| Text.LeadingZero | bot.py:123 | int() ignores leading zeros, so "07" and "7" are the same seen_ads key |
| UrlPattern.IsTrackableUrl | bot.py:144-146 | defines the re.match test of addurl: a full match, or a full match followed by one final newline as `$` allows (its meaning is AcceptedShape and AcceptsSegments) |
| UrlPattern.ScanSpec | bot.py:144-146 | the recogniser accepts exactly valid segment sequences with one to three further separators |
| UrlPattern.AcceptedShape | bot.py:144-146 | the rest of an accepted URL is two to four non-empty `[\w+-]` segments joined by `/` |
| UrlPattern.AcceptsSegments | bot.py:144-146 | every such URL is accepted |
| UrlPattern.AcceptedIsSegments | bot.py:144-146 | every accepted URL is the prefix followed by such segments |
| Ticks.Dedup | bot.py:123-134 | defines one tick's posting loop: a candidate whose (id, guild) key is not yet seen is posted and its key recorded, any other is skipped (its meaning is DedupSpec and the lemmas after it) |
| Ticks.EntryCandsIn | bot.py:119-122 | a guild's candidates are the ads of its URL entries |
| Ticks.GuildCandsIn | bot.py:116-122 | a candidate belongs to a guild that has a channel, with that channel, and is an ad of one of its entries |
| Ticks.CandidatesSpec | bot.py:116-122 | the tick's candidates are the ads of the successful fetches of tracked URLs of guilds with a channel |
| Ticks.PostsAt | bot.py:134 | message i goes to candidate i's channel with format_ad of its ad |
| Ticks.PostsSnoc | bot.py:134 | posting one more candidate appends its announcement |
| Ticks.PostsAppend | bot.py:116-134 | announcements concatenate over lists of candidates |
| Ticks.DedupSnoc | bot.py:123-134 | a candidate whose key is recorded is skipped; otherwise it is posted and its key recorded |
| Ticks.DedupAppend | bot.py:116-134 | a tick over two lists of candidates is the first list's dedup followed by the second's from the updated seen set |
| Ticks.DedupPosted | bot.py:124-134 | every posted candidate comes from the input and had a key not in seen_ads |
| Ticks.DedupGrows | bot.py:130-133 | seen_ads only grows |
| Ticks.DedupRecorded | bot.py:128-133 | seen_ads afterwards is what it held plus the keys of the posted candidates |
| Ticks.DedupDistinct | bot.py:124-134 | no two posted candidates share a key |
| Ticks.DedupRecordsAll | bot.py:124-133 | every candidate's key is in seen_ads afterwards |
| Ticks.DedupSpec | bot.py:123-134 | the conjunction of the five Dedup properties above |
| Ticks.DedupPostsFirstNew | bot.py:124-134 | every candidate that is the first with its key and whose key was unseen is posted |
| Ticks.DedupPostsOnlyFirstNew | bot.py:124-134 | every posted candidate is such a first new candidate |
| Ticks.AllSeenSilent | bot.py:129 | when every key is already seen nothing is posted and seen_ads is unchanged |
| Ticks.RepeatIsSilent | bot.py:110-135 | running the same tick twice posts nothing the second time |
| Ticks.TicksDisjoint | bot.py:110-135 | two consecutive ticks never post the same key |
| Ticks.UnboundUntouched | bot.py:117 | a guild without a channel gets no seen_ads rows |

## Left out

- Discord itself is left out: the client library, the event loop, the
  `tasks.loop` schedule, the five-minute period and `wait_until_ready`. A
  tick is one call of `RunScraper`.
- A sent message is recorded in the returned list of posts. Failures of
  `send` are not modelled.
- `on_ready` is left out. The model does not load the dictionaries from
  SQLite or create the tables. Instead, the invariant of `BotState.Bot`
  states that the channel and URL tables equal the dictionaries and that
  every keyword_pings row is backed, which is what start-up loading relies
  on.
- SQLite commits, the `id` columns and the `timestamp` column of seen_ads
  are left out; the tables are sets or multisets of their rows.
- `viewnotify`, `on_command_error` and `setchannel_error` only send a reply
  or read the database, and are left out.
- The network is an oracle. `Fetcher` maps (guild, url) to the parsed page
  or None, where None stands for any exception in the request. The probe
  request of `addurl` becomes its `status` and `body` parameters.
- HTML parsing by BeautifulSoup is left out. A page is the sequence of its
  `search-item` containers, with the pieces the extractor looks up.
- The concurrency of `asyncio.gather` is left out. The results are in task
  order, as `gather` returns them.
- Python's Unicode `\w` is the abstract parameter `isWord`. The model
  assumes only that `\w` covers neither `/` nor a newline.
- Text is a sequence of characters with no encoding. `str.strip` uses
  Python's whitespace set.
- BotState.Bot.RunScraper: requires every candidate's ad id to be an ASCII
  decimal string. For any other id, `int()` raises in the middle of a tick
  (the digits `int()` also accepts — surrounding spaces, a sign,
  underscores, other Unicode digits — are not modelled). Ids are unbounded
  integers: an id of 2^63 or more, which the sqlite3 binding refuses with
  OverflowError in the middle of a tick, is treated like any other id.
- BotState.Bot.PostGuilds: the same decimal-id requirement and unbounded ids as RunScraper.
- BotState.Bot.PostEntries: the same decimal-id requirement and unbounded ids as RunScraper.
- BotState.Bot.PostAds: the same decimal-id requirement and unbounded ids as RunScraper.
- BotState.Bot.AddUrl: the probe request is its `status` and `body`
  parameters, so the model always gets an answer. An exception from
  `requests.get` (bot.py:147), which ends the command with no reply and
  no change, is not modelled.
- Scraping.Scraper.GetAds: a plain read of `ad_map` with no contract.
- Entities: a user's or channel's mention token is a field, assumed to be a
  function of its id.
- Messages.HeaderTemplate: proved for fields without newlines and a URL
  that does not start with a space or tab. For other ads the header is
  still defined by `Dedent`, but has no closed form.
