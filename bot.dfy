/** The bot process: the three dictionaries the commands and the scraper
    task share, the seen_ads table, and the rows the commands write to the
    other tables so that the dictionaries can be rebuilt at start-up. */
module BotState {
  import opened Wrappers
  import opened Text
  import opened OrderedMaps
  import opened Entities
  import opened UrlPattern
  import opened Listings
  import opened Scraping
  import opened Messages
  import opened Ticks
  import opened Commands

  /** A row of keyword_pings: user id, guild, keyword. */
  type PingRow = (nat, Guild, Keyword)

  /** The row's user is in the guild's list for the keyword. */
  ghost predicate RowBacked(p: KeywordPings, row: PingRow) {
    && row.1 in p && row.2 in p[row.1].vals
    && exists i :: 0 <= i < |p[row.1].vals[row.2]| && p[row.1].vals[row.2][i].id == row.0
  }

  class Bot {
    /** guild_channels: where each guild's ads are posted. */
    var guildChannels: map<Guild, Channel>
    /** scrape_urls */
    var scrapeUrls: ScrapeUrls
    /** keyword_pings */
    var keywordPings: KeywordPings
    /** seen_ads: (int(ad id), guild) of every ad already handled. */
    var seenAds: set<SeenKey>
    /** The guild_channels table: guild to channel id. */
    var channelRows: map<Guild, nat>
    /** The track_urls table, which has no uniqueness constraint. */
    var urlRows: multiset<(Guild, Url)>
    /** The keyword_pings table, unique on (user, guild, keyword). */
    var pingRows: set<PingRow>

    /** The dictionaries are well formed, no guild tracks a URL twice, the
        channel and URL tables hold exactly what the dictionaries hold, and
        every keyword_pings row is backed by a subscription in memory. */
    ghost predicate Valid()
      reads this
    {
      && scrapeUrls.Valid() && UrlsOnce(scrapeUrls) && PingsValid(keywordPings)
      && (forall g :: g in channelRows <==> g in guildChannels)
      && (forall g :: g in channelRows ==> channelRows[g] == guildChannels[g].id)
      && (forall g, u :: urlRows[(g, u)] == if Tracked(scrapeUrls, g, u) then 1 else 0)
      && (forall row :: row in pingRows ==> RowBacked(keywordPings, row))
    }

    constructor ()
      ensures Valid()
      ensures guildChannels == map[] && scrapeUrls == Empty() && keywordPings == map[] && seenAds == {}
    {
      guildChannels := map[];
      scrapeUrls := Empty();
      keywordPings := map[];
      seenAds := {};
      channelRows := map[];
      urlRows := multiset{};
      pingRows := {};
    }

    /** addurl: `status` and `body` are the answer to the probe request,
        which is only consulted when the URL has the search-page shape. */
    method AddUrl(g: Guild, url: Url, isWord: char -> bool, status: int, body: string) returns (reply: string)
      requires Valid()
      modifies this`scrapeUrls, this`urlRows
      ensures Valid()
      ensures Tracked(old(scrapeUrls), g, url) ==>
        reply == AlreadyTracked && scrapeUrls == old(scrapeUrls) && urlRows == old(urlRows)
      ensures !Tracked(old(scrapeUrls), g, url) && !IsTrackableUrl(isWord, url) ==>
        reply == InvalidUrl && scrapeUrls == old(scrapeUrls) && urlRows == old(urlRows)
      ensures !Tracked(old(scrapeUrls), g, url) && IsTrackableUrl(isWord, url) && !ProbeAccepts(status, body) ==>
        reply == CannotParse && scrapeUrls == old(scrapeUrls) && urlRows == old(urlRows)
      ensures !Tracked(old(scrapeUrls), g, url) && IsTrackableUrl(isWord, url) && ProbeAccepts(status, body) ==>
        && reply == UrlAdded
        && scrapeUrls == TrackUrl(old(scrapeUrls), g, url)
        && urlRows == old(urlRows) + multiset{(g, url)}
    {
      if g in scrapeUrls.vals && url in scrapeUrls.vals[g] {
        reply := AlreadyTracked;
      } else if IsTrackableUrl(isWord, url) {
        if status == 200 && IsSubstring("showing", body) {
          urlRows := urlRows + multiset{(g, url)};
          TrackKeepsUrlsOnce(scrapeUrls, g, url);
          scrapeUrls := TrackUrl(scrapeUrls, g, url);
          reply := UrlAdded;
        } else {
          reply := CannotParse;
        }
      } else {
        reply := InvalidUrl;
      }
    }

    /** listurls */
    method ListUrls(g: Guild) returns (reply: string)
      requires Valid()
      ensures g in scrapeUrls.vals ==> reply == UrlListing(scrapeUrls.vals[g])
      ensures g !in scrapeUrls.vals ==> reply == NoUrls
    {
      if g in scrapeUrls.vals {
        var urls := scrapeUrls.vals[g];
        reply := ListHeader;
        var i := 0;
        while i < |urls|
          invariant 0 <= i <= |urls|
          invariant reply == ListHeader + UrlLines(urls[..i])
        {
          UrlLinesAppend(urls[..i], urls[i]);
          assert urls[..i + 1] == urls[..i] + [urls[i]];
          reply := reply + "<" + urls[i] + ">\n";
          i := i + 1;
        }
        assert urls[..i] == urls;
      } else {
        reply := NoUrls;
      }
    }

    /** removeurl: the list loses the URL, the table every row of it. */
    method RemoveUrl(g: Guild, url: Url) returns (reply: string)
      requires Valid()
      modifies this`scrapeUrls, this`urlRows
      ensures Valid()
      ensures !Tracked(old(scrapeUrls), g, url) ==>
        reply == NothingToRemove && scrapeUrls == old(scrapeUrls) && urlRows == old(urlRows)
      ensures Tracked(old(scrapeUrls), g, url) ==>
        && reply == UrlRemoved
        && scrapeUrls == UntrackUrl(old(scrapeUrls), g, url)
        && urlRows == old(urlRows)[(g, url) := 0]
    {
      if g in scrapeUrls.vals && url in scrapeUrls.vals[g] {
        UntrackKeepsUrlsOnce(scrapeUrls, g, url);
        UntrackedRows(scrapeUrls, urlRows, g, url);
        scrapeUrls := UntrackUrl(scrapeUrls, g, url);
        urlRows := urlRows[(g, url) := 0];
        reply := UrlRemoved;
      } else {
        reply := NothingToRemove;
      }
    }

    /** notify: keywords longer than 32 characters are refused; the table
        ignores a repeated (user, guild, keyword) row while the list takes
        the user once more. */
    method Notify(g: Guild, author: User, kw: Keyword) returns (reply: string)
      requires Valid()
      modifies this`keywordPings, this`pingRows
      ensures Valid()
      ensures |kw| > MaxKeywordLength ==>
        reply == KeywordTooLong && keywordPings == old(keywordPings) && pingRows == old(pingRows)
      ensures |kw| <= MaxKeywordLength ==>
        && reply == Subscribed
        && keywordPings == Subscribe(old(keywordPings), g, kw, author)
        && pingRows == old(pingRows) + {(author.id, g, kw)}
    {
      if |kw| > 32 {
        reply := KeywordTooLong;
      } else {
        var before := keywordPings;
        keywordPings := Subscribe(keywordPings, g, kw, author);
        pingRows := pingRows + {(author.id, g, kw)};
        SubscribeBacksRows(before, g, kw, author, pingRows);
        reply := Subscribed;
      }
    }

    /** unnotify: refused unless the author is in the keyword's list; then
        one list entry and the table row go. */
    method Unnotify(g: Guild, author: User, kw: Keyword) returns (reply: string)
      requires Valid()
      modifies this`keywordPings, this`pingRows
      ensures Valid()
      ensures !(g in old(keywordPings) && kw in old(keywordPings)[g].vals && HasUser(old(keywordPings)[g].vals[kw], author)) ==>
        reply == NotSubscribed && keywordPings == old(keywordPings) && pingRows == old(pingRows)
      ensures g in old(keywordPings) && kw in old(keywordPings)[g].vals && HasUser(old(keywordPings)[g].vals[kw], author) ==>
        && reply == Unsubscribed
        && keywordPings == Unsubscribe(old(keywordPings), g, kw, author)
        && pingRows == old(pingRows) - {(author.id, g, kw)}
    {
      if g !in keywordPings || kw !in keywordPings[g].vals || !HasUserExec(keywordPings[g].vals[kw], author) {
        reply := NotSubscribed;
      } else {
        var before := keywordPings;
        keywordPings := Unsubscribe(keywordPings, g, kw, author);
        pingRows := pingRows - {(author.id, g, kw)};
        UnsubscribeBacksRows(before, g, kw, author, pingRows);
        reply := Unsubscribed;
      }
    }

    /** setchannel: with no channel argument the command fails on
        `channel.id` before anything is written, and no reply is sent. */
    method SetChannel(g: Guild, channel: Option<Channel>) returns (reply: Option<string>)
      requires Valid()
      modifies this`guildChannels, this`channelRows
      ensures Valid()
      ensures channel.None? ==>
        reply.None? && guildChannels == old(guildChannels) && channelRows == old(channelRows)
      ensures channel.Some? && g in old(guildChannels) && old(guildChannels)[g].id == channel.value.id ==>
        reply == Some(ChannelKept(channel.value)) && guildChannels == old(guildChannels) && channelRows == old(channelRows)
      ensures channel.Some? && !(g in old(guildChannels) && old(guildChannels)[g].id == channel.value.id) ==>
        && reply == Some(ChannelSet(channel.value))
        && guildChannels == old(guildChannels)[g := channel.value]
        && channelRows == old(channelRows)[g := channel.value.id]
    {
      if channel.None? {
        reply := None;
      } else if g !in guildChannels || guildChannels[g].id != channel.value.id {
        channelRows := channelRows[g := channel.value.id];
        guildChannels := guildChannels[g := channel.value];
        reply := Some(ChannelSet(channel.value));
      } else {
        reply := Some(ChannelKept(channel.value));
      }
    }

    /** get_ad_dump_channel */
    function GetAdDumpChannel(g: Guild): (r: Option<Channel>)
      reads this
      ensures r.Some? <==> g in guildChannels
      ensures r.Some? ==> r.value == guildChannels[g]
    {
      if g in guildChannels then Some(guildChannels[g]) else None
    }

    /** format_ad: the dedented header, then the mentions. */
    method FormatAd(ad: Ad, g: Guild) returns (msg: string)
      requires PingsValid(keywordPings)
      ensures msg == Message(ad, PingsOf(keywordPings, g))
    {
      var mentions := [];
      if g in keywordPings {
        mentions := MentionText(keywordPings[g], ad);
      }
      msg := Header(ad) + mentions;
    }

    /** The innermost loop of run_scraper: the ads of one URL of a guild. */
    method PostAds(g: Guild, ch: Channel, ads: seq<Ad>) returns (posts: seq<Post>)
      requires PingsValid(keywordPings) && DecimalIds(AdCands(g, ch, ads))
      modifies this`seenAds
      ensures seenAds == Dedup(old(seenAds), AdCands(g, ch, ads)).1
      ensures posts == Posts(Dedup(old(seenAds), AdCands(g, ch, ads)).0, keywordPings, Message)
    {
      posts := [];
      var k := 0;
      while k < |ads|
        invariant 0 <= k <= |ads|
        invariant DecimalIds(AdCands(g, ch, ads[..k]))
        invariant seenAds == Dedup(old(seenAds), AdCands(g, ch, ads[..k])).1
        invariant posts == Posts(Dedup(old(seenAds), AdCands(g, ch, ads[..k])).0, keywordPings, Message)
      {
        var ad := ads[k];
        assert AdCands(g, ch, ads)[k] == Candidate(g, ch, ad);
        AdCandsSnoc(g, ch, ads, k);
        DedupSnoc(old(seenAds), AdCands(g, ch, ads[..k]), Candidate(g, ch, ad));
        var key := (DecimalValue(ad.id), g);
        if key !in seenAds {
          seenAds := seenAds + {key};
          var msg := FormatAd(ad, g);
          PostsSnoc(Dedup(old(seenAds), AdCands(g, ch, ads[..k])).0, Candidate(g, ch, ad), keywordPings, Message);
          posts := posts + [Post(ch, msg)];
        }
        k := k + 1;
      }
      assert ads[..k] == ads;
    }

    /** The middle loop of run_scraper: the URL entries of one guild. */
    method PostEntries(g: Guild, ch: Channel, entries: seq<UrlAds>) returns (posts: seq<Post>)
      requires PingsValid(keywordPings) && DecimalIds(EntryCands(g, ch, entries))
      modifies this`seenAds
      ensures seenAds == Dedup(old(seenAds), EntryCands(g, ch, entries)).1
      ensures posts == Posts(Dedup(old(seenAds), EntryCands(g, ch, entries)).0, keywordPings, Message)
    {
      posts := [];
      var j := 0;
      while j < |entries|
        invariant 0 <= j <= |entries|
        invariant DecimalIds(EntryCands(g, ch, entries[..j]))
        invariant seenAds == Dedup(old(seenAds), EntryCands(g, ch, entries[..j])).1
        invariant posts == Posts(Dedup(old(seenAds), EntryCands(g, ch, entries[..j])).0, keywordPings, Message)
      {
        ghost var before := EntryCands(g, ch, entries[..j]);
        ghost var prev := Dedup(old(seenAds), before);
        assert entries[..j + 1][..j] == entries[..j];
        EntryPieceDecimal(g, ch, entries, j);
        var more := PostAds(g, ch, entries[j].ads);
        DedupAppend(old(seenAds), before, AdCands(g, ch, entries[j].ads));
        PostsAppend(prev.0, Dedup(prev.1, AdCands(g, ch, entries[j].ads)).0, keywordPings, Message);
        posts := posts + more;
        j := j + 1;
      }
      assert entries[..j] == entries;
    }

    /** run_scraper: scrape every tracked URL, then walk the ad map guild by
        guild, URL by URL, ad by ad; for a guild with a dump channel, an ad
        whose (int(id), guild) row is not in seen_ads is recorded there and
        posted. */
    method RunScraper(fetchPage: Fetcher) returns (sent: seq<Post>)
      requires Valid()
      requires DecimalIds(Candidates(AdMapOf(fetchPage, scrapeUrls), guildChannels))
      modifies this`seenAds
      ensures Valid()
      ensures seenAds == Dedup(old(seenAds), Candidates(AdMapOf(fetchPage, scrapeUrls), guildChannels)).1
      ensures sent == Posts(Dedup(old(seenAds), Candidates(AdMapOf(fetchPage, scrapeUrls), guildChannels)).0, keywordPings, Message)
    {
      var scraper := new Scraper(scrapeUrls);
      scraper.Execute(fetchPage);
      var adMap := scraper.GetAds();
      assert adMap == AdMapOf(fetchPage, scrapeUrls);
      sent := PostGuilds(adMap);
    }

    /** The outer loop of run_scraper: guild by guild in the ad map's order,
        skipping guilds without a dump channel. */
    method PostGuilds(adMap: AdMap) returns (sent: seq<Post>)
      requires adMap.Valid() && PingsValid(keywordPings)
      requires DecimalIds(Candidates(adMap, guildChannels))
      modifies this`seenAds
      ensures seenAds == Dedup(old(seenAds), Candidates(adMap, guildChannels)).1
      ensures sent == Posts(Dedup(old(seenAds), Candidates(adMap, guildChannels)).0, keywordPings, Message)
    {
      sent := [];
      var i := 0;
      while i < |adMap.keys|
        invariant 0 <= i <= |adMap.keys|
        invariant DecimalIds(GuildCands(adMap.keys[..i], adMap.vals, guildChannels))
        invariant seenAds == Dedup(old(seenAds), GuildCands(adMap.keys[..i], adMap.vals, guildChannels)).1
        invariant sent == Posts(Dedup(old(seenAds), GuildCands(adMap.keys[..i], adMap.vals, guildChannels)).0, keywordPings, Message)
      {
        var g := adMap.keys[i];
        ghost var before := GuildCands(adMap.keys[..i], adMap.vals, guildChannels);
        ghost var prev := Dedup(old(seenAds), before);
        assert adMap.keys[..i + 1][..i] == adMap.keys[..i];
        var chan := GetAdDumpChannel(g);
        if chan.Some? {
          var entries := adMap.vals[g];
          GuildPieceDecimal(adMap, guildChannels, i);
          var more := PostEntries(g, chan.value, entries);
          DedupAppend(old(seenAds), before, EntryCands(g, chan.value, entries));
          PostsAppend(prev.0, Dedup(prev.1, EntryCands(g, chan.value, entries)).0, keywordPings, Message);
          sent := sent + more;
        } else {
          assert GuildCands(adMap.keys[..i + 1], adMap.vals, guildChannels) == before + [];
          assert before + [] == before;
        }
        i := i + 1;
      }
      assert adMap.keys[..i] == adMap.keys;
    }

    // The facts that keep the invariant across notify and unnotify.

    static lemma SubscribeBacksRows(p: KeywordPings, g: Guild, kw: Keyword, u: User, rows: set<PingRow>)
      requires PingsValid(p)
      requires forall row :: row in rows && row != (u.id, g, kw) ==> RowBacked(p, row)
      ensures forall row :: row in rows ==> RowBacked(Subscribe(p, g, kw, u), row)
    {
      var r := Subscribe(p, g, kw, u);
      forall row | row in rows ensures RowBacked(r, row) {
        if row == (u.id, g, kw) {
          assert r[g].vals[kw][|r[g].vals[kw]| - 1] == u;
        } else if row.1 == g && row.2 == kw {
          var l := p[g].vals[kw];
          var i :| 0 <= i < |l| && l[i].id == row.0;
          assert r[g].vals[kw][i] == l[i];
        }
      }
    }

    static lemma UnsubscribeBacksRows(p: KeywordPings, g: Guild, kw: Keyword, u: User, rows: set<PingRow>)
      requires PingsValid(p) && g in p && kw in p[g].vals
      requires forall row :: row in rows ==> RowBacked(p, row) && row != (u.id, g, kw)
      ensures forall row :: row in rows ==> RowBacked(Unsubscribe(p, g, kw, u), row)
    {
      var r := Unsubscribe(p, g, kw, u);
      forall row | row in rows ensures RowBacked(r, row) {
        if row.1 == g && row.2 == kw {
          var l := p[g].vals[kw];
          var i :| 0 <= i < |l| && l[i].id == row.0;
          assert l[i] in RemoveUser(l, u);
          var j :| 0 <= j < |r[g].vals[kw]| && r[g].vals[kw][j] == l[i];
        }
      }
    }

    /** The track_urls table after the DELETE matches the list after remove. */
    static lemma UntrackedRows(s: ScrapeUrls, rows: multiset<(Guild, Url)>, g: Guild, url: Url)
      requires s.Valid() && UrlsOnce(s) && g in s.vals
      requires forall h, v :: rows[(h, v)] == if Tracked(s, h, v) then 1 else 0
      ensures forall h, v :: rows[(g, url) := 0][(h, v)] == if Tracked(UntrackUrl(s, g, url), h, v) then 1 else 0
    {
      UntrackOnlyUrl(s, g, url);
    }

    static lemma MemberDecimal(cands: seq<Candidate>, c: Candidate)
      requires DecimalIds(cands) && c in cands
      ensures IsDecimal(c.ad.id)
    {
    }

    /** The ads of one entry are among the guild's candidates. */
    static lemma EntryPieceDecimal(g: Guild, ch: Channel, entries: seq<UrlAds>, j: int)
      requires DecimalIds(EntryCands(g, ch, entries)) && 0 <= j < |entries|
      ensures DecimalIds(AdCands(g, ch, entries[j].ads))
    {
      var piece := AdCands(g, ch, entries[j].ads);
      forall k | 0 <= k < |piece| ensures IsDecimal(piece[k].ad.id) {
        EntryCandsIn(g, ch, entries, piece[k]);
        MemberDecimal(EntryCands(g, ch, entries), piece[k]);
      }
    }

    /** The candidates of the guild at position i of the ad map are among
        the tick's candidates. */
    static lemma GuildPieceDecimal(adMap: AdMap, channels: map<Guild, Channel>, i: int)
      requires adMap.Valid() && DecimalIds(Candidates(adMap, channels))
      requires 0 <= i < |adMap.keys| && adMap.keys[i] in channels
      ensures DecimalIds(EntryCands(adMap.keys[i], channels[adMap.keys[i]], adMap.vals[adMap.keys[i]]))
    {
      var g := adMap.keys[i];
      var piece := EntryCands(g, channels[g], adMap.vals[g]);
      forall k | 0 <= k < |piece| ensures IsDecimal(piece[k].ad.id) {
        EntryCandsIn(g, channels[g], adMap.vals[g], piece[k]);
        GuildCandsIn(adMap.keys, adMap.vals, channels, piece[k]);
        MemberDecimal(Candidates(adMap, channels), piece[k]);
      }
    }
  }

  /** The mentions format_ad appends for a guild's subscriptions: keyword
      by keyword, every user of a keyword found in the title or the
      description. */
  method MentionText(pings: Pings, ad: Ad) returns (text: string)
    requires pings.Valid()
    ensures text == MentionRun(MentionedUsers(pings.keys, pings.vals, ad))
  {
    text := [];
    var i := 0;
    while i < |pings.keys|
      invariant 0 <= i <= |pings.keys|
      invariant text == MentionRun(MentionedUsers(pings.keys[..i], pings.vals, ad))
    {
      var kw := pings.keys[i];
      MentionedUsersStep(pings.keys, pings.vals, ad, i);
      if IsSubstring(kw, ad.title) || IsSubstring(kw, ad.desc) {
        var run := MentionsOf(pings.vals[kw]);
        MentionRunAppend(MentionedUsers(pings.keys[..i], pings.vals, ad), pings.vals[kw]);
        text := text + run;
      } else {
        MentionRunAppend(MentionedUsers(pings.keys[..i], pings.vals, ad), []);
      }
      i := i + 1;
    }
    assert pings.keys[..i] == pings.keys;
  }

  /** `base_message += user.mention` for each user of one keyword. */
  method MentionsOf(users: seq<User>) returns (text: string)
    ensures text == MentionRun(users)
  {
    text := [];
    var j := 0;
    while j < |users|
      invariant 0 <= j <= |users|
      invariant text == MentionRun(users[..j])
    {
      assert users[..j + 1][..j] == users[..j];
      text := text + users[j].mention;
      j := j + 1;
    }
    assert users[..j] == users;
  }

  /** `author in list`, comparing by id: the front-to-back scan Python's
      `in` performs, proved to agree with Commands.HasUser, the predicate
      that states what the scan looks for. */
  function HasUserExec(users: seq<User>, u: User): (b: bool)
    ensures b <==> HasUser(users, u)
  {
    if users == [] then false
    else if users[0].id == u.id then true
    else
      var b := HasUserExec(users[1..], u);
      assert b ==> HasUser(users, u) by {
        if b {
          var i :| 0 <= i < |users[1..]| && users[1..][i].id == u.id;
          assert users[i + 1].id == u.id;
        }
      }
      assert HasUser(users, u) ==> b by {
        if HasUser(users, u) {
          var i :| 0 <= i < |users| && users[i].id == u.id;
          assert users[1..][i - 1] == users[i];
        }
      }
      b
  }
}
