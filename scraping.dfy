/** The Scraper object of scraper.py: it fetches every tracked (guild, url)
    pair, extracts the listings of each page, and groups the successful
    results by guild into its `ad_map` field, keeping the order in which the
    pairs were enumerated. The HTTP request is an oracle: `fetchPage(g, u)`
    is the parsed page, or None when the request or the decoding raised. */
module Scraping {
  import opened Wrappers
  import opened OrderedMaps
  import opened Entities
  import opened Listings

  type Fetcher = (Guild, Url) -> Option<Page>

  /** The (url, guild, ads) tuple fetch returns on success. */
  datatype Fetched = Fetched(url: Url, guild: Guild, ads: seq<Ad>)

  /** One {"url": ..., "ads": ...} entry of ad_map[guild]. */
  datatype UrlAds = UrlAds(url: Url, ads: seq<Ad>)

  type AdMap = OMap<Guild, seq<UrlAds>>

  /** What fetch returns for one pair: None when the request fails or when
      any container of the page is incomplete. */
  function FetchSpec(fetchPage: Fetcher, g: Guild, u: Url): Option<Fetched> {
    match fetchPage(g, u)
    case None => None
    case Some(page) =>
      match ParsePage(page)
      case None => None
      case Some(ads) => Some(Fetched(u, g, ads))
  }

  /** The fetch tasks of one guild, in the order of its URL list. */
  function Pairs(g: Guild, urls: seq<Url>): (ps: seq<(Guild, Url)>)
    ensures |ps| == |urls|
  {
    if urls == [] then [] else Pairs(g, urls[..|urls| - 1]) + [(g, urls[|urls| - 1])]
  }

  /** The fetch tasks of the guilds `keys`, guild by guild. */
  function TasksOf(keys: seq<Guild>, vals: map<Guild, seq<Url>>): seq<(Guild, Url)>
    requires forall i :: 0 <= i < |keys| ==> keys[i] in vals
  {
    if keys == [] then []
    else TasksOf(keys[..|keys| - 1], vals) + Pairs(keys[|keys| - 1], vals[keys[|keys| - 1]])
  }

  /** The task list execute builds from the tracked URLs. */
  function Tasks(gs: OMap<Guild, seq<Url>>): seq<(Guild, Url)>
    requires gs.Valid()
  {
    TasksOf(gs.keys, gs.vals)
  }

  /** The gathered results, one per task and in task order. */
  function FetchAll(fetchPage: Fetcher, tasks: seq<(Guild, Url)>): (rs: seq<Option<Fetched>>)
    ensures |rs| == |tasks|
  {
    if tasks == [] then []
    else FetchAll(fetchPage, tasks[..|tasks| - 1]) + [FetchSpec(fetchPage, tasks[|tasks| - 1].0, tasks[|tasks| - 1].1)]
  }

  /** The i-th result is the fetch of the i-th task. */
  lemma {:induction false} FetchAllAt(fetchPage: Fetcher, tasks: seq<(Guild, Url)>, i: int)
    requires 0 <= i < |tasks|
    ensures FetchAll(fetchPage, tasks)[i] == FetchSpec(fetchPage, tasks[i].0, tasks[i].1)
  {
    var n := |tasks| - 1;
    var init := FetchAll(fetchPage, tasks[..n]);
    assert FetchAll(fetchPage, tasks) == init + [FetchSpec(fetchPage, tasks[n].0, tasks[n].1)];
    if i < n {
      FetchAllAt(fetchPage, tasks[..n], i);
      assert tasks[..n][i] == tasks[i];
    }
  }

  /** ad_map[guild].append({url, ads}), creating the guild's list first. */
  function AddEntry(m: AdMap, f: Fetched): (r: AdMap)
    requires m.Valid()
    ensures r.Valid()
  {
    m.Put(f.guild, m.GetOr(f.guild, []) + [UrlAds(f.url, f.ads)])
  }

  /** The grouping loop of execute over the gathered results, from `acc`. */
  function Group(acc: AdMap, results: seq<Option<Fetched>>): (r: AdMap)
    requires acc.Valid()
    ensures r.Valid()
  {
    if results == [] then acc
    else
      var m := Group(acc, results[..|results| - 1]);
      match results[|results| - 1]
      case None => m
      case Some(f) => AddEntry(m, f)
  }

  /** The entries of guild `g` among the results, in result order. */
  function EntriesFor(results: seq<Option<Fetched>>, g: Guild): seq<UrlAds> {
    if results == [] then []
    else
      var last := results[|results| - 1];
      EntriesFor(results[..|results| - 1], g)
        + if last.Some? && last.value.guild == g then [UrlAds(last.value.url, last.value.ads)] else []
  }

  /** The successful fetches of guild `g` over its URL list, in list order. */
  function Successes(fetchPage: Fetcher, g: Guild, urls: seq<Url>): seq<UrlAds> {
    if urls == [] then []
    else
      var r := FetchSpec(fetchPage, g, urls[|urls| - 1]);
      Successes(fetchPage, g, urls[..|urls| - 1])
        + if r.Some? then [UrlAds(r.value.url, r.value.ads)] else []
  }

  /** The ad map a fresh Scraper holds after execute. */
  function AdMapOf(fetchPage: Fetcher, gs: OMap<Guild, seq<Url>>): AdMap
    requires gs.Valid()
  {
    Group(Empty(), FetchAll(fetchPage, Tasks(gs)))
  }

  /** Grouping adds exactly the guild's entries, in result order, after what
      the accumulator held. */
  lemma {:induction false} GroupEntries(acc: AdMap, results: seq<Option<Fetched>>, g: Guild)
    requires acc.Valid()
    ensures g in Group(acc, results).vals <==> g in acc.vals || EntriesFor(results, g) != []
    ensures g in Group(acc, results).vals ==>
      Group(acc, results).vals[g] == acc.GetOr(g, []) + EntriesFor(results, g)
  {
    if results != [] {
      GroupEntries(acc, results[..|results| - 1], g);
    }
  }

  lemma {:induction false} EntriesForAppend(a: seq<Option<Fetched>>, b: seq<Option<Fetched>>, g: Guild)
    ensures EntriesFor(a + b, g) == EntriesFor(a, g) + EntriesFor(b, g)
    decreases |b|
  {
    if b == [] {
      assert a + b == a;
    } else {
      assert (a + b)[..|a + b| - 1] == a + b[..|b| - 1];
      EntriesForAppend(a, b[..|b| - 1], g);
    }
  }

  lemma {:induction false} FetchAllAppend(fetchPage: Fetcher, a: seq<(Guild, Url)>, b: seq<(Guild, Url)>)
    ensures FetchAll(fetchPage, a + b) == FetchAll(fetchPage, a) + FetchAll(fetchPage, b)
  {
    if b == [] {
      assert a + b == a;
    } else {
      var n := |b| - 1;
      FetchAllAppend(fetchPage, a, b[..n]);
      assert (a + b)[..|a + b| - 1] == a + b[..n];
      assert b[..n] + [b[n]] == b;
    }
  }

  /** The tasks of one guild are its URLs, each paired with it. */
  lemma {:induction false} PairsMembers(g: Guild, urls: seq<Url>, h: Guild, u: Url)
    ensures (h, u) in Pairs(g, urls) <==> h == g && u in urls
  {
    if urls != [] {
      var n := |urls| - 1;
      PairsMembers(g, urls[..n], h, u);
      assert urls == urls[..n] + [urls[n]];
    }
  }

  /** The entries of `g` among one guild's results. */
  lemma {:induction false} EntriesForPairs(fetchPage: Fetcher, h: Guild, urls: seq<Url>, g: Guild)
    ensures EntriesFor(FetchAll(fetchPage, Pairs(h, urls)), g) ==
      if g == h then Successes(fetchPage, g, urls) else []
  {
    if urls != [] {
      var n := |urls| - 1;
      var ps := Pairs(h, urls[..n]);
      assert (ps + [(h, urls[n])])[..|ps|] == ps;
      var rs := FetchAll(fetchPage, ps);
      assert (rs + [FetchSpec(fetchPage, h, urls[n])])[..|rs|] == rs;
      EntriesForPairs(fetchPage, h, urls[..n], g);
    }
  }

  /** With distinct guild keys, the entries of `g` among all results are the
      successful fetches of g's own URL list. */
  lemma {:induction false} EntriesForTasks(fetchPage: Fetcher, keys: seq<Guild>, vals: map<Guild, seq<Url>>, g: Guild)
    requires forall i :: 0 <= i < |keys| ==> keys[i] in vals
    requires forall i, j :: 0 <= i < j < |keys| ==> keys[i] != keys[j]
    ensures EntriesFor(FetchAll(fetchPage, TasksOf(keys, vals)), g) ==
      if g in keys then Successes(fetchPage, g, vals[g]) else []
  {
    if keys == [] {
      assert FetchAll(fetchPage, []) == [];
    } else {
      var n := |keys| - 1;
      var h := keys[n];
      EntriesForTasks(fetchPage, keys[..n], vals, g);
      EntriesForTasksStep(fetchPage, keys, vals, g);
      EntriesForPairs(fetchPage, h, vals[h], g);
      LastKey(keys, g);
    }
  }

  /** The results of one more guild's tasks add that guild's entries. */
  lemma EntriesForTasksStep(fetchPage: Fetcher, keys: seq<Guild>, vals: map<Guild, seq<Url>>, g: Guild)
    requires keys != []
    requires forall i :: 0 <= i < |keys| ==> keys[i] in vals
    ensures EntriesFor(FetchAll(fetchPage, TasksOf(keys, vals)), g) ==
      EntriesFor(FetchAll(fetchPage, TasksOf(keys[..|keys| - 1], vals)), g) +
      EntriesFor(FetchAll(fetchPage, Pairs(keys[|keys| - 1], vals[keys[|keys| - 1]])), g)
  {
    var n := |keys| - 1;
    var init := TasksOf(keys[..n], vals);
    var last := Pairs(keys[n], vals[keys[n]]);
    assert TasksOf(keys, vals) == init + last;
    FetchAllAppend(fetchPage, init, last);
    EntriesForAppend(FetchAll(fetchPage, init), FetchAll(fetchPage, last), g);
  }

  /** A guild is among distinct keys when it is the last one or among the
      others, and never both. */
  lemma LastKey(keys: seq<Guild>, g: Guild)
    requires keys != []
    requires forall i, j :: 0 <= i < j < |keys| ==> keys[i] != keys[j]
    ensures g in keys <==> g in keys[..|keys| - 1] || g == keys[|keys| - 1]
    ensures g == keys[|keys| - 1] ==> g !in keys[..|keys| - 1]
  {
    var n := |keys| - 1;
    assert keys == keys[..n] + [keys[n]];
    forall j | 0 <= j < n ensures keys[..n][j] != keys[n] {
      assert keys[..n][j] == keys[j];
    }
  }

  /** The ad map of a fresh Scraper after execute: a guild is a key exactly
      when at least one of its fetches succeeded, and its list holds its
      successful {url, ads} entries in the order of its tracked URLs. */
  lemma AdMapSpec(fetchPage: Fetcher, gs: OMap<Guild, seq<Url>>, g: Guild)
    requires gs.Valid()
    ensures AdMapOf(fetchPage, gs).Valid()
    ensures g in AdMapOf(fetchPage, gs).vals <==> g in gs.vals && Successes(fetchPage, g, gs.vals[g]) != []
    ensures g in AdMapOf(fetchPage, gs).vals ==> AdMapOf(fetchPage, gs).vals[g] == Successes(fetchPage, g, gs.vals[g])
  {
    GroupEntries(Empty(), FetchAll(fetchPage, Tasks(gs)), g);
    EntriesForTasks(fetchPage, gs.keys, gs.vals, g);
  }

  /** An entry is listed for a URL only when that URL's fetch succeeded,
      and it carries that page's listings. */
  lemma {:induction false} SuccessesSpec(fetchPage: Fetcher, g: Guild, urls: seq<Url>, e: UrlAds)
    ensures e in Successes(fetchPage, g, urls) <==>
      e.url in urls && FetchSpec(fetchPage, g, e.url) == Some(Fetched(e.url, g, e.ads))
  {
    if urls != [] {
      var n := |urls| - 1;
      SuccessesSpec(fetchPage, g, urls[..n], e);
      assert urls == urls[..n] + [urls[n]];
    }
  }

  /** A pair is fetched in a tick exactly when the guild tracks the URL. */
  lemma {:induction false} TasksMembers(keys: seq<Guild>, vals: map<Guild, seq<Url>>, g: Guild, u: Url)
    requires forall i :: 0 <= i < |keys| ==> keys[i] in vals
    ensures (g, u) in TasksOf(keys, vals) <==> g in keys && u in vals[g]
  {
    if keys != [] {
      var n := |keys| - 1;
      TasksMembers(keys[..n], vals, g, u);
      assert keys == keys[..n] + [keys[n]];
      PairsMembers(keys[n], vals[keys[n]], g, u);
    }
  }

  lemma GroupStep(acc: AdMap, results: seq<Option<Fetched>>, k: int)
    requires acc.Valid() && 0 <= k < |results|
    ensures Group(acc, results[..k + 1]) ==
      if results[k].Some? then AddEntry(Group(acc, results[..k]), results[k].value) else Group(acc, results[..k])
  {
    assert results[..k + 1][..k] == results[..k];
  }

  class Scraper {
    var guildScrapes: OMap<Guild, seq<Url>>
    var adMap: AdMap

    constructor (guildScrapes: OMap<Guild, seq<Url>>)
      ensures this.guildScrapes == guildScrapes && adMap == Empty()
    {
      this.guildScrapes := guildScrapes;
      adMap := Empty();
    }

    function GetAds(): AdMap
      reads this
    {
      adMap
    }

    /** extract_ads: one listing per container, appended in document order;
        the first incomplete container raises, which is None here. */
    method ExtractAds(page: Page) returns (ads: Option<seq<Ad>>)
      ensures ads == ParsePage(page)
    {
      var acc: seq<Ad> := [];
      var i := 0;
      while i < |page|
        invariant 0 <= i <= |page|
        invariant ParsePage(page[..i]) == Some(acc)
      {
        var ad := ParseContainer(page[i]);
        ParsePageStep(page, i);
        if ad.None? {
          ParsePageStops(page, i + 1);
          return None;
        }
        acc := acc + [ad.value];
        i := i + 1;
      }
      assert page[..i] == page;
      ads := Some(acc);
    }

    /** fetch: the request, then extraction; any exception gives None. */
    method Fetch(fetchPage: Fetcher, guild: Guild, url: Url) returns (r: Option<Fetched>)
      ensures r.Some? <==> fetchPage(guild, url).Some? && ParsePage(fetchPage(guild, url).value).Some?
      ensures r.Some? ==> r.value == Fetched(url, guild, ParsePage(fetchPage(guild, url).value).value)
      ensures r == FetchSpec(fetchPage, guild, url)
    {
      var text := fetchPage(guild, url);
      if text.None? {
        return None;
      }
      var ads := ExtractAds(text.value);
      if ads.None? {
        return None;
      }
      r := Some(Fetched(url, guild, ads.value));
    }

    /** The first half of execute: one fetch task per tracked (guild, url)
        pair, guild by guild in key order, each guild's URLs in list order. */
    method EnumerateTasks() returns (tasks: seq<(Guild, Url)>)
      requires guildScrapes.Valid()
      ensures tasks == Tasks(guildScrapes)
    {
      var keys := guildScrapes.keys;
      tasks := [];
      var i := 0;
      while i < |keys|
        invariant 0 <= i <= |keys|
        invariant tasks == TasksOf(keys[..i], guildScrapes.vals)
      {
        var guild := keys[i];
        var urls := guildScrapes.vals[guild];
        var j := 0;
        while j < |urls|
          invariant 0 <= j <= |urls|
          invariant tasks == TasksOf(keys[..i], guildScrapes.vals) + Pairs(guild, urls[..j])
        {
          assert urls[..j + 1][..j] == urls[..j];
          tasks := tasks + [(guild, urls[j])];
          j := j + 1;
        }
        assert urls[..j] == urls && keys[..i + 1][..i] == keys[..i];
        i := i + 1;
      }
      assert keys[..i] == keys;
    }

    /** gather: every task's result, in task order whatever order the
        requests complete in. */
    method Gather(fetchPage: Fetcher, tasks: seq<(Guild, Url)>) returns (results: seq<Option<Fetched>>)
      ensures results == FetchAll(fetchPage, tasks)
    {
      results := [];
      var k := 0;
      while k < |tasks|
        invariant 0 <= k <= |tasks|
        invariant results == FetchAll(fetchPage, tasks[..k])
      {
        var r := Fetch(fetchPage, tasks[k].0, tasks[k].1);
        assert tasks[..k + 1][..k] == tasks[..k];
        results := results + [r];
        k := k + 1;
      }
      assert tasks[..k] == tasks;
    }

    /** The last loop of execute: each successful result appended to its
        guild's list, the guild's key created on first use. */
    method GroupResults(results: seq<Option<Fetched>>)
      requires adMap.Valid()
      modifies this`adMap
      ensures adMap == Group(old(adMap), results)
    {
      ghost var start := adMap;
      var k := 0;
      while k < |results|
        invariant 0 <= k <= |results|
        invariant start.Valid() && adMap.Valid()
        invariant adMap == Group(start, results[..k])
      {
        GroupStep(start, results, k);
        var r := results[k];
        if r.Some? {
          ghost var before := adMap;
          if r.value.guild !in adMap.vals {
            adMap := adMap.Put(r.value.guild, []);
          }
          adMap := adMap.Put(r.value.guild, adMap.vals[r.value.guild] + [UrlAds(r.value.url, r.value.ads)]);
          assert adMap == AddEntry(before, r.value);
        }
        k := k + 1;
      }
      assert results[..k] == results;
    }

    /** execute: enumerate the tasks, gather their results, group them. */
    method Execute(fetchPage: Fetcher)
      requires guildScrapes.Valid() && adMap.Valid()
      modifies this`adMap
      ensures adMap == Group(old(adMap), FetchAll(fetchPage, Tasks(guildScrapes)))
    {
      var tasks := EnumerateTasks();
      var results := Gather(fetchPage, tasks);
      GroupResults(results);
    }
  }
}
