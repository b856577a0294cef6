/** What one run of the scraper task publishes (run_scraper): every ad of
    the ad map whose guild has a dump channel is a candidate, in the ad
    map's order; a candidate is posted the first time its (ad id, guild)
    pair is met, and the pair is then recorded in seen_ads. */
module Ticks {
  import opened Wrappers
  import opened Text
  import opened OrderedMaps
  import opened Entities
  import opened Listings
  import opened Scraping
  import opened Messages

  /** An ad found for a guild, with the channel it would be posted to. */
  datatype Candidate = Candidate(guild: Guild, chan: Channel, ad: Ad)

  /** A row of seen_ads: int(ad id) and the guild. */
  type SeenKey = (int, Guild)

  /** A message sent to a channel. */
  datatype Post = Post(chan: Channel, text: string)

  function AdCands(g: Guild, ch: Channel, ads: seq<Ad>): (cs: seq<Candidate>)
    ensures |cs| == |ads|
    ensures forall i :: 0 <= i < |ads| ==> cs[i] == Candidate(g, ch, ads[i])
  {
    seq(|ads|, i requires 0 <= i < |ads| => Candidate(g, ch, ads[i]))
  }

  /** The candidates of one guild: URL entry by URL entry, ad by ad. */
  function EntryCands(g: Guild, ch: Channel, entries: seq<UrlAds>): seq<Candidate> {
    if entries == [] then []
    else EntryCands(g, ch, entries[..|entries| - 1]) + AdCands(g, ch, entries[|entries| - 1].ads)
  }

  /** The candidates of the guilds `keys`, skipping guilds without a channel. */
  function GuildCands(keys: seq<Guild>, vals: map<Guild, seq<UrlAds>>, channels: map<Guild, Channel>): seq<Candidate> {
    if keys == [] then []
    else
      var g := keys[|keys| - 1];
      GuildCands(keys[..|keys| - 1], vals, channels) +
      (if g in vals && g in channels then EntryCands(g, channels[g], vals[g]) else [])
  }

  function Candidates(adMap: AdMap, channels: map<Guild, Channel>): seq<Candidate> {
    GuildCands(adMap.keys, adMap.vals, channels)
  }

  /** int(ad["id"]) succeeds on every candidate. */
  predicate DecimalIds(cands: seq<Candidate>) {
    forall i :: 0 <= i < |cands| ==> IsDecimal(cands[i].ad.id)
  }

  function Key(c: Candidate): SeenKey
    requires IsDecimal(c.ad.id)
  {
    (DecimalValue(c.ad.id), c.guild)
  }

  /** The candidates posted, and seen_ads afterwards: a candidate is posted
      when its key is not yet recorded, and its key is then recorded. */
  function Dedup(seen: set<SeenKey>, cands: seq<Candidate>): (seq<Candidate>, set<SeenKey>)
    requires DecimalIds(cands)
  {
    if cands == [] then ([], seen)
    else
      var n := |cands| - 1;
      var prev := Dedup(seen, cands[..n]);
      if Key(cands[n]) in prev.1 then prev
      else (prev.0 + [cands[n]], prev.1 + {Key(cands[n])})
  }

  function PingsOf(keywordPings: map<Guild, Pings>, g: Guild): Option<Pings> {
    if g in keywordPings then Some(keywordPings[g]) else None
  }

  /** The text format_ad builds for an ad, given the guild's subscriptions;
      the bot passes Messages.Message. */
  type Formatter = (Ad, Option<Pings>) -> string

  /** chan.send(format_ad(ad, guild)) for one posted candidate. */
  function Announce(c: Candidate, keywordPings: map<Guild, Pings>, format: Formatter): Post {
    Post(c.chan, format(c.ad, PingsOf(keywordPings, c.guild)))
  }

  /** The announcements of the posted candidates, in order. */
  function Posts(pub: seq<Candidate>, keywordPings: map<Guild, Pings>, format: Formatter): (ps: seq<Post>)
    ensures |ps| == |pub|
  {
    if pub == [] then []
    else Posts(pub[..|pub| - 1], keywordPings, format) + [Announce(pub[|pub| - 1], keywordPings, format)]
  }

  /** The i-th message sent is the announcement of the i-th posted candidate. */
  lemma {:induction false} PostsAt(pub: seq<Candidate>, keywordPings: map<Guild, Pings>, format: Formatter, i: int)
    requires 0 <= i < |pub|
    ensures Posts(pub, keywordPings, format)[i] == Post(pub[i].chan, format(pub[i].ad, PingsOf(keywordPings, pub[i].guild)))
  {
    var n := |pub| - 1;
    if i < n {
      PostsAt(pub[..n], keywordPings, format, i);
    }
  }

  // ---------------------------------------------------------------------
  // Composition

  /** Deduplicating a concatenation is deduplicating the first part, then
      the second part against what the first recorded. */
  lemma {:induction false} DedupAppend(seen: set<SeenKey>, a: seq<Candidate>, b: seq<Candidate>)
    requires DecimalIds(a) && DecimalIds(b)
    ensures DecimalIds(a + b)
    ensures Dedup(seen, a + b) ==
      (Dedup(seen, a).0 + Dedup(Dedup(seen, a).1, b).0, Dedup(Dedup(seen, a).1, b).1)
  {
    assert forall i :: 0 <= i < |a + b| ==> (a + b)[i] == if i < |a| then a[i] else b[i - |a|];
    if b == [] {
      assert a + b == a;
      assert Dedup(Dedup(seen, a).1, b) == ([], Dedup(seen, a).1);
      assert Dedup(seen, a).0 + [] == Dedup(seen, a).0;
    } else {
      var n := |b| - 1;
      assert forall i :: 0 <= i < n ==> b[..n][i] == b[i];
      DedupAppend(seen, a, b[..n]);
      assert (a + b)[..|a + b| - 1] == a + b[..n];
      assert (a + b)[|a + b| - 1] == b[n];
      var da := Dedup(seen, a);
      var x := Dedup(da.1, b[..n]);
      assert Dedup(seen, a + b[..n]) == (da.0 + x.0, x.1);
      if Key(b[n]) !in x.1 {
        assert Dedup(da.1, b) == (x.0 + [b[n]], x.1 + {Key(b[n])});
        assert da.0 + (x.0 + [b[n]]) == (da.0 + x.0) + [b[n]];
      }
    }
  }

  /** One more posted candidate adds its announcement at the end. */
  lemma PostsSnoc(pub: seq<Candidate>, c: Candidate, keywordPings: map<Guild, Pings>, format: Formatter)
    ensures Posts(pub + [c], keywordPings, format) == Posts(pub, keywordPings, format) + [Announce(c, keywordPings, format)]
  {
    assert (pub + [c])[..|pub|] == pub;
  }

  /** Posting two runs of candidates sends the messages of the first, then
      those of the second. */
  lemma {:induction false} PostsAppend(p: seq<Candidate>, q: seq<Candidate>, keywordPings: map<Guild, Pings>, format: Formatter)
    ensures Posts(p + q, keywordPings, format) == Posts(p, keywordPings, format) + Posts(q, keywordPings, format)
  {
    if q == [] {
      assert p + q == p;
    } else {
      var n := |q| - 1;
      PostsAppend(p, q[..n], keywordPings, format);
      assert p + q == (p + q[..n]) + [q[n]];
      PostsSnoc(p + q[..n], q[n], keywordPings, format);
      PostsSnoc(q[..n], q[n], keywordPings, format);
      assert q[..n] + [q[n]] == q;
    }
  }

  /** One more candidate is posted exactly when its key is new. */
  lemma DedupSnoc(seen: set<SeenKey>, cands: seq<Candidate>, c: Candidate)
    requires DecimalIds(cands) && IsDecimal(c.ad.id)
    ensures DecimalIds(cands + [c])
    ensures Dedup(seen, cands + [c]) ==
      if Key(c) in Dedup(seen, cands).1 then Dedup(seen, cands)
      else (Dedup(seen, cands).0 + [c], Dedup(seen, cands).1 + {Key(c)})
  {
    assert (cands + [c])[..|cands|] == cands;
  }

  /** The candidates of the first k + 1 ads of a URL. */
  lemma AdCandsSnoc(g: Guild, ch: Channel, ads: seq<Ad>, k: int)
    requires 0 <= k < |ads|
    ensures AdCands(g, ch, ads[..k + 1]) == AdCands(g, ch, ads[..k]) + [Candidate(g, ch, ads[k])]
  {
  }

  // ---------------------------------------------------------------------
  // Which ads are candidates

  lemma {:induction false} EntryCandsIn(g: Guild, ch: Channel, entries: seq<UrlAds>, c: Candidate)
    ensures c in EntryCands(g, ch, entries) <==>
      c.guild == g && c.chan == ch && exists e :: e in entries && c.ad in e.ads
  {
    if entries != [] {
      var n := |entries| - 1;
      EntryCandsIn(g, ch, entries[..n], c);
      assert entries == entries[..n] + [entries[n]];
      var last := AdCands(g, ch, entries[n].ads);
      if c in last {
        var j :| 0 <= j < |last| && last[j] == c;
        assert c.ad == entries[n].ads[j];
      }
      if c.guild == g && c.chan == ch && c.ad in entries[n].ads {
        var j :| 0 <= j < |entries[n].ads| && entries[n].ads[j] == c.ad;
        assert last[j] == c;
      }
    }
  }

  lemma {:induction false} GuildCandsIn(keys: seq<Guild>, vals: map<Guild, seq<UrlAds>>, channels: map<Guild, Channel>, c: Candidate)
    ensures c in GuildCands(keys, vals, channels) <==>
      c.guild in keys && c.guild in vals && c.guild in channels && c.chan == channels[c.guild] &&
      exists e :: e in vals[c.guild] && c.ad in e.ads
  {
    if keys != [] {
      var n := |keys| - 1;
      GuildCandsIn(keys[..n], vals, channels, c);
      assert keys == keys[..n] + [keys[n]];
      var g := keys[n];
      if g in vals && g in channels {
        EntryCandsIn(g, channels[g], vals[g], c);
      }
    }
  }

  /** A candidate of a tick is an ad that was listed on a page one of the
      guild's tracked URLs returned, for a guild with a dump channel, aimed
      at that channel; and every such ad is one. */
  lemma CandidatesSpec(fetchPage: Fetcher, gs: OMap<Guild, seq<Url>>, channels: map<Guild, Channel>, c: Candidate)
    requires gs.Valid()
    ensures c in Candidates(AdMapOf(fetchPage, gs), channels) <==>
      c.guild in gs.vals && c.guild in channels && c.chan == channels[c.guild] &&
      exists u :: u in gs.vals[c.guild] &&
        FetchSpec(fetchPage, c.guild, u).Some? && c.ad in FetchSpec(fetchPage, c.guild, u).value.ads
  {
    var m := AdMapOf(fetchPage, gs);
    var g := c.guild;
    AdMapSpec(fetchPage, gs, g);
    GuildCandsIn(m.keys, m.vals, channels, c);
    if g in gs.vals {
      var urls := gs.vals[g];
      var succ := Successes(fetchPage, g, urls);
      if exists e :: e in succ && c.ad in e.ads {
        var e :| e in succ && c.ad in e.ads;
        SuccessesSpec(fetchPage, g, urls, e);
        assert e.url in urls && FetchSpec(fetchPage, g, e.url).Some? && c.ad in FetchSpec(fetchPage, g, e.url).value.ads;
      }
      if u :| u in urls && FetchSpec(fetchPage, g, u).Some? && c.ad in FetchSpec(fetchPage, g, u).value.ads {
        var f := FetchSpec(fetchPage, g, u).value;
        var e := UrlAds(u, f.ads);
        SuccessesSpec(fetchPage, g, urls, e);
        assert e in succ;
      }
    }
  }

  // ---------------------------------------------------------------------
  // What gets posted

  /** Every posted candidate comes from the input and has a key that was
      not recorded before. */
  lemma {:induction false} DedupPosted(seen: set<SeenKey>, cands: seq<Candidate>)
    requires DecimalIds(cands)
    ensures DecimalIds(Dedup(seen, cands).0)
    ensures forall j :: 0 <= j < |Dedup(seen, cands).0| ==>
      Dedup(seen, cands).0[j] in cands && Key(Dedup(seen, cands).0[j]) !in seen
  {
    if cands != [] {
      var n := |cands| - 1;
      var prev := Dedup(seen, cands[..n]);
      DedupPosted(seen, cands[..n]);
      assert forall i :: 0 <= i < n ==> cands[..n][i] == cands[i];
      assert forall c :: c in cands[..n] ==> c in cands;
      var r := Dedup(seen, cands);
      if Key(cands[n]) !in prev.1 {
        assert r.0 == prev.0 + [cands[n]];
        assert prev.1 == Dedup(seen, cands[..n]).1;
        DedupGrows(seen, cands[..n]);
      } else {
        assert r.0 == prev.0;
      }
    }
  }

  /** seen_ads only grows. */
  lemma {:induction false} DedupGrows(seen: set<SeenKey>, cands: seq<Candidate>)
    requires DecimalIds(cands)
    ensures seen <= Dedup(seen, cands).1
  {
    if cands != [] {
      DedupGrows(seen, cands[..|cands| - 1]);
    }
  }

  /** seen_ads afterwards is what it held plus the keys of the posted
      candidates. */
  lemma {:induction false} DedupRecorded(seen: set<SeenKey>, cands: seq<Candidate>)
    requires DecimalIds(cands)
    ensures DecimalIds(Dedup(seen, cands).0)
    ensures forall k :: k in Dedup(seen, cands).1 <==>
      k in seen || exists j :: 0 <= j < |Dedup(seen, cands).0| && Key(Dedup(seen, cands).0[j]) == k
  {
    DedupPosted(seen, cands);
    if cands != [] {
      var n := |cands| - 1;
      var prev := Dedup(seen, cands[..n]);
      DedupRecorded(seen, cands[..n]);
      var r := Dedup(seen, cands);
      if Key(cands[n]) !in prev.1 {
        assert r == (prev.0 + [cands[n]], prev.1 + {Key(cands[n])});
        assert forall j :: 0 <= j < |r.0| ==> r.0[j] == if j < |prev.0| then prev.0[j] else cands[n];
        forall k ensures k in r.1 <==> k in seen || exists j :: 0 <= j < |r.0| && Key(r.0[j]) == k {
          if k == Key(cands[n]) {
            assert Key(r.0[|r.0| - 1]) == k;
          } else if k in prev.1 && k !in seen {
            var j :| 0 <= j < |prev.0| && Key(prev.0[j]) == k;
            assert r.0[j] == prev.0[j];
          }
        }
      } else {
        assert r == prev;
      }
    }
  }

  /** No two posted candidates share a key. */
  lemma {:induction false} DedupDistinct(seen: set<SeenKey>, cands: seq<Candidate>)
    requires DecimalIds(cands)
    ensures DecimalIds(Dedup(seen, cands).0)
    ensures forall i, j :: 0 <= i < j < |Dedup(seen, cands).0| ==>
      Key(Dedup(seen, cands).0[i]) != Key(Dedup(seen, cands).0[j])
  {
    DedupPosted(seen, cands);
    if cands != [] {
      var n := |cands| - 1;
      var prev := Dedup(seen, cands[..n]);
      DedupDistinct(seen, cands[..n]);
      DedupRecorded(seen, cands[..n]);
      var r := Dedup(seen, cands);
      if Key(cands[n]) !in prev.1 {
        assert r.0 == prev.0 + [cands[n]];
        forall i, j | 0 <= i < j < |r.0| ensures Key(r.0[i]) != Key(r.0[j]) {
          assert r.0[i] == prev.0[i];
          if j < |prev.0| {
            assert r.0[j] == prev.0[j];
          } else {
            assert r.0[j] == cands[n];
          }
        }
      } else {
        assert r == prev;
      }
    }
  }

  /** Every candidate's key is recorded afterwards. */
  lemma {:induction false} DedupRecordsAll(seen: set<SeenKey>, cands: seq<Candidate>)
    requires DecimalIds(cands)
    ensures forall i :: 0 <= i < |cands| ==> Key(cands[i]) in Dedup(seen, cands).1
  {
    if cands != [] {
      var n := |cands| - 1;
      DedupRecordsAll(seen, cands[..n]);
      assert forall i :: 0 <= i < n ==> cands[..n][i] == cands[i];
      assert Dedup(seen, cands[..n]).1 <= Dedup(seen, cands).1;
    }
  }

  /** Posted candidates come from the input with keys not yet seen, no two
      share a key, seen_ads grows by exactly the posted keys, and afterwards
      every candidate's key is recorded. */
  lemma DedupSpec(seen: set<SeenKey>, cands: seq<Candidate>)
    requires DecimalIds(cands)
    ensures DecimalIds(Dedup(seen, cands).0)
    ensures forall j :: 0 <= j < |Dedup(seen, cands).0| ==>
      Dedup(seen, cands).0[j] in cands && Key(Dedup(seen, cands).0[j]) !in seen
    ensures forall i, j :: 0 <= i < j < |Dedup(seen, cands).0| ==>
      Key(Dedup(seen, cands).0[i]) != Key(Dedup(seen, cands).0[j])
    ensures forall k :: k in Dedup(seen, cands).1 <==>
      k in seen || exists j :: 0 <= j < |Dedup(seen, cands).0| && Key(Dedup(seen, cands).0[j]) == k
    ensures forall i :: 0 <= i < |cands| ==> Key(cands[i]) in Dedup(seen, cands).1
  {
    DedupPosted(seen, cands);
    DedupDistinct(seen, cands);
    DedupRecorded(seen, cands);
    DedupRecordsAll(seen, cands);
  }

  /** The candidate at `i` is the first of its key and the key was not
      seen before the tick. */
  predicate FirstNew(seen: set<SeenKey>, cands: seq<Candidate>, i: int)
    requires DecimalIds(cands) && 0 <= i < |cands|
  {
    Key(cands[i]) !in seen && forall j :: 0 <= j < i ==> Key(cands[j]) != Key(cands[i])
  }

  /** Every candidate that is the first of its key, with a key not seen
      before the tick, is posted. */
  lemma {:induction false} DedupPostsFirstNew(seen: set<SeenKey>, cands: seq<Candidate>)
    requires DecimalIds(cands)
    ensures forall i :: 0 <= i < |cands| && FirstNew(seen, cands, i) ==> cands[i] in Dedup(seen, cands).0
  {
    if cands != [] {
      var n := |cands| - 1;
      var init := cands[..n];
      var prev := Dedup(seen, init);
      var r := Dedup(seen, cands);
      DedupPostsFirstNew(seen, init);
      DedupSpec(seen, init);
      assert forall j :: 0 <= j < n ==> init[j] == cands[j];
      assert prev.0 <= r.0;
      forall i | 0 <= i < |cands| && FirstNew(seen, cands, i) ensures cands[i] in r.0 {
        if i < n {
          assert FirstNew(seen, init, i);
        }
      }
    }
  }

  /** Every posted candidate is the first of its key in the input, with a
      key not seen before the tick. */
  lemma {:induction false} DedupPostsOnlyFirstNew(seen: set<SeenKey>, cands: seq<Candidate>)
    requires DecimalIds(cands)
    ensures forall j :: 0 <= j < |Dedup(seen, cands).0| ==>
      exists i :: 0 <= i < |cands| && cands[i] == Dedup(seen, cands).0[j] && FirstNew(seen, cands, i)
  {
    if cands != [] {
      var n := |cands| - 1;
      var init := cands[..n];
      var prev := Dedup(seen, init);
      var r := Dedup(seen, cands);
      DedupPostsOnlyFirstNew(seen, init);
      DedupSpec(seen, init);
      assert forall j :: 0 <= j < n ==> init[j] == cands[j];
      forall j | 0 <= j < |r.0|
        ensures exists i :: 0 <= i < |cands| && cands[i] == r.0[j] && FirstNew(seen, cands, i)
      {
        if j < |prev.0| {
          var i :| 0 <= i < n && init[i] == prev.0[j] && FirstNew(seen, init, i);
          assert cands[i] == r.0[j] && FirstNew(seen, cands, i);
        } else {
          assert Key(cands[n]) !in prev.1 && r.0[j] == cands[n];
          assert forall k :: 0 <= k < n ==> Key(init[k]) in prev.1;
          assert FirstNew(seen, cands, n);
        }
      }
    } else {
      assert Dedup(seen, cands).0 == [];
    }
  }

  /** When every candidate's key is already recorded, nothing is posted and
      seen_ads is unchanged: scraping the same listings again is silent. */
  lemma {:induction false} AllSeenSilent(seen: set<SeenKey>, cands: seq<Candidate>)
    requires DecimalIds(cands)
    requires forall i :: 0 <= i < |cands| ==> Key(cands[i]) in seen
    ensures Dedup(seen, cands) == ([], seen)
  {
    if cands != [] {
      var n := |cands| - 1;
      assert forall i :: 0 <= i < n ==> cands[..n][i] == cands[i];
      AllSeenSilent(seen, cands[..n]);
    }
  }

  lemma RepeatIsSilent(seen: set<SeenKey>, cands: seq<Candidate>)
    requires DecimalIds(cands)
    ensures Dedup(Dedup(seen, cands).1, cands) == ([], Dedup(seen, cands).1)
  {
    DedupSpec(seen, cands);
    AllSeenSilent(Dedup(seen, cands).1, cands);
  }

  /** Two ticks in a row never post the same (ad id, guild) pair. */
  lemma TicksDisjoint(seen: set<SeenKey>, c1: seq<Candidate>, c2: seq<Candidate>)
    requires DecimalIds(c1) && DecimalIds(c2)
    ensures DecimalIds(Dedup(seen, c1).0) && DecimalIds(Dedup(Dedup(seen, c1).1, c2).0)
    ensures forall i, j :: 0 <= i < |Dedup(seen, c1).0| && 0 <= j < |Dedup(Dedup(seen, c1).1, c2).0| ==>
      Key(Dedup(seen, c1).0[i]) != Key(Dedup(Dedup(seen, c1).1, c2).0[j])
  {
    var r1 := Dedup(seen, c1);
    DedupSpec(seen, c1);
    DedupSpec(r1.1, c2);
  }

  /** A guild without a dump channel has nothing posted and nothing
      recorded: its ads stay unseen until a channel is set. */
  lemma UnboundUntouched(adMap: AdMap, channels: map<Guild, Channel>, seen: set<SeenKey>, g: Guild, id: int)
    requires adMap.Valid() && DecimalIds(Candidates(adMap, channels))
    requires g !in channels
    ensures (id, g) in Dedup(seen, Candidates(adMap, channels)).1 <==> (id, g) in seen
  {
    var cands := Candidates(adMap, channels);
    var r := Dedup(seen, cands);
    DedupSpec(seen, cands);
    if (id, g) in r.1 && (id, g) !in seen {
      var j :| 0 <= j < |r.0| && Key(r.0[j]) == (id, g);
      GuildCandsIn(adMap.keys, adMap.vals, channels, r.0[j]);
      assert false;
    }
  }
}
