/** The state changes and replies of the chat commands addurl, listurls,
    removeurl, notify and unnotify, as functions on the bot's dictionaries. */
module Commands {
  import opened Wrappers
  import opened Text
  import opened OrderedMaps
  import opened Entities
  import opened Listings
  import opened Scraping
  import opened Messages
  import opened Ticks

  /** scrape_urls: the URLs each guild tracks, guilds in insertion order. */
  type ScrapeUrls = OMap<Guild, seq<Url>>

  /** keyword_pings: each guild's keyword subscriptions. */
  type KeywordPings = map<Guild, Pings>

  const AlreadyTracked: string := "This URL is already being tracked."
  const UrlAdded: string := "Added URL for tracking!"
  const CannotParse: string := "Cannot parse Kijiji URL. Make sure that the URL you provided actually shows ads."
  const InvalidUrl: string := "Invalid Kijiji URL. Make sure you are copying the URL from your browser and that there are no extra query params."
  const ListHeader: string := "List of Kijiji URLs being tracked: \n"
  const NoUrls: string := "There are no Kijiji URLs currently being tracked for this guild."
  const UrlRemoved: string := "That URL won't be tracked anymore"
  const NothingToRemove: string := "Nothing to do. URL is not being tracked."
  const KeywordTooLong: string := "The maximum length of a keyword is currently 32 characters."
  const Subscribed: string := "Ok. You will be pinged if an ad with the provided keyword is found."
  const NotSubscribed: string := "You did not setup notifications for this keyword."
  const Unsubscribed: string := "Ok. You will not be pinged for this keyword anymore."

  const MaxKeywordLength: nat := 32

  function ChannelSet(ch: Channel): string {
    "Done! All ads will be sent to " + ch.mention + "."
  }

  function ChannelKept(ch: Channel): string {
    "All ads are already going into " + ch.mention + "."
  }

  /** The search page answered 200 and its text contains "showing". */
  predicate ProbeAccepts(status: int, body: string) {
    status == 200 && IsSubstring("showing", body)
  }

  predicate Tracked(s: ScrapeUrls, g: Guild, url: Url) {
    g in s.vals && url in s.vals[g]
  }

  predicate NoDuplicates<T(==)>(xs: seq<T>) {
    forall i, j :: 0 <= i < j < |xs| ==> xs[i] != xs[j]
  }

  /** Every guild tracks each of its URLs once. */
  predicate UrlsOnce(s: ScrapeUrls) {
    forall g :: g in s.vals ==> NoDuplicates(s.vals[g])
  }

  /** scrape_urls[guild].append(url), creating the guild's list if needed. */
  function TrackUrl(s: ScrapeUrls, g: Guild, url: Url): (r: ScrapeUrls)
    requires s.Valid()
    ensures r.Valid()
    ensures Tracked(r, g, url) && r.vals[g][|r.vals[g]| - 1] == url
    ensures r.vals[g] == s.GetOr(g, []) + [url]
    ensures r.keys == if g in s.vals then s.keys else s.keys + [g]
    ensures forall h :: h != g ==> (h in r.vals <==> h in s.vals) && (h in s.vals ==> r.vals[h] == s.vals[h])
  {
    s.Put(g, s.GetOr(g, []) + [url])
  }

  /** list.remove(x): the first occurrence of x is taken out. */
  function RemoveFirst<T(==)>(xs: seq<T>, x: T): (r: seq<T>)
    ensures x in xs ==> |r| == |xs| - 1
    ensures x !in xs ==> r == xs
  {
    if xs == [] then []
    else
      assert xs == [xs[0]] + xs[1..];
      if xs[0] == x then xs[1..] else [xs[0]] + RemoveFirst(xs[1..], x)
  }

  /** scrape_urls[guild].remove(url): the guild keeps its (maybe empty) list. */
  function UntrackUrl(s: ScrapeUrls, g: Guild, url: Url): (r: ScrapeUrls)
    requires s.Valid() && g in s.vals
    ensures r.Valid() && r.keys == s.keys
    ensures g in r.vals && r.vals[g] == RemoveFirst(s.vals[g], url)
    ensures forall h :: h in s.vals && h != g ==> r.vals[h] == s.vals[h]
  {
    s.Put(g, RemoveFirst(s.vals[g], url))
  }

  /** The platform compares users by id. */
  predicate HasUser(users: seq<User>, u: User) {
    exists i :: 0 <= i < |users| && users[i].id == u.id
  }

  /** list.remove(author): the first user with the author's id is taken out. */
  function RemoveUser(users: seq<User>, u: User): (r: seq<User>)
    ensures HasUser(users, u) ==> |r| == |users| - 1
    ensures !HasUser(users, u) ==> r == users
    ensures forall v :: v in r ==> v in users
    ensures forall v :: v in users && v.id != u.id ==> v in r
  {
    if users == [] then []
    else if users[0].id == u.id then users[1..]
    else
      var rest := RemoveUser(users[1..], u);
      assert HasUser(users, u) ==> HasUser(users[1..], u) by {
        if HasUser(users, u) {
          var i :| 0 <= i < |users| && users[i].id == u.id;
          assert users[1..][i - 1] == users[i];
        }
      }
      assert !HasUser(users, u) ==> !HasUser(users[1..], u) by {
        if i :| 0 <= i < |users[1..]| && users[1..][i].id == u.id {
          assert users[i + 1] == users[1..][i];
        }
      }
      [users[0]] + rest
  }

  /** All subscription tables keep their key order consistent. */
  ghost predicate PingsValid(p: KeywordPings) {
    forall g :: g in p ==> p[g].Valid()
  }

  function PingsOfGuild(p: KeywordPings, g: Guild): Pings {
    if g in p then p[g] else Empty()
  }

  /** keyword_pings[guild][keyword].append(author), creating the guild's
      table and the keyword's list if needed. */
  function Subscribe(p: KeywordPings, g: Guild, kw: Keyword, u: User): (r: KeywordPings)
    requires PingsValid(p)
    ensures PingsValid(r) && g in r && kw in r[g].vals
    ensures r[g].vals[kw] == PingsOfGuild(p, g).GetOr(kw, []) + [u]
    ensures r[g].keys == if kw in PingsOfGuild(p, g).vals then PingsOfGuild(p, g).keys else PingsOfGuild(p, g).keys + [kw]
    ensures forall h :: h != g ==> (h in r <==> h in p) && (h in p ==> r[h] == p[h])
    ensures forall k :: k in r[g].vals && k != kw ==> k in PingsOfGuild(p, g).vals && r[g].vals[k] == PingsOfGuild(p, g).vals[k]
  {
    var inner := PingsOfGuild(p, g);
    p[g := inner.Put(kw, inner.GetOr(kw, []) + [u])]
  }

  /** keyword_pings[guild][keyword].remove(author). */
  function Unsubscribe(p: KeywordPings, g: Guild, kw: Keyword, u: User): (r: KeywordPings)
    requires PingsValid(p) && g in p && kw in p[g].vals
    ensures PingsValid(r) && g in r && r[g].keys == p[g].keys
    ensures r[g].vals[kw] == RemoveUser(p[g].vals[kw], u)
    ensures forall h :: h != g ==> (h in r <==> h in p) && (h in p ==> r[h] == p[h])
    ensures forall k :: k in p[g].vals && k != kw ==> r[g].vals[k] == p[g].vals[k]
  {
    p[g := p[g].Put(kw, RemoveUser(p[g].vals[kw], u))]
  }

  /** The line listurls prints for one URL. */
  function Bracketed(url: Url): string {
    "<" + url + ">"
  }

  function UrlLines(urls: seq<Url>): string {
    if urls == [] then [] else Bracketed(urls[0]) + "\n" + UrlLines(urls[1..])
  }

  /** The reply of listurls for a guild that tracks `urls`. */
  function UrlListing(urls: seq<Url>): string {
    ListHeader + UrlLines(urls)
  }

  function BracketedAll(urls: seq<Url>): (r: seq<string>)
    ensures |r| == |urls| && forall i :: 0 <= i < |urls| ==> r[i] == Bracketed(urls[i])
  {
    seq(|urls|, i requires 0 <= i < |urls| => Bracketed(urls[i]))
  }

  // ---------------------------------------------------------------------
  // Properties

  /** Adding one more line at the end of the listing. */
  lemma {:induction false} UrlLinesAppend(urls: seq<Url>, u: Url)
    ensures UrlLines(urls + [u]) == UrlLines(urls) + Bracketed(u) + "\n"
  {
    if urls == [] {
      assert [u][1..] == [];
    } else {
      assert (urls + [u])[1..] == urls[1..] + [u];
      UrlLinesAppend(urls[1..], u);
    }
  }

  /** The listing gives back the tracked URLs: split on newlines, the part
      after the header is each URL in angle brackets, in tracking order,
      and then the empty text after the last newline. */
  lemma {:induction false} ListingLines(urls: seq<Url>)
    requires forall i :: 0 <= i < |urls| ==> '\n' !in urls[i]
    ensures Split(UrlLines(urls), '\n') == BracketedAll(urls) + [[]]
  {
    if urls != [] {
      ListingLines(urls[1..]);
      var b := Bracketed(urls[0]);
      assert '\n' !in b;
      var t := UrlLines(urls[1..]);
      assert UrlLines(urls) == b + ("\n" + t);
      SplitSeparatorFree(b, "\n" + t, '\n');
      assert ("\n" + t)[1..] == t;
      assert Split("\n" + t, '\n') == [[]] + Split(t, '\n');
      assert b + Split("\n" + t, '\n')[0] == b;
      assert BracketedAll(urls) == [b] + BracketedAll(urls[1..]);
      calc {
        Split(UrlLines(urls), '\n');
        [b] + Split(t, '\n');
        [b] + (BracketedAll(urls[1..]) + [[]]);
        BracketedAll(urls) + [[]];
      }
    } else {
      assert Split([], '\n') == [[]];
    }
  }

  /** The position of the first occurrence of x. */
  function IndexOf<T(==)>(xs: seq<T>, x: T): (i: nat)
    requires x in xs
    ensures i < |xs| && xs[i] == x && forall j :: 0 <= j < i ==> xs[j] != x
  {
    if xs[0] == x then 0
    else
      assert x in xs[1..] by {
        var k :| 0 <= k < |xs| && xs[k] == x;
        assert xs[1..][k - 1] == x;
      }
      1 + IndexOf(xs[1..], x)
  }

  /** list.remove takes out the first occurrence and keeps the order of the
      rest. */
  lemma {:induction false} RemoveFirstAt<T>(xs: seq<T>, x: T)
    requires x in xs
    ensures RemoveFirst(xs, x) == xs[..IndexOf(xs, x)] + xs[IndexOf(xs, x) + 1..]
  {
    if xs[0] != x {
      assert x in xs[1..] by {
        var k :| 0 <= k < |xs| && xs[k] == x;
        assert xs[1..][k - 1] == x;
      }
      RemoveFirstAt(xs[1..], x);
      var i := IndexOf(xs[1..], x);
      assert IndexOf(xs, x) == i + 1;
      assert xs[..i + 1] == [xs[0]] + xs[1..][..i];
      assert xs[i + 2..] == xs[1..][i + 1..];
    }
  }

  /** list.remove takes out exactly one copy of x and nothing else. */
  lemma {:induction false} RemoveFirstMultiset<T>(xs: seq<T>, x: T)
    requires x in xs
    ensures multiset(RemoveFirst(xs, x)) == multiset(xs) - multiset{x}
  {
    assert xs == [xs[0]] + xs[1..];
    assert multiset(xs) == multiset{xs[0]} + multiset(xs[1..]);
    if xs[0] != x {
      assert x in xs[1..] by {
        var k :| 0 <= k < |xs| && xs[k] == x;
        assert xs[1..][k - 1] == x;
      }
      RemoveFirstMultiset(xs[1..], x);
      assert RemoveFirst(xs, x) == [xs[0]] + RemoveFirst(xs[1..], x);
      assert multiset(RemoveFirst(xs, x)) == multiset{xs[0]} + multiset(RemoveFirst(xs[1..], x));
    }
  }

  /** The position of the first user with u's id. */
  function UserIndex(users: seq<User>, u: User): (i: nat)
    requires HasUser(users, u)
    ensures i < |users| && users[i].id == u.id
    ensures forall j :: 0 <= j < i ==> users[j].id != u.id
  {
    if users[0].id == u.id then 0
    else
      assert HasUser(users[1..], u) by {
        var k :| 0 <= k < |users| && users[k].id == u.id;
        assert users[1..][k - 1] == users[k];
      }
      1 + UserIndex(users[1..], u)
  }

  /** Removing the author takes out the first user with their id and keeps
      the order of the rest. */
  lemma {:induction false} RemoveUserAt(users: seq<User>, u: User)
    requires HasUser(users, u)
    ensures RemoveUser(users, u) == users[..UserIndex(users, u)] + users[UserIndex(users, u) + 1..]
  {
    if users[0].id != u.id {
      assert HasUser(users[1..], u) by {
        var k :| 0 <= k < |users| && users[k].id == u.id;
        assert users[1..][k - 1] == users[k];
      }
      var tail := users[1..];
      var i := UserIndex(tail, u);
      assert UserIndex(users, u) == i + 1;
      calc {
        RemoveUser(users, u);
        [users[0]] + RemoveUser(tail, u);
        { RemoveUserAt(tail, u); }
        [users[0]] + (tail[..i] + tail[i + 1..]);
        { ConsSlices(users, i); }
        users[..i + 1] + users[i + 2..];
      }
    }
  }

  /** Splitting the tail of a list around position i splits the list around
      position i + 1. */
  lemma ConsSlices<T>(xs: seq<T>, i: nat)
    requires i + 1 < |xs|
    ensures [xs[0]] + (xs[1..][..i] + xs[1..][i + 1..]) == xs[..i + 1] + xs[i + 2..]
  {
    assert xs[..i + 1] == [xs[0]] + xs[1..][..i];
    assert xs[i + 2..] == xs[1..][i + 1..];
  }

  /** Removing the author takes out exactly one copy of that first matching
      user and nothing else. */
  lemma {:induction false} RemoveUserMultiset(users: seq<User>, u: User)
    requires HasUser(users, u)
    ensures multiset(RemoveUser(users, u)) == multiset(users) - multiset{users[UserIndex(users, u)]}
  {
    assert users == [users[0]] + users[1..];
    assert multiset(users) == multiset{users[0]} + multiset(users[1..]);
    if users[0].id != u.id {
      assert HasUser(users[1..], u) by {
        var k :| 0 <= k < |users| && users[k].id == u.id;
        assert users[1..][k - 1] == users[k];
      }
      RemoveUserMultiset(users[1..], u);
      assert users[UserIndex(users, u)] == users[1..][UserIndex(users[1..], u)];
      assert RemoveUser(users, u) == [users[0]] + RemoveUser(users[1..], u);
      assert multiset(RemoveUser(users, u)) == multiset{users[0]} + multiset(RemoveUser(users[1..], u));
    }
  }

  /** Removing from a list without duplicates leaves no copy behind. */
  lemma RemoveFirstGone<T>(xs: seq<T>, x: T)
    requires NoDuplicates(xs)
    ensures x !in RemoveFirst(xs, x)
    ensures NoDuplicates(RemoveFirst(xs, x))
  {
    if x in xs {
      RemoveFirstAt(xs, x);
      var i := IndexOf(xs, x);
      var r := RemoveFirst(xs, x);
      assert |r| == |xs| - 1;
      forall k | 0 <= k < |r| ensures r[k] == xs[if k < i then k else k + 1] {
      }
      forall k | 0 <= k < |r| ensures r[k] != x {
      }
      forall a, b | 0 <= a < b < |r| ensures r[a] != r[b] {
      }
    }
  }

  /** addurl keeps every guild's URLs free of duplicates, since it refuses a
      URL the guild already tracks; removeurl keeps them so. */
  lemma TrackKeepsUrlsOnce(s: ScrapeUrls, g: Guild, url: Url)
    requires s.Valid() && UrlsOnce(s) && !Tracked(s, g, url)
    ensures UrlsOnce(TrackUrl(s, g, url))
  {
    var r := TrackUrl(s, g, url);
    var old_ := s.GetOr(g, []);
    assert r.vals[g] == old_ + [url];
    assert NoDuplicates(old_);
  }

  lemma UntrackKeepsUrlsOnce(s: ScrapeUrls, g: Guild, url: Url)
    requires s.Valid() && UrlsOnce(s) && g in s.vals
    ensures UrlsOnce(UntrackUrl(s, g, url))
    ensures !Tracked(UntrackUrl(s, g, url), g, url)
  {
    RemoveFirstGone(s.vals[g], url);
  }

  /** removeurl stops tracking exactly the URL it names, in its guild. */
  lemma UntrackOnlyUrl(s: ScrapeUrls, g: Guild, url: Url)
    requires s.Valid() && UrlsOnce(s) && g in s.vals
    ensures forall h: Guild, v: Url :: Tracked(UntrackUrl(s, g, url), h, v) <==> Tracked(s, h, v) && (h, v) != (g, url)
  {
    var r := UntrackUrl(s, g, url);
    RemoveFirstGone(s.vals[g], url);
    if url in s.vals[g] {
      RemoveFirstMultiset(s.vals[g], url);
    }
    forall h: Guild, v: Url ensures Tracked(r, h, v) <==> Tracked(s, h, v) && (h, v) != (g, url) {
      if h == g && v != url {
        assert multiset(r.vals[g])[v] == multiset(s.vals[g])[v];
      }
    }
  }

  /** A URL added by addurl is fetched for its guild on the next tick; one
      removed by removeurl is not fetched any more. */
  lemma TrackedIsFetched(s: ScrapeUrls, g: Guild, url: Url)
    requires s.Valid() && UrlsOnce(s)
    ensures (g, url) in Tasks(TrackUrl(s, g, url))
    ensures g in s.vals ==> (g, url) !in Tasks(UntrackUrl(s, g, url))
  {
    var t := TrackUrl(s, g, url);
    TasksMembers(t.keys, t.vals, g, url);
    if g in s.vals {
      var r := UntrackUrl(s, g, url);
      UntrackKeepsUrlsOnce(s, g, url);
      TasksMembers(r.keys, r.vals, g, url);
    }
  }

  /** removeurl after addurl gives the guild back its list. */
  lemma UntrackUndoesTrack(s: ScrapeUrls, g: Guild, url: Url)
    requires s.Valid() && !Tracked(s, g, url)
    ensures UntrackUrl(TrackUrl(s, g, url), g, url).vals[g] == s.GetOr(g, [])
  {
    var l := s.GetOr(g, []);
    RemoveFirstAt(l + [url], url);
    assert IndexOf(l + [url], url) == |l|;
    assert (l + [url])[..|l|] == l;
  }

  /** A user who ran notify for a keyword is mentioned under every ad whose
      title or description contains it. */
  lemma SubscribedIsMentioned(p: KeywordPings, g: Guild, kw: Keyword, u: User, ad: Ad)
    requires PingsValid(p) && KeywordMatches(kw, ad)
    ensures u in Mentions(PingsOf(Subscribe(p, g, kw, u), g), ad)
  {
    var r := Subscribe(p, g, kw, u);
    var i :| 0 <= i < |r[g].keys| && r[g].keys[i] == kw;
    MentionedIff(r[g].keys, r[g].vals, ad, u);
  }

  /** unnotify takes out one subscription only: a user who ran notify twice
      for a keyword and unnotify once is still in the keyword's list. */
  lemma NotifyTwiceUnnotifyOnce(p: KeywordPings, g: Guild, kw: Keyword, u: User)
    requires PingsValid(p)
    ensures HasUser(Unsubscribe(Subscribe(Subscribe(p, g, kw, u), g, kw, u), g, kw, u)[g].vals[kw], u)
  {
    var p2 := Subscribe(Subscribe(p, g, kw, u), g, kw, u);
    var l := p2[g].vals[kw];
    var n := |l|;
    assert l[n - 1] == u && l[n - 2] == u;
    var r := RemoveUser(l, u);
    RemoveUserKeepsLater(l, u, n - 1);
  }

  /** After list.remove(author), any later entry with the author's id is
      still there. */
  lemma {:induction false} RemoveUserKeepsLater(users: seq<User>, u: User, k: int)
    requires 0 <= k < |users| && users[k].id == u.id
    requires exists i :: 0 <= i < k && users[i].id == u.id
    ensures HasUser(RemoveUser(users, u), u)
  {
    var r := RemoveUser(users, u);
    if users[0].id == u.id {
      assert r == users[1..] && r[k - 1] == users[k];
    } else {
      var i :| 0 <= i < k && users[i].id == u.id;
      assert users[1..][i - 1] == users[i];
      RemoveUserKeepsLater(users[1..], u, k - 1);
      var j :| 0 <= j < |RemoveUser(users[1..], u)| && RemoveUser(users[1..], u)[j].id == u.id;
      assert r[j + 1] == RemoveUser(users[1..], u)[j];
    }
  }
}
