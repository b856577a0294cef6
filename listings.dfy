/** Listing extraction of scraper.py: the parsed search-results page is a
    sequence of `search-item` containers in document order; each holds the
    pieces the extractor looks up. A piece that the HTML lacks is None. */
module Listings {
  import opened Wrappers
  import opened Text
  import opened Entities

  /** An element found by a selector; `directText` is its first direct text
      node (find(text=True, recursive=False)), None when it has none. */
  datatype Element = Element(directText: Option<string>)

  /** The `info-container` element with the three elements looked up in it. */
  datatype InfoBlock = InfoBlock(title: Option<Element>, price: Option<Element>, description: Option<Element>)

  /** One `search-item` container: its two attributes and its info block. */
  datatype Container = Container(listingId: Option<string>, vipUrl: Option<string>, info: Option<InfoBlock>)

  type Page = seq<Container>

  /** The dict an extracted listing becomes: id, url, title, price, desc. */
  datatype Ad = Ad(id: string, url: Url, title: string, price: string, desc: string)

  const SiteRoot: string := "https://www.kijiji.ca"

  const NotSpecified: string := "Not specified"

  /** The title: stripped, back-ticks turned into quotes, asterisks deleted;
      there is no fallback for an empty title. */
  function NormalizeTitle(raw: string): (t: string)
    ensures t == DeleteChar(ReplaceChar(Strip(raw), '`', '\''), '*')
    ensures '`' !in t && '*' !in t
    ensures '`' !in Strip(raw) && '*' !in Strip(raw) ==> t == Strip(raw)
  {
    var s := Strip(raw);
    var r := ReplaceChar(s, '`', '\'');
    assert '`' !in s ==> r == s;
    DeleteChar(r, '*')
  }

  /** The title keeps every other character of the stripped text, as often
      as it occurs there. */
  lemma TitleKeepsOtherChars(raw: string, c: char)
    requires c != '*' && c != '`' && c != '\''
    ensures multiset(NormalizeTitle(raw))[c] == multiset(Strip(raw))[c]
  {
    ReplaceKeepsOthers(Strip(raw), '`', '\'');
  }

  /** Replacing one character by another leaves the count of every third character. */
  lemma {:induction false} ReplaceKeepsOthers(s: string, a: char, b: char)
    ensures forall c :: c != a && c != b ==> multiset(ReplaceChar(s, a, b))[c] == multiset(s)[c]
  {
    if s != [] {
      ReplaceKeepsOthers(s[1..], a, b);
      assert s == [s[0]] + s[1..];
      assert ReplaceChar(s, a, b) == [if s[0] == a then b else s[0]] + ReplaceChar(s[1..], a, b);
    }
  }

  /** The price: stripped, and "Not specified" when nothing is left; no
      character is replaced. */
  function NormalizePrice(raw: string): (p: string)
    ensures p != []
    ensures Strip(raw) != [] ==> p == Strip(raw)
    ensures Strip(raw) == [] ==> p == NotSpecified
  {
    var s := Strip(raw);
    if s != [] then s else NotSpecified
  }

  /** The description: stripped; "Not specified" when nothing is left,
      otherwise back-ticks turned into quotes while asterisks stay. */
  function NormalizeDescription(raw: string): (d: string)
    ensures d != []
    ensures Strip(raw) == [] ==> d == NotSpecified
    ensures Strip(raw) != [] ==> '`' !in d && |d| == |Strip(raw)|
    ensures Strip(raw) != [] ==> forall i :: 0 <= i < |d| && Strip(raw)[i] != '`' ==> d[i] == Strip(raw)[i]
    ensures Strip(raw) != [] ==> forall i :: 0 <= i < |d| && Strip(raw)[i] == '`' ==> d[i] == '\''
  {
    var s := Strip(raw);
    if s != [] then ReplaceChar(s, '`', '\'') else NotSpecified
  }

  function DirectText(e: Option<Element>): Option<string> {
    if e.Some? then e.value.directText else None
  }

  /** Every piece the extractor dereferences is present. */
  predicate Complete(c: Container) {
    && c.listingId.Some? && c.vipUrl.Some? && c.info.Some?
    && DirectText(c.info.value.title).Some?
    && DirectText(c.info.value.price).Some?
    && DirectText(c.info.value.description).Some?
  }

  /** One container to one listing (scraper.py:33-55); None stands for the
      exception a missing piece raises. */
  function ParseContainer(c: Container): (a: Option<Ad>)
    ensures a.Some? <==> Complete(c)
    ensures a.Some? ==> a.value.id == c.listingId.value
    ensures a.Some? ==> a.value.url == SiteRoot + c.vipUrl.value
    ensures a.Some? ==> '`' !in a.value.title && '*' !in a.value.title
    ensures a.Some? ==> '`' !in a.value.desc || Strip(DirectText(c.info.value.description).value) == []
    ensures a.Some? ==> a.value.price != [] && a.value.desc != []
    ensures a.Some? ==> NormalizedFrom(c, a.value)
  {
    if !Complete(c) then None
    else
      var info := c.info.value;
      Some(Ad(
        id := c.listingId.value,
        url := SiteRoot + c.vipUrl.value,
        title := NormalizeTitle(DirectText(info.title).value),
        price := NormalizePrice(DirectText(info.price).value),
        desc := NormalizeDescription(DirectText(info.description).value)))
  }

  /** Every element through `f`, in order, or None as soon as one of them
      gives None. */
  function MapAll<A, B>(f: A -> Option<B>, xs: seq<A>): (r: Option<seq<B>>)
    ensures r.Some? ==> |r.value| == |xs|
  {
    if xs == [] then Some([])
    else
      match MapAll(f, xs[..|xs| - 1])
      case None => None
      case Some(prev) =>
        match f(xs[|xs| - 1])
        case None => None
        case Some(y) => Some(prev + [y])
  }

  lemma {:induction false} MapAllSpec<A, B>(f: A -> Option<B>, xs: seq<A>)
    ensures MapAll(f, xs).Some? <==> forall i :: 0 <= i < |xs| ==> f(xs[i]).Some?
    ensures MapAll(f, xs).Some? ==> forall i :: 0 <= i < |xs| ==> f(xs[i]) == Some(MapAll(f, xs).value[i])
  {
    if xs != [] {
      var n := |xs| - 1;
      MapAllSpec(f, xs[..n]);
      assert forall i :: 0 <= i < n ==> xs[..n][i] == xs[i];
    }
  }

  /** The first k + 1 elements: those of the first k, then element k. */
  lemma MapAllStep<A, B>(f: A -> Option<B>, xs: seq<A>, k: int)
    requires 0 <= k < |xs|
    ensures MapAll(f, xs[..k + 1]) ==
      if MapAll(f, xs[..k]).Some? && f(xs[k]).Some? then Some(MapAll(f, xs[..k]).value + [f(xs[k]).value]) else None
  {
    assert xs[..k + 1][..k] == xs[..k];
  }

  /** extract_ads on a whole page: one listing per container in document
      order, or None (the exception) as soon as a container is incomplete. */
  function ParsePage(page: Page): Option<seq<Ad>> {
    MapAll(ParseContainer, page)
  }

  /** A page yields listings exactly when every container is complete, and
      then the i-th listing is the i-th container's. */
  lemma ParsePageSpec(page: Page)
    ensures ParsePage(page).Some? <==> forall i :: 0 <= i < |page| ==> Complete(page[i])
    ensures ParsePage(page).Some? ==> |ParsePage(page).value| == |page|
    ensures ParsePage(page).Some? ==>
      forall i :: 0 <= i < |page| ==> ParseContainer(page[i]) == Some(ParsePage(page).value[i])
  {
    MapAllSpec(ParseContainer, page);
  }

  /** The listings of the first k + 1 containers of a page. */
  lemma ParsePageStep(page: Page, k: int)
    requires 0 <= k < |page|
    ensures ParsePage(page[..k + 1]) ==
      if ParsePage(page[..k]).Some? && ParseContainer(page[k]).Some?
      then Some(ParsePage(page[..k]).value + [ParseContainer(page[k]).value]) else None
  {
    MapAllStep(ParseContainer, page, k);
  }

  /** Once a prefix of the page fails, the whole page fails. */
  lemma ParsePageStops(page: Page, k: int)
    requires 0 <= k <= |page| && ParsePage(page[..k]).None?
    ensures ParsePage(page).None?
  {
    ParsePageSpec(page[..k]);
    ParsePageSpec(page);
    var j :| 0 <= j < k && !Complete(page[..k][j]);
    assert page[..k][j] == page[j];
  }

  /** The listing extracted from a container keeps its id and link and has
      sanitized text: no back-tick or asterisk in the title, no back-tick in
      a non-default description, and a price and description that are never
      empty. */
  predicate SanitizedFrom(c: Container, a: Ad) {
    && c.listingId == Some(a.id)
    && c.vipUrl.Some? && a.url == SiteRoot + c.vipUrl.value
    && '`' !in a.title && '*' !in a.title
    && ('`' !in a.desc || a.desc == NotSpecified)
    && a.price != [] && a.desc != []
  }

  /** The listing's three texts are the container's direct texts through
      their normalisers. */
  predicate NormalizedFrom(c: Container, a: Ad) {
    && c.info.Some?
    && DirectText(c.info.value.title).Some?
    && DirectText(c.info.value.price).Some?
    && DirectText(c.info.value.description).Some?
    && a.title == NormalizeTitle(DirectText(c.info.value.title).value)
    && a.price == NormalizePrice(DirectText(c.info.value.price).value)
    && a.desc == NormalizeDescription(DirectText(c.info.value.description).value)
  }

  /** Every listing a page yields is sanitized, comes from the container at
      the same position, and carries that container's normalised texts. */
  lemma PageSanitized(page: Page)
    ensures ParsePage(page).Some? ==> |ParsePage(page).value| == |page|
    ensures ParsePage(page).Some? ==>
      forall i :: 0 <= i < |page| ==> SanitizedFrom(page[i], ParsePage(page).value[i])
    ensures ParsePage(page).Some? ==>
      forall i :: 0 <= i < |page| ==> NormalizedFrom(page[i], ParsePage(page).value[i])
  {
    ParsePageSpec(page);
    if ParsePage(page).Some? {
      var ads := ParsePage(page).value;
      forall i | 0 <= i < |page|
        ensures SanitizedFrom(page[i], ads[i]) && NormalizedFrom(page[i], ads[i])
      {
        assert ParseContainer(page[i]) == Some(ads[i]);
      }
    }
  }
}
