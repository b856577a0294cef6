/** The message the bot posts for a new ad (format_ad): a dedented header
    followed by the mentions of every user subscribed to a keyword that
    occurs in the ad's title or description. */
module Messages {
  import opened Wrappers
  import opened Text
  import opened OrderedMaps
  import opened Entities
  import opened Listings
  import opened TextWrap

  /** A guild's keyword subscriptions, in the order they were first made. */
  type Pings = OMap<Keyword, seq<User>>

  const Rule: string := "==========================================="

  /** The indent of the template's lines inside the source. */
  const Margin8: string := "        "

  /** The f-string before dedent, line by line: it opens with a newline,
      every line of the template is indented by eight spaces, the url is
      followed by an explicit newline and the template's own line break,
      and the closing line holds the four spaces before the closing quotes. */
  function TemplateLines(ad: Ad): seq<string> {
    ["",
     Margin8 + Rule,
     Margin8 + (":newspaper: **Kijiji Ad - " + ad.title + "!**"),
     Margin8 + ("Title: ``" + ad.title + "``"),
     Margin8 + ("Price: ``" + ad.price + "``"),
     Margin8 + ("Description:```" + ad.desc + "```"),
     Margin8 + ad.url,
     "",
     "    "]
  }

  function RawMessage(ad: Ad): string {
    Join(TemplateLines(ad), '\n')
  }

  function Header(ad: Ad): string {
    Dedent(RawMessage(ad))
  }

  /** `keyword in title or keyword in desc`. */
  predicate KeywordMatches(k: Keyword, ad: Ad) {
    IsSubstring(k, ad.title) || IsSubstring(k, ad.desc)
  }

  /** The users to mention, keyword by keyword in key order, each keyword's
      users in subscription order (a user appears once per matching
      keyword and once per subscription). */
  function MentionedUsers(keys: seq<Keyword>, vals: map<Keyword, seq<User>>, ad: Ad): seq<User> {
    if keys == [] then []
    else
      var k := keys[|keys| - 1];
      MentionedUsers(keys[..|keys| - 1], vals, ad) +
      (if k in vals && KeywordMatches(k, ad) then vals[k] else [])
  }

  /** One more keyword adds its users when it matches. */
  lemma MentionedUsersStep(keys: seq<Keyword>, vals: map<Keyword, seq<User>>, ad: Ad, i: int)
    requires 0 <= i < |keys|
    ensures MentionedUsers(keys[..i + 1], vals, ad) ==
      MentionedUsers(keys[..i], vals, ad) + (if keys[i] in vals && KeywordMatches(keys[i], ad) then vals[keys[i]] else [])
  {
    assert keys[..i + 1][..i] == keys[..i];
  }

  /** `user.mention` of each user, with nothing between them. */
  function MentionRun(users: seq<User>): string {
    if users == [] then [] else MentionRun(users[..|users| - 1]) + users[|users| - 1].mention
  }

  function Mentions(pings: Option<Pings>, ad: Ad): seq<User> {
    if pings.Some? then MentionedUsers(pings.value.keys, pings.value.vals, ad) else []
  }

  /** format_ad(ad, guild), given the guild's subscriptions if it has any. */
  function Message(ad: Ad, pings: Option<Pings>): string {
    Header(ad) + MentionRun(Mentions(pings, ad))
  }

  /** The header as the reader sees it: the template's lines without
      their indent, the closing line emptied, so that the ad sits between a
      leading newline and a trailing blank line. */
  function HeaderLines(ad: Ad): seq<string> {
    ["",
     Rule,
     ":newspaper: **Kijiji Ad - " + ad.title + "!**",
     "Title: ``" + ad.title + "``",
     "Price: ``" + ad.price + "``",
     "Description:```" + ad.desc + "```",
     ad.url,
     "",
     ""]
  }

  /** The field text of an ad that keeps the template's shape. */
  predicate PlainFields(ad: Ad) {
    && '\n' !in ad.title && '\n' !in ad.price && '\n' !in ad.desc && '\n' !in ad.url
    && ad.url != [] && !IsIndentChar(ad.url[0])
  }

  /** With newline-free fields and a url that does not open with a space or
      tab, dedent cuts the eight spaces from every line of the template and
      empties the closing line. */
  lemma HeaderTemplate(ad: Ad)
    requires PlainFields(ad)
    ensures Header(ad) == Join(HeaderLines(ad), '\n')
  {
    TemplateIndented(ad);
    DedentLines(TemplateLines(ad), Margin8, HeaderLines(ad), 1);
  }

  lemma TemplateIndented(ad: Ad)
    requires PlainFields(ad)
    ensures IndentedLines(TemplateLines(ad), Margin8, HeaderLines(ad))
  {
    var lines := TemplateLines(ad);
    var out := HeaderLines(ad);
    assert forall i :: 0 <= i < |Margin8| ==> IsIndentChar(Margin8[i]);
    forall i | 0 <= i < |lines| ensures IndentedLine(lines[i], Margin8, out[i]) {
      TemplateLineIndented(ad, i);
    }
  }

  /** Line `i` of the template is the header's line `i` behind the margin. */
  lemma TemplateLineIndented(ad: Ad, i: int)
    requires PlainFields(ad) && 0 <= i < 9
    ensures IndentedLine(TemplateLines(ad)[i], Margin8, HeaderLines(ad)[i])
  {
    if i == 0 || i == 7 || i == 8 {
      TemplateBlankLine(ad, i);
    } else if i <= 3 {
      TemplateTitleLine(ad, i);
    } else {
      TemplateDetailLine(ad, i);
    }
  }

  /** The opening line, the line after the url and the closing line. */
  lemma TemplateBlankLine(ad: Ad, i: int)
    requires i == 0 || i == 7 || i == 8
    ensures IndentedLine(TemplateLines(ad)[i], Margin8, HeaderLines(ad)[i])
  {
    var lines := TemplateLines(ad);
    var out := HeaderLines(ad);
    if i == 8 {
      assert lines[8] == "    " && out[8] == [];
      ClosingBlank();
    } else {
      assert lines[i] == [] && out[i] == [];
    }
  }

  /** The rule, the banner and the title. */
  lemma TemplateTitleLine(ad: Ad, i: int)
    requires PlainFields(ad) && 1 <= i <= 3
    ensures IndentedLine(TemplateLines(ad)[i], Margin8, HeaderLines(ad)[i])
  {
    var lines := TemplateLines(ad);
    var out := HeaderLines(ad);
    assert lines[i] == Margin8 + out[i];
    if i == 1 {
      RuleOneLine();
      FramedLine(Rule, "", "");
      assert Rule + "" + "" == Rule;
    } else if i == 2 {
      FramedLine(":newspaper: **Kijiji Ad - ", ad.title, "!**");
    } else {
      FramedLine("Title: ``", ad.title, "``");
    }
  }

  /** The price, the description and the url. */
  lemma TemplateDetailLine(ad: Ad, i: int)
    requires PlainFields(ad) && 4 <= i <= 6
    ensures IndentedLine(TemplateLines(ad)[i], Margin8, HeaderLines(ad)[i])
  {
    var lines := TemplateLines(ad);
    var out := HeaderLines(ad);
    assert lines[i] == Margin8 + out[i];
    if i == 4 {
      FramedLine("Price: ``", ad.price, "``");
    } else if i == 5 {
      FramedLine("Description:```", ad.desc, "```");
    } else {
      BodyLine(ad.url);
    }
  }

  /** The rule is one line of equals signs. */
  lemma RuleOneLine()
    ensures '\n' !in Rule && Rule != [] && !IsIndentChar(Rule[0])
  {
    forall k | 0 <= k < |Rule| ensures Rule[k] != '\n' {
      assert Rule[k] == '=';
    }
  }

  /** A template line whose text is a field between fixed words. */
  lemma FramedLine(prefix: string, field: string, suffix: string)
    requires '\n' !in prefix && '\n' !in field && '\n' !in suffix
    requires prefix != [] && !IsIndentChar(prefix[0])
    ensures IndentedLine(Margin8 + (prefix + field + suffix), Margin8, prefix + field + suffix)
  {
    BodyLine(prefix + field + suffix);
  }

  /** The closing line holds only the indent of the closing quotes. */
  lemma ClosingBlank()
    ensures IsBlankLine("    ")
  {
    var line := "    ";
    forall i | 0 <= i < |line| ensures IsIndentChar(line[i]) {
      assert line[i] == ' ';
    }
  }

  /** A template line: eight spaces, then text that starts with neither a
      space nor a tab. */
  lemma BodyLine(body: string)
    requires '\n' !in body && body != [] && !IsIndentChar(body[0])
    ensures IndentedLine(Margin8 + body, Margin8, body)
  {
  }

  /** A user is mentioned exactly when one of the keywords it subscribed to
      occurs in the title or the description. */
  lemma {:induction false} MentionedIff(keys: seq<Keyword>, vals: map<Keyword, seq<User>>, ad: Ad, u: User)
    ensures u in MentionedUsers(keys, vals, ad) <==>
      exists i :: 0 <= i < |keys| && keys[i] in vals && KeywordMatches(keys[i], ad) && u in vals[keys[i]]
  {
    if keys != [] {
      var n := |keys| - 1;
      MentionedIff(keys[..n], vals, ad, u);
      assert forall i :: 0 <= i < n ==> keys[..n][i] == keys[i];
    }
  }

  /** The mention text of a list of users grows by concatenation. */
  lemma {:induction false} MentionRunAppend(a: seq<User>, b: seq<User>)
    ensures MentionRun(a + b) == MentionRun(a) + MentionRun(b)
  {
    if b != [] {
      var n := |b| - 1;
      assert (a + b)[..|a + b| - 1] == a + b[..n];
      MentionRunAppend(a, b[..n]);
    } else {
      assert a + b == a;
    }
  }

  /** A guild without subscriptions gets the bare header; a message always
      starts with the header, whatever the subscriptions. */
  lemma MessageShape(ad: Ad, pings: Option<Pings>)
    ensures Header(ad) <= Message(ad, pings)
    ensures pings.None? ==> Message(ad, pings) == Header(ad)
  {
  }
}
