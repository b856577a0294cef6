/** The tracked-URL check of `addurl` (bot.py:144-146), written as a
    hand-made recogniser for the anchored pattern
      https://www.kijiji.ca/b-  SEG  (/SEG)?  (/SEG)?  /SEG
    where SEG is a non-empty run of [\w+-]. The pattern is applied with
    re.match and ends in `$`, which also matches just before a final newline.
    Python's Unicode \w is left abstract: `isWord` says which characters it
    covers, and Python's \w never covers '/' or a newline. */
module UrlPattern {
  import opened Text

  const Prefix: string := "https://www.kijiji.ca/b-"

  ghost predicate WordClass(isWord: char -> bool) {
    !isWord('/') && !isWord('\n')
  }

  /** A character of the class [\w+-]. */
  predicate SegmentChar(isWord: char -> bool, c: char) {
    isWord(c) || c == '+' || c == '-'
  }

  predicate SegmentChars(isWord: char -> bool, s: string) {
    forall i :: 0 <= i < |s| ==> SegmentChar(isWord, s[i])
  }

  /** A non-empty run of [\w+-]. */
  predicate GoodSegment(isWord: char -> bool, seg: string) {
    seg != [] && SegmentChars(isWord, seg)
  }

  predicate AllGood(isWord: char -> bool, segs: seq<string>) {
    forall i :: 0 <= i < |segs| ==> GoodSegment(isWord, segs[i])
  }

  /** The recogniser for what follows the prefix, one character at a time.
      `slashes` counts the separators read so far and `inSegment` says
      whether the current segment has at least one character. */
  predicate Scan(isWord: char -> bool, rest: string, slashes: nat, inSegment: bool)
    decreases |rest|
  {
    if rest == [] then inSegment && 1 <= slashes <= 3
    else if SegmentChar(isWord, rest[0]) then Scan(isWord, rest[1..], slashes, true)
    else if rest[0] == '/' then inSegment && slashes < 3 && Scan(isWord, rest[1..], slashes + 1, false)
    else false
  }

  /** The pattern matched up to the very end of `s`. */
  predicate FullMatch(isWord: char -> bool, s: string) {
    |Prefix| <= |s| && s[..|Prefix|] == Prefix && Scan(isWord, s[|Prefix|..], 0, false)
  }

  /** re.match of the tracked-URL pattern. */
  predicate IsTrackableUrl(isWord: char -> bool, s: string) {
    FullMatch(isWord, s) || (|s| > 0 && s[|s| - 1] == '\n' && FullMatch(isWord, s[..|s| - 1]))
  }

  /** What the recogniser accepts from any state, in terms of the '/'-separated
      parts of the rest: the current segment continues in the first part. */
  lemma {:induction false} ScanSpec(isWord: char -> bool, rest: string, slashes: nat, inSegment: bool)
    requires WordClass(isWord)
    ensures var segs := Split(rest, '/');
      Scan(isWord, rest, slashes, inSegment) <==>
        && SegmentChars(isWord, segs[0])
        && (inSegment || segs[0] != [])
        && AllGood(isWord, segs[1..])
        && 1 <= slashes + |segs| - 1 <= 3
    decreases |rest|
  {
    if rest != [] {
      var c := rest[0];
      var t := Split(rest[1..], '/');
      var segs := Split(rest, '/');
      if SegmentChar(isWord, c) {
        ScanSpec(isWord, rest[1..], slashes, true);
        assert segs == [[c] + t[0]] + t[1..];
        assert segs[1..] == t[1..];
        assert SegmentChars(isWord, segs[0]) <==> SegmentChars(isWord, t[0]) by {
          assert segs[0] == [c] + t[0];
          if SegmentChars(isWord, segs[0]) {
            forall j | 0 <= j < |t[0]| ensures SegmentChar(isWord, t[0][j]) {
              assert t[0][j] == segs[0][j + 1];
            }
          }
          if SegmentChars(isWord, t[0]) {
            forall j | 0 <= j < |segs[0]| ensures SegmentChar(isWord, segs[0][j]) {
              if j > 0 { assert segs[0][j] == t[0][j - 1]; }
            }
          }
        }
      } else if c == '/' {
        ScanSpec(isWord, rest[1..], slashes + 1, false);
        assert segs == [[]] + t;
        assert segs[1..] == t;
        assert AllGood(isWord, t) <==> GoodSegment(isWord, t[0]) && AllGood(isWord, t[1..]);
      } else {
        assert segs[0][0] == c;
      }
    }
  }

  /** The part after the prefix is accepted exactly when it splits on '/'
      into two to four segments of [\w+-], none empty: the leading run and
      one to three further '/'-prefixed runs. */
  lemma AcceptedShape(isWord: char -> bool, rest: string)
    requires WordClass(isWord)
    ensures var segs := Split(rest, '/');
      Scan(isWord, rest, 0, false) <==> 2 <= |segs| <= 4 && AllGood(isWord, segs)
  {
    ScanSpec(isWord, rest, 0, false);
    var segs := Split(rest, '/');
    assert AllGood(isWord, segs) <==> GoodSegment(isWord, segs[0]) && AllGood(isWord, segs[1..]);
  }

  /** Every URL of the form the pattern describes is accepted. */
  lemma AcceptsSegments(isWord: char -> bool, segs: seq<string>)
    requires WordClass(isWord)
    requires 2 <= |segs| <= 4 && AllGood(isWord, segs)
    ensures IsTrackableUrl(isWord, Prefix + Join(segs, '/'))
  {
    var rest := Join(segs, '/');
    var s := Prefix + rest;
    forall i | 0 <= i < |segs| ensures '/' !in segs[i] {
      assert GoodSegment(isWord, segs[i]);
    }
    SplitJoin(segs, '/');
    AcceptedShape(isWord, rest);
    assert s[..|Prefix|] == Prefix && s[|Prefix|..] == rest;
  }

  /** Every accepted URL without a trailing newline has that form. */
  lemma AcceptedIsSegments(isWord: char -> bool, s: string)
    requires WordClass(isWord)
    requires FullMatch(isWord, s)
    ensures var segs := Split(s[|Prefix|..], '/');
      && s == Prefix + Join(segs, '/')
      && 2 <= |segs| <= 4 && AllGood(isWord, segs)
  {
    var rest := s[|Prefix|..];
    AcceptedShape(isWord, rest);
    JoinSplit(rest, '/');
    assert s == s[..|Prefix|] + rest;
  }
}
