/** The five experience patterns of the job parser, written as scanners over
    characters instead of regular expressions:

      1. /(\d+)\+?\s*years?/i          rewritten to '$1+ years'
      2. /(\d+)\s*-\s*(\d+)\s*years?/i  rewritten to '$1-$2 years'
      3. /entry\s*level/i               rewritten to 'Entry Level'
      4. /senior/i                      rewritten to '5+ years'
      5. /lead/i                        rewritten to '3+ years'

    `requirements.match(p)` finds the leftmost position where `p` matches, and
    the parser then rewrites that match with `match[0].replace(p, value)`. For
    these patterns the greedy path of the regex engine is the only one that
    can succeed (after a maximal digit run comes a non-digit, after maximal
    whitespace a non-whitespace character), so the match at a position is
    determined by scanning forward, and replacing inside `match[0]` finds the
    same match again: the rewritten text is `value` with its groups filled in.
    Under the `i` flag without the `u` flag, case folding never equates a
    non-ASCII character with an ASCII one. Every letter in these patterns is
    ASCII, so a character matches one of them exactly when its ASCII lower
    case, which is what `LowerChar` gives, is that letter. */
module ExperienceRules {
  import opened Wrappers
  import opened JsText

  datatype Pattern = DigitsYears | RangeYears | EntryLevel | Senior | Lead

  /** End of the run of digits that starts at `i` (`i` itself when there is none). */
  function DigitRunEnd(s: string, i: nat): (j: nat)
    requires i <= |s|
    ensures i <= j <= |s|
    ensures AllDigits(s[i..j])
    ensures j == |s| || !IsDigit(s[j])
    decreases |s| - i
  {
    if i < |s| && IsDigit(s[i]) then DigitRunEnd(s, i + 1) else i
  }

  /** Where rule 1 looks for whitespace after the digit run ending at `j`:
      just past an optional '+'. */
  function AfterPlus(s: string, j: nat): (k: nat)
    requires j <= |s|
    ensures j <= k <= |s|
  {
    if j < |s| && s[j] == '+' then j + 1 else j
  }

  /** The lower-case ASCII literal `word` occurs at `i`, ignoring case. */
  predicate WordAt(s: string, i: nat, word: string) {
    i + |word| <= |s| && ToLower(s[i..i + |word|]) == word
  }

  /** The rewritten text when `p` matches at position `i`, `None` when it does not. */
  function MatchAt(p: Pattern, s: string, i: nat): Option<string>
    requires i <= |s|
  {
    match p
    case DigitsYears =>
      if i < |s| && IsDigit(s[i]) then
        var j := DigitRunEnd(s, i);
        if WordAt(s, SpaceRunEnd(s, AfterPlus(s, j)), "year") then Some(s[i..j] + "+ years") else None
      else None
    case RangeYears =>
      if i < |s| && IsDigit(s[i]) then
        var j := DigitRunEnd(s, i);
        var k := SpaceRunEnd(s, j);
        if k < |s| && s[k] == '-' then
          var l := SpaceRunEnd(s, k + 1);
          if l < |s| && IsDigit(s[l]) then
            var m := DigitRunEnd(s, l);
            if WordAt(s, SpaceRunEnd(s, m), "year") then Some(s[i..j] + "-" + s[l..m] + " years") else None
          else None
        else None
      else None
    case EntryLevel =>
      if WordAt(s, i, "entry") && WordAt(s, SpaceRunEnd(s, i + 5), "level") then Some("Entry Level") else None
    case Senior =>
      if WordAt(s, i, "senior") then Some("5+ years") else None
    case Lead =>
      if WordAt(s, i, "lead") then Some("3+ years") else None
  }

  /** The first present entry of `xs`: a left-to-right scan that stops at
      the first position where something was found. */
  function FirstSome<T>(xs: seq<Option<T>>): Option<T> {
    if xs == [] then None else if xs[0].Some? then xs[0] else FirstSome(xs[1..])
  }

  /** The scan finds something exactly when some entry is present, and then
      it is the entry at the first such position. */
  lemma {:induction false} FirstSomeIsFirst<T>(xs: seq<Option<T>>)
    ensures FirstSome(xs).Some? <==> exists k :: 0 <= k < |xs| && xs[k].Some?
    ensures FirstSome(xs).Some? ==>
      exists k :: 0 <= k < |xs| && xs[k] == FirstSome(xs) && forall j :: 0 <= j < k ==> xs[j].None?
  {
    if xs != [] && xs[0].None? {
      FirstSomeIsFirst(xs[1..]);
      if FirstSome(xs).Some? {
        var k :| 0 <= k < |xs[1..]| && xs[1..][k] == FirstSome(xs[1..])
          && forall j :: 0 <= j < k ==> xs[1..][j].None?;
        assert xs[k + 1] == FirstSome(xs);
        assert forall j :: 0 <= j < k + 1 ==> xs[j].None? by {
          forall j | 0 <= j < k + 1 ensures xs[j].None? {
            if j > 0 { assert xs[j] == xs[1..][j - 1]; }
          }
        }
      } else {
        forall k | 0 <= k < |xs| ensures xs[k].None? {
          if k > 0 { assert xs[k] == xs[1..][k - 1]; }
        }
      }
    }
  }

  /** What `p` yields at each position of `s`, the end of `s` included. */
  function Matches(p: Pattern, s: string): seq<Option<string>> {
    seq(|s| + 1, k requires 0 <= k <= |s| => MatchAt(p, s, k))
  }

  /** `s.match(p)` followed by `match[0].replace(p, value)`: the leftmost
      match, rewritten. */
  function Apply(p: Pattern, s: string): Option<string> {
    FirstSome(Matches(p, s))
  }

  /** The search returns the match at the first position where the pattern
      matches, and finds nothing when it matches nowhere. */
  lemma ApplyIsFirst(p: Pattern, s: string)
    ensures Apply(p, s).Some? <==> exists k :: 0 <= k <= |s| && MatchAt(p, s, k).Some?
    ensures Apply(p, s).Some? ==>
      exists k :: 0 <= k <= |s| && MatchAt(p, s, k) == Apply(p, s)
        && forall j :: 0 <= j < k ==> MatchAt(p, s, j).None?
  {
    var ms := Matches(p, s);
    FirstSomeIsFirst(ms);
    if Apply(p, s).Some? {
      var k :| 0 <= k < |ms| && ms[k] == FirstSome(ms) && forall j :: 0 <= j < k ==> ms[j].None?;
      assert MatchAt(p, s, k) == Apply(p, s);
      assert forall j :: 0 <= j < k ==> MatchAt(p, s, j).None? by {
        forall j | 0 <= j < k ensures MatchAt(p, s, j).None? { assert ms[j] == MatchAt(p, s, j); }
      }
    } else {
      forall k | 0 <= k <= |s| ensures MatchAt(p, s, k).None? { assert ms[k] == MatchAt(p, s, k); }
    }
  }

  /** A match anywhere makes the whole search succeed. */
  lemma MatchAtMeansApplies(p: Pattern, s: string, k: nat)
    requires k <= |s| && MatchAt(p, s, k).Some?
    ensures Apply(p, s).Some?
  {
    ApplyIsFirst(p, s);
  }

  /** Rules 3 to 5 rewrite to their fixed value whenever they match. */
  lemma ConstantRuleValues(s: string)
    ensures Apply(EntryLevel, s) == None || Apply(EntryLevel, s) == Some("Entry Level")
    ensures Apply(Senior, s) == None || Apply(Senior, s) == Some("5+ years")
    ensures Apply(Lead, s) == None || Apply(Lead, s) == Some("3+ years")
  {
    ApplyIsFirst(EntryLevel, s);
    ApplyIsFirst(Senior, s);
    ApplyIsFirst(Lead, s);
  }

  /** Wherever rule 2 matches, rule 1 matches too: at the start of the second
      number, which is followed by optional whitespace and "year". */
  lemma RangeMatchGivesDigitsMatch(s: string, i: nat)
    requires i <= |s| && MatchAt(RangeYears, s, i).Some?
    ensures exists l :: i < l <= |s| && MatchAt(DigitsYears, s, l).Some?
  {
    var j := DigitRunEnd(s, i);
    var k := SpaceRunEnd(s, j);
    var l := SpaceRunEnd(s, k + 1);
    var m := DigitRunEnd(s, l);
    assert WordAt(s, SpaceRunEnd(s, m), "year");
    assert MatchAt(DigitsYears, s, l).Some?;
  }

  /** Rule 2 can never be the first rule to match: any text it matches is
      already matched by rule 1. */
  lemma RangeRuleShadowed(s: string)
    ensures Apply(RangeYears, s).Some? ==> Apply(DigitsYears, s).Some?
  {
    if Apply(RangeYears, s).Some? {
      ApplyIsFirst(RangeYears, s);
      var i :| 0 <= i <= |s| && MatchAt(RangeYears, s, i).Some?;
      RangeMatchGivesDigitsMatch(s, i);
      var l :| i < l <= |s| && MatchAt(DigitsYears, s, l).Some?;
      MatchAtMeansApplies(DigitsYears, s, l);
    }
  }

  /** Rule 1 matching one digit later inside the same run means it matches
      one digit earlier too, with the same continuation. */
  lemma DigitsMatchExtendsLeft(s: string, i: nat)
    requires 0 < i <= |s| && IsDigit(s[i - 1]) && MatchAt(DigitsYears, s, i).Some?
    ensures MatchAt(DigitsYears, s, i - 1).Some?
    ensures DigitRunEnd(s, i - 1) == DigitRunEnd(s, i)
  {
  }

  /** What rule 1 yields: `N+ years`, where `N` is a whole digit run (the
      character before it is not a digit), the run is followed by an
      optional '+', optional whitespace and "year" in any case, and no
      earlier position starts such a run. */
  lemma {:induction false} DigitsRuleResult(s: string)
    requires Apply(DigitsYears, s).Some?
    ensures exists i, j :: (0 <= i < j <= |s|
                            && (i == 0 || !IsDigit(s[i - 1]))
                            && j == DigitRunEnd(s, i)
                            && WordAt(s, SpaceRunEnd(s, AfterPlus(s, j)), "year")
                            && Apply(DigitsYears, s) == Some(s[i..j] + "+ years")
                            && forall h :: 0 <= h < i ==> MatchAt(DigitsYears, s, h).None?)
  {
    ApplyIsFirst(DigitsYears, s);
    var i :| 0 <= i <= |s| && MatchAt(DigitsYears, s, i) == Apply(DigitsYears, s)
      && forall h :: 0 <= h < i ==> MatchAt(DigitsYears, s, h).None?;
    if i > 0 && IsDigit(s[i - 1]) {
      DigitsMatchExtendsLeft(s, i);
      assert false;
    }
    var j := DigitRunEnd(s, i);
    assert i < j;
  }
}
