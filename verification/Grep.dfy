/** The pattern matcher of grep.c against what a pattern means. */
module Grep {
  /** One character, '.' standing for any, or any number of them. */
  datatype Item = One(c: char) | Star(c: char)

  /** A pattern: the items, and whether the match must be at the start, and
      reach the end, of the line. */
  datatype Pattern = Pattern(start: bool, items: seq<Item>, end: bool)

  predicate Fits(c: char, x: char) { c == '.' || c == x }

  /** The words an item stands for. */
  predicate Of(item: Item, w: string) {
    match item
    case One(c) => |w| == 1 && Fits(c, w[0])
    case Star(c) => forall i: nat | i < |w| :: Fits(c, w[i])
  }

  /** A word of the items is one word of each, one after the other. */
  ghost predicate Word(items: seq<Item>, w: string) {
    if items == [] then w == []
    else exists k: nat {:trigger w[k..]} | k <= |w| :: Of(items[0], w[..k]) && Word(items[1..], w[k..])
  }

  /** What the characters of a pattern mean once a leading '^' is gone: a
      character followed by '*' is a star, whatever the character is; only a last
      '$' that is not starred is the end of the line. */
  function Parse(re: string): Pattern {
    if re == "" then Pattern(false, [], false)
    else if |re| >= 2 && re[1] == '*' then
      var p := Parse(re[2..]); Pattern(false, [Star(re[0])] + p.items, p.end)
    else if re == "$" then Pattern(false, [], true)
    else var p := Parse(re[1..]); Pattern(false, [One(re[0])] + p.items, p.end)
  }

  function Meaning(re: string): Pattern {
    if re != "" && re[0] == '^' then Parse(re[1..]).(start := true) else Parse(re)
  }

  predicate Prefix(p: Pattern, text: string, n: nat) { n <= |text| && (p.end ==> n == |text|) }

  /** Some prefix of the text is a word of the pattern, up to the end if it says so. */
  ghost predicate Here(p: Pattern, text: string) {
    exists n: nat {:trigger Prefix(p, text, n)} :: Prefix(p, text, n) && Word(p.items, text[..n])
  }

  /** Some substring of the line is: a prefix if the pattern starts with '^'. */
  ghost predicate Matches(p: Pattern, line: string) {
    exists i: nat {:trigger line[i..]} | i <= |line| && (p.start ==> i == 0) :: Here(p, line[i..])
  }

  lemma HereOne(c: char, p: Pattern, text: string)
    ensures Here(Pattern(false, [One(c)] + p.items, p.end), text) <==>
              text != "" && Fits(c, text[0]) && Here(p, text[1..])
  {
    var q := Pattern(false, [One(c)] + p.items, p.end);
    assert q.items[1..] == p.items;
    if Here(q, text) {
      var n: nat :| Prefix(q, text, n) && Word(q.items, text[..n]);
      var w := text[..n];
      var k: nat :| k <= |w| && Of(q.items[0], w[..k]) && Word(q.items[1..], w[k..]);
      assert k == 1 && w[1..] == text[1..][..n - 1];
      assert Prefix(p, text[1..], n - 1);
    }
    if text != "" && Fits(c, text[0]) && Here(p, text[1..]) {
      var n: nat :| Prefix(p, text[1..], n) && Word(p.items, text[1..][..n]);
      var w := text[..n + 1];
      assert w[1..] == text[1..][..n] && w[..1] == [text[0]];
      assert Prefix(q, text, n + 1) && Of(q.items[0], w[..1]);
    }
  }

  predicate AllFit(c: char, text: string, k: nat) { k <= |text| && forall i: nat | i < k :: Fits(c, text[i]) }

  lemma HereStar(c: char, p: Pattern, text: string)
    ensures Here(Pattern(false, [Star(c)] + p.items, p.end), text)
       <==> exists k: nat {:trigger AllFit(c, text, k)} :: AllFit(c, text, k) && Here(p, text[k..])
  {
    var q := Pattern(false, [Star(c)] + p.items, p.end);
    assert q.items[1..] == p.items;
    if Here(q, text) {
      var n: nat :| Prefix(q, text, n) && Word(q.items, text[..n]);
      var w := text[..n];
      var k: nat :| k <= |w| && Of(q.items[0], w[..k]) && Word(q.items[1..], w[k..]);
      assert forall i: nat | i < k :: w[..k][i] == text[i];
      assert AllFit(c, text, k) && w[k..] == text[k..][..n - k];
      assert Prefix(p, text[k..], n - k);
    }
    if k: nat :| AllFit(c, text, k) && Here(p, text[k..]) {
      var n: nat :| Prefix(p, text[k..], n) && Word(p.items, text[k..][..n]);
      var w := text[..k + n];
      assert w[k..] == text[k..][..n] && w[..k] == text[..k];
      assert Prefix(q, text, k + n) && Of(q.items[0], w[..k]);
    }
  }

  lemma HereNone(end: bool, text: string)
    ensures Here(Pattern(false, [], end), text) <==> !end || text == ""
  {
    var q := Pattern(false, [], end);
    if !end || text == "" { assert Prefix(q, text, 0) && text[..0] == ""; }
    if Here(q, text) {
      var n: nat :| Prefix(q, text, n) && Word(q.items, text[..n]);
      assert n == 0;
    }
  }

  /** matchhere: a match that begins right here. */
  method MatchHere(re: string, text: string) returns (r: bool)
    ensures r <==> Here(Parse(re), text)
    decreases |re|, |text|, 0
  {
    if re == "" {
      HereNone(false, text);
      return true;
    }
    if |re| >= 2 && re[1] == '*' {
      HereStar(re[0], Parse(re[2..]), text);
      r := MatchStar(re[0], re[2..], text);
      return;
    }
    if re == "$" {
      HereNone(true, text);
      return text == "";
    }
    HereOne(re[0], Parse(re[1..]), text);
    if text != "" && (re[0] == '.' || re[0] == text[0]) {
      r := MatchHere(re[1..], text[1..]);
      return;
    }
    return false;
  }

  /** matchstar: any number of c here, the fewest first, then the rest. */
  method MatchStar(c: char, re: string, text: string) returns (r: bool)
    ensures r <==> exists k: nat {:trigger AllFit(c, text, k)} :: AllFit(c, text, k) && Here(Parse(re), text[k..])
    decreases |re| + 1, 0, 0
  {
    var t := 0;
    while true
      invariant AllFit(c, text, t)
      invariant forall k: nat {:trigger text[k..]} | k < t :: !Here(Parse(re), text[k..])
      decreases |text| - t
    {
      var here := MatchHere(re, text[t..]);
      if here { return true; }
      if t == |text| || !(text[t] == c || c == '.') { break; }
      t := t + 1;
    }
    return false;
  }

  /** match: 1 exactly when the line has a match. */
  method Match(re: string, line: string) returns (r: bool)
    ensures r <==> Matches(Meaning(re), line)
  {
    if re != "" && re[0] == '^' {
      assert line[0..] == line;
      SameHere(Parse(re[1..]), line);
      r := MatchHere(re[1..], line);
      return;
    }
    ParseFree(re);
    var t := 0;
    while true
      invariant t <= |line|
      invariant forall k: nat {:trigger line[k..]} | k < t :: !Here(Parse(re), line[k..])
      decreases |line| - t
    {
      var here := MatchHere(re, line[t..]);
      if here { return true; }
      if t == |line| { break; }
      t := t + 1;
    }
    return false;
  }

  lemma SameHere(p: Pattern, text: string)
    ensures Here(p.(start := true), text) <==> Here(p, text)
  {
    var q := p.(start := true);
    if Here(p, text) { var n: nat :| Prefix(p, text, n) && Word(p.items, text[..n]); assert Prefix(q, text, n); }
    if Here(q, text) { var n: nat :| Prefix(q, text, n) && Word(q.items, text[..n]); assert Prefix(p, text, n); }
  }

  lemma ParseFree(re: string)
    ensures !Parse(re).start
  {
  }
}
