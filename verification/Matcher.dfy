/** The pattern matcher of grep, against the meaning of ^ . * $. */
module Matcher {

  // ---- what a pattern means ----

  /** One character, or any number of them; '.' stands for every character. */
  datatype Item = One(c: char) | Star(c: char)

  /** A pattern is a sequence of items, at the end of the text only if `last`. */
  datatype Pattern = Pattern(items: seq<Item>, last: bool)

  /** The reading of a pattern: c* is a star whatever c is, and $ is an anchor only as the last character. */
  function Parse(re: seq<char>): (p: Pattern) {
    if re == [] then Pattern([], false)
    else if |re| >= 2 && re[1] == '*' then var p := Parse(re[2..]); Pattern([Star(re[0])] + p.items, p.last)
    else if re == ['$'] then Pattern([], true)
    else var p := Parse(re[1..]); Pattern([One(re[0])] + p.items, p.last)
  }

  predicate Fits(c: char, x: char) {
    c == '.' || c == x
  }

  /** The words of one item. */
  predicate InItem(e: Item, w: seq<char>) {
    match e
    case One(c) => |w| == 1 && Fits(c, w[0])
    case Star(c) => forall x | 0 <= x < |w| :: Fits(c, w[x])
  }

  /** The words of a sequence of items: concatenations of one word of each. */
  ghost predicate InItems(es: seq<Item>, w: seq<char>)
    decreases |es|
  {
    if es == [] then w == []
    else exists k | 0 <= k <= |w| :: InItem(es[0], w[..k]) && InItems(es[1..], w[k..])
  }

  /** Some beginning of t, all of it if the pattern is anchored at the end, is a word of the pattern. */
  ghost predicate Here(p: Pattern, t: seq<char>) {
    exists k | 0 <= k <= |t| :: InItems(p.items, t[..k]) && (p.last ==> k == |t|)
  }

  /** The meaning of a pattern: a match at the start of the text after ^, and anywhere otherwise. */
  ghost predicate Means(re: seq<char>, t: seq<char>) {
    if re != [] && re[0] == '^' then Here(Parse(re[1..]), t)
    else exists i | 0 <= i <= |t| :: Here(Parse(re), t[i..])
  }

  // ---- one item at a time ----

  lemma SplitFirst(e: Item, p: Pattern, t: seq<char>, n: int) returns (k: int)
    requires 0 <= n <= |t| && InItems([e] + p.items, t[..n]) && (p.last ==> n == |t|)
    ensures 0 <= k <= |t| && InItem(e, t[..k]) && Here(p, t[k..])
  {
    var es, w := [e] + p.items, t[..n];
    assert es[1..] == p.items;
    k :| 0 <= k <= |w| && InItem(es[0], w[..k]) && InItems(es[1..], w[k..]);
    assert w[..k] == t[..k] && w[k..] == t[k..][..n - k];
  }

  lemma JoinFirst(e: Item, p: Pattern, t: seq<char>, k: int)
    requires 0 <= k <= |t| && InItem(e, t[..k]) && Here(p, t[k..])
    ensures Here(Pattern([e] + p.items, p.last), t)
  {
    var es := [e] + p.items;
    assert es[1..] == p.items;
    var n :| 0 <= n <= |t[k..]| && InItems(p.items, t[k..][..n]) && (p.last ==> n == |t[k..]|);
    var w := t[..k + n];
    assert w[..k] == t[..k] && w[k..] == t[k..][..n];
    assert InItems(es, w);
  }

  /** A pattern that starts with an item matches where the item takes k characters and the rest matches after them. */
  lemma HereSplit(e: Item, p: Pattern, t: seq<char>)
    ensures Here(Pattern([e] + p.items, p.last), t) <==>
              exists k | 0 <= k <= |t| :: InItem(e, t[..k]) && Here(p, t[k..])
  {
    if Here(Pattern([e] + p.items, p.last), t) {
      var n :| 0 <= n <= |t| && InItems([e] + p.items, t[..n]) && (p.last ==> n == |t|);
      var k := SplitFirst(e, p, t, n);
    }
    if k :| 0 <= k <= |t| && InItem(e, t[..k]) && Here(p, t[k..]) {
      JoinFirst(e, p, t, k);
    }
  }

  lemma HereOne(c: char, p: Pattern, t: seq<char>)
    ensures Here(Pattern([One(c)] + p.items, p.last), t) <==> |t| > 0 && Fits(c, t[0]) && Here(p, t[1..])
  {
    HereSplit(One(c), p, t);
    if |t| > 0 && Fits(c, t[0]) && Here(p, t[1..]) {
      assert InItem(One(c), t[..1]);
    }
  }

  /** A starred item matches nothing, or one character and then the same again. */
  lemma HereStar(c: char, p: Pattern, t: seq<char>)
    ensures Here(Pattern([Star(c)] + p.items, p.last), t) <==>
            Here(p, t) || (|t| > 0 && Fits(c, t[0]) && Here(Pattern([Star(c)] + p.items, p.last), t[1..]))
  {
    HereSplit(Star(c), p, t);
    if Here(p, t) {
      assert t[..0] == [] && t[0..] == t;
      assert InItem(Star(c), t[..0]);
    }
    if |t| > 0 {
      HereSplit(Star(c), p, t[1..]);
      if k :| 0 <= k <= |t| && InItem(Star(c), t[..k]) && Here(p, t[k..]) {
        if k == 0 {
          assert t[0..] == t;
        } else {
          assert t[1..][..k - 1] == t[..k][1..] && t[1..][k - 1..] == t[k..];
          assert Fits(c, t[..k][0]);
          assert InItem(Star(c), t[1..][..k - 1]);
        }
      }
      if k :| 0 <= k <= |t[1..]| && Fits(c, t[0]) && InItem(Star(c), t[1..][..k]) && Here(p, t[1..][k..]) {
        assert t[..k + 1] == [t[0]] + t[1..][..k] && t[k + 1..] == t[1..][k..];
        assert InItem(Star(c), t[..k + 1]);
      }
    } else if k :| 0 <= k <= |t| && InItem(Star(c), t[..k]) && Here(p, t[k..]) {
      assert t[k..] == t;
    }
  }

  lemma HereEnd(last: bool, t: seq<char>)
    ensures Here(Pattern([], last), t) <==> (last ==> t == [])
  {
    if !last || t == [] {
      assert t[..0] == [] && InItems([], t[..0]);
    }
  }

  // ---- the matcher ----

  method Match(re: seq<char>, text: seq<char>) returns (b: bool)
    ensures b <==> Means(re, text)
  {
    if re != [] && re[0] == '^' {
      b := MatchHere(re[1..], text);
      return;
    }
    var i := 0;
    while true
      invariant 0 <= i <= |text|
      invariant forall j | 0 <= j < i :: !Here(Parse(re), text[j..])
      decreases |text| - i
    {
      b := MatchHere(re, text[i..]);
      if b {
        return true;
      }
      if i == |text| {
        return false;
      }
      i := i + 1;
    }
  }

  method MatchHere(re: seq<char>, text: seq<char>) returns (b: bool)
    ensures b <==> Here(Parse(re), text)
    decreases |re|, 0
  {
    if re == [] {
      HereEnd(false, text);
      return true;
    }
    if |re| > 1 && re[1] == '*' {
      b := MatchStar(re[0], re[2..], text);
      return;
    }
    if re[0] == '$' && |re| == 1 {
      HereEnd(true, text);
      return text == [];
    }
    HereOne(re[0], Parse(re[1..]), text);
    if text != [] && (re[0] == '.' || re[0] == text[0]) {
      b := MatchHere(re[1..], text[1..]);
      return;
    }
    return false;
  }

  method MatchStar(c: char, re: seq<char>, text: seq<char>) returns (b: bool)
    ensures b <==> Here(Pattern([Star(c)] + Parse(re).items, Parse(re).last), text)
    decreases |re|, 1
  {
    var p := Parse(re);
    var i := 0;
    while true
      invariant 0 <= i <= |text|
      invariant Here(Pattern([Star(c)] + p.items, p.last), text) <==>
                  Here(Pattern([Star(c)] + p.items, p.last), text[i..])
      decreases |text| - i
    {
      HereStar(c, p, text[i..]);
      b := MatchHere(re, text[i..]);
      if b {
        return true;
      }
      if i == |text| || !(text[i] == c || c == '.') {
        return false;
      }
      assert text[i..][1..] == text[i + 1..];
      i := i + 1;
    }
  }
}
