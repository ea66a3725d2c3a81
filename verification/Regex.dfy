/**
 The regular expression matcher of grep (user/grep.c; chapter 9 of Kernighan and Pike, The Practice of
 Programming) and what its patterns mean.  Strings hold no NUL; their end plays its part.
 */
module Regex {

  // ----- What a pattern means -----

  /** One character, where '.' stands for any; or any number of them. */
  datatype Item = One(c: char) | Star(c: char)

  predicate Fits(c: char, a: char) { c == '.' || a == c }

  /** A pattern after a leading '^': its items, and whether it ends in '$'. */
  function Items(re: string): seq<Item> {
    if re == "" || re == "$" then []
    else if |re| >= 2 && re[1] == '*' then [Star(re[0])] + Items(re[2..])
    else [One(re[0])] + Items(re[1..])
  }

  predicate ToEnd(re: string) {
    if re == "" then false
    else if |re| >= 2 && re[1] == '*' then ToEnd(re[2..])
    else re == "$" || ToEnd(re[1..])
  }

  /** The strings that an item stands for. */
  predicate Spells(item: Item, w: string) {
    match item
    case One(c) => |w| == 1 && Fits(c, w[0])
    case Star(c) => forall i :: 0 <= i < |w| ==> Fits(c, w[i])
  }

  /** w is made of one string after another, each of what its item stands for. */
  ghost predicate Accepts(items: seq<Item>, w: string) {
    if items == [] then w == ""
    else exists j :: 0 <= j <= |w| && Spells(items[0], w[..j]) && Accepts(items[1..], w[j..])
  }

  /** Some prefix of text is a string of the pattern; all of it, if the pattern ends in '$'. */
  ghost predicate AtStart(re: string, text: string) {
    exists k :: 0 <= k <= |text| && Accepts(Items(re), text[..k]) && (ToEnd(re) ==> k == |text|)
  }

  ghost predicate Matches(re: string, text: string) {
    if re != "" && re[0] == '^' then AtStart(re[1..], text)
    else exists i :: 0 <= i <= |text| && AtStart(re, text[i..])
  }

  // ----- The matcher -----

  lemma EmptyPattern(text: string)
    ensures AtStart("", text)
  {
    assert Accepts(Items(""), text[..0]);
  }

  lemma DollarPattern(text: string)
    ensures AtStart("$", text) <==> text == ""
  {
    if text == "" {
      assert Accepts(Items("$"), text[..0]);
    }
  }

  lemma OnePattern(re: string, text: string)
    requires re != "" && re != "$" && !(|re| >= 2 && re[1] == '*')
    ensures AtStart(re, text) <==> text != "" && Fits(re[0], text[0]) && AtStart(re[1..], text[1..])
  {
    var items := Items(re);
    assert items[0] == One(re[0]) && items[1..] == Items(re[1..]);
    if AtStart(re, text) {
      var k :| 0 <= k <= |text| && Accepts(items, text[..k]) && (ToEnd(re) ==> k == |text|);
      var w := text[..k];
      var j :| 0 <= j <= |w| && Spells(items[0], w[..j]) && Accepts(items[1..], w[j..]);
      assert j == 1 && w[1..] == text[1..][..k - 1];
    }
    if text != "" && Fits(re[0], text[0]) && AtStart(re[1..], text[1..]) {
      var k :| 0 <= k <= |text| - 1 && Accepts(Items(re[1..]), text[1..][..k]) && (ToEnd(re[1..]) ==> k == |text| - 1);
      var w := text[..k + 1];
      assert w[1..] == text[1..][..k] && Spells(items[0], w[..1]);
      assert Accepts(items, w);
    }
  }

  /** What a star may take: characters that fit, up to some place where the rest of the pattern matches. */
  ghost predicate StarAt(c: char, re: string, text: string, j: nat)
    requires j <= |text|
  {
    (forall i :: 0 <= i < j ==> Fits(c, text[i])) && AtStart(re, text[j..])
  }

  lemma StarPattern(re: string, text: string)
    requires |re| >= 2 && re[1] == '*'
    ensures AtStart(re, text) <==> exists j :: 0 <= j <= |text| && StarAt(re[0], re[2..], text, j)
  {
    var items := Items(re);
    assert items[0] == Star(re[0]) && items[1..] == Items(re[2..]);
    if AtStart(re, text) {
      var k :| 0 <= k <= |text| && Accepts(items, text[..k]) && (ToEnd(re) ==> k == |text|);
      var w := text[..k];
      var j :| 0 <= j <= |w| && Spells(items[0], w[..j]) && Accepts(items[1..], w[j..]);
      assert w[j..] == text[j..][..k - j];
      assert forall i :: 0 <= i < j ==> text[i] == w[..j][i];
      assert StarAt(re[0], re[2..], text, j);
    }
    if exists j :: 0 <= j <= |text| && StarAt(re[0], re[2..], text, j) {
      var j :| 0 <= j <= |text| && StarAt(re[0], re[2..], text, j);
      var k :| 0 <= k <= |text| - j && Accepts(Items(re[2..]), text[j..][..k]) && (ToEnd(re[2..]) ==> k == |text| - j);
      var w := text[..j + k];
      assert w[j..] == text[j..][..k] && Spells(items[0], w[..j]);
      assert Accepts(items, w);
    }
  }

  method MatchHere(re: string, text: string) returns (r: bool)
    ensures r <==> AtStart(re, text)
    decreases |re|, 0
  {
    if re == "" {
      EmptyPattern(text);
      return true;
    }
    if |re| >= 2 && re[1] == '*' {
      StarPattern(re, text);
      r := MatchStar(re[0], re[2..], text);
      return;
    }
    if re == "$" {
      DollarPattern(text);
      return text == "";
    }
    OnePattern(re, text);
    if text != "" && (re[0] == '.' || re[0] == text[0]) {
      r := MatchHere(re[1..], text[1..]);
      return;
    }
    return false;
  }

  method MatchStar(c: char, re: string, text: string) returns (r: bool)
    ensures r <==> exists j :: 0 <= j <= |text| && StarAt(c, re, text, j)
    decreases |re|, 1
  {
    var i := 0;
    while true
      invariant 0 <= i <= |text| && (forall k :: 0 <= k < i ==> Fits(c, text[k]))
      invariant forall j :: 0 <= j < i ==> !StarAt(c, re, text, j)
      decreases |text| - i
    {
      r := MatchHere(re, text[i..]);
      if r {
        assert StarAt(c, re, text, i);
        return;
      }
      assert !StarAt(c, re, text, i);
      if i == |text| || !(text[i] == c || c == '.') {
        forall j | i < j <= |text| ensures !StarAt(c, re, text, j) {
        }
        return false;
      }
      i := i + 1;
    }
  }

  /** match returns true exactly when the pattern matches somewhere in text, or at its start after '^'. */
  method Match(re: string, text: string) returns (r: bool)
    ensures r <==> Matches(re, text)
  {
    if re != "" && re[0] == '^' {
      r := MatchHere(re[1..], text);
      return;
    }
    var i := 0;
    while true
      invariant 0 <= i <= |text| && forall j :: 0 <= j < i ==> !AtStart(re, text[j..])
      decreases |text| - i
    {
      r := MatchHere(re, text[i..]);
      if r {
        return;
      }
      if i == |text| {
        return false;
      }
      i := i + 1;
    }
  }
}
