/** user/grep.c: match(), matchhere() and matchstar() find exactly what the pattern's language describes. Strings are
    without their terminating NUL. */
module Grep {
  // ----- what a pattern means -----

  datatype Item = One(c: char) | Star(c: char) | End

  /** The items of a pattern. A '*' binds before a final '$' is an anchor; a '$' elsewhere is an ordinary character. */
  function Items(re: string): seq<Item> {
    if re == "" then []
    else if |re| >= 2 && re[1] == '*' then [Star(re[0])] + Items(re[2..])
    else if re == "$" then [End]
    else [One(re[0])] + Items(re[1..])
  }

  predicate Fits(c: char, x: char) {
    c == '.' || c == x
  }

  /** Item `it` matches text[p..q]. */
  predicate ItemMatches(it: Item, text: string, p: nat, q: nat) {
    && p <= q <= |text|
    && match it
       case One(c) => q == p + 1 && Fits(c, text[p])
       case Star(c) => forall k | p <= k < q :: Fits(c, text[k])
       case End => p == q == |text|
  }

  /** The cuts divide a part of the text, from its first to its last, into pieces that match the items in turn. */
  predicate Divides(cuts: seq<nat>, items: seq<Item>, text: string) {
    && |cuts| == |items| + 1 && cuts[|items|] <= |text|
    && forall i | 0 <= i < |items| :: ItemMatches(items[i], text, cuts[i], cuts[i + 1])
  }

  /** Some substring that starts at p is in the language of the items. */
  ghost predicate InLanguageAt(items: seq<Item>, text: string, p: nat) {
    exists cuts :: Divides(cuts, items, text) && cuts[0] == p
  }

  /** Some substring, or prefix for a pattern that begins with '^', is in the language of the pattern. */
  ghost predicate Matches(re: string, text: string) {
    if re != "" && re[0] == '^' then InLanguageAt(Items(re[1..]), text, 0)
    else exists p: nat :: p <= |text| && InLanguageAt(Items(re), text, p)
  }

  // ----- the language, item by item -----

  lemma NoItems(text: string, p: nat)
    requires p <= |text|
    ensures InLanguageAt([], text, p)
  {
    assert Divides([p], [], text);
  }

  lemma FirstItem(it: Item, rest: seq<Item>, text: string, p: nat, q: nat)
    requires ItemMatches(it, text, p, q) && InLanguageAt(rest, text, q)
    ensures InLanguageAt([it] + rest, text, p)
  {
    var cuts :| Divides(cuts, rest, text) && cuts[0] == q;
    var cuts', items := [p] + cuts, [it] + rest;
    forall i | 0 <= i < |items| ensures ItemMatches(items[i], text, cuts'[i], cuts'[i + 1]) {
      if i > 0 { assert items[i] == rest[i - 1] && cuts'[i] == cuts[i - 1] && cuts'[i + 1] == cuts[i]; }
    }
    assert Divides(cuts', items, text);
  }

  lemma Unfirst(it: Item, rest: seq<Item>, text: string, p: nat) returns (q: nat)
    requires InLanguageAt([it] + rest, text, p)
    ensures ItemMatches(it, text, p, q) && InLanguageAt(rest, text, q)
  {
    var items := [it] + rest;
    var cuts :| Divides(cuts, items, text) && cuts[0] == p;
    q := cuts[1];
    assert ItemMatches(items[0], text, cuts[0], cuts[1]);
    var cuts' := cuts[1..];
    forall i | 0 <= i < |rest| ensures ItemMatches(rest[i], text, cuts'[i], cuts'[i + 1]) {
      assert ItemMatches(items[i + 1], text, cuts[i + 1], cuts[i + 2]);
    }
    assert Divides(cuts', rest, text);
  }

  lemma OneItem(c: char, rest: seq<Item>, text: string, p: nat)
    ensures InLanguageAt([One(c)] + rest, text, p) <==>
      p < |text| && Fits(c, text[p]) && InLanguageAt(rest, text, p + 1)
  {
    if InLanguageAt([One(c)] + rest, text, p) {
      var q := Unfirst(One(c), rest, text, p);
    }
    if p < |text| && Fits(c, text[p]) && InLanguageAt(rest, text, p + 1) {
      FirstItem(One(c), rest, text, p, p + 1);
    }
  }

  lemma EndItem(text: string, p: nat)
    requires p <= |text|
    ensures InLanguageAt([End], text, p) <==> p == |text|
  {
    assert [End] + [] == [End];
    if InLanguageAt([End], text, p) {
      var q := Unfirst(End, [], text, p);
    }
    if p == |text| {
      NoItems(text, p);
      FirstItem(End, [], text, p, p);
    }
  }

  /** No run of c leads to a match of the rest if none of those up to the longest, which ends at q, does. */
  lemma NoStar(c: char, rest: seq<Item>, text: string, p: nat, q: nat)
    requires p <= q <= |text| && (q == |text| || !Fits(c, text[q]))
    requires forall k | p <= k <= q :: !InLanguageAt(rest, text, k)
    ensures !InLanguageAt([Star(c)] + rest, text, p)
  {
    hide InLanguageAt;
    if InLanguageAt([Star(c)] + rest, text, p) {
      var r := Unfirst(Star(c), rest, text, p);
    }
  }

  // ----- the code -----

  /** matchhere() on the text from p on. */
  method MatchHere(re: string, text: string, p: nat) returns (found: bool)
    requires p <= |text|
    ensures found <==> InLanguageAt(Items(re), text, p)
    decreases |re|, |text| - p, 0
  {
    hide InLanguageAt;
    if re == "" {
      NoItems(text, p);
      return true;
    }
    if |re| >= 2 && re[1] == '*' {
      found := MatchStar(re[0], re[2..], text, p);
      return;
    }
    if re == "$" {
      EndItem(text, p);
      return p == |text|;
    }
    OneItem(re[0], Items(re[1..]), text, p);
    if p < |text| && (re[0] == '.' || re[0] == text[p]) {
      found := MatchHere(re[1..], text, p + 1);
      return;
    }
    return false;
  }

  /** matchstar(): any number of c, then re. */
  method MatchStar(c: char, re: string, text: string, p: nat) returns (found: bool)
    requires p <= |text|
    ensures found <==> InLanguageAt([Star(c)] + Items(re), text, p)
    decreases |re|, |text| - p, 1
  {
    hide InLanguageAt, Items;
    var q := p;
    while true
      invariant p <= q <= |text| && forall k | p <= k < q :: Fits(c, text[k]) && !InLanguageAt(Items(re), text, k)
      decreases |text| - q
    {
      found := MatchHere(re, text, q);
      if found {
        FirstItem(Star(c), Items(re), text, p, q);
        return;
      }
      if !(q < |text| && (text[q] == c || c == '.')) {
        break;
      }
      q := q + 1;
    }
    NoStar(c, Items(re), text, p, q);
  }

  /** match(): found exactly if the text contains a match. */
  method Match(re: string, text: string) returns (found: bool)
    ensures found <==> Matches(re, text)
  {
    hide InLanguageAt, Items;
    if re != "" && re[0] == '^' {
      found := MatchHere(re[1..], text, 0);
      return;
    }
    var p := 0;
    while true
      invariant 0 <= p <= |text| && forall k: nat | k < p :: !InLanguageAt(Items(re), text, k)
      decreases |text| - p
    {
      found := MatchHere(re, text, p);
      if found {
        return;
      }
      if p == |text| {
        break;
      }
      p := p + 1;
    }
    return false;
  }
}
