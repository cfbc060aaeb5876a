/**
 The matcher of grep.c against what a pattern means: a part of the text is a sequence of pieces, one
 for each item of the pattern.
 */
module Grep {

  // ---- Meaning ----

  /** One character, or any number of them; '.' stands for every character. */
  datatype Item = One(c: char) | Star(c: char)

  datatype Pattern = Pattern(items: seq<Item>, atEnd: bool)

  predicate Fits(c: char, x: char) {
    c == '.' || c == x
  }

  predicate Piece(it: Item, w: string) {
    match it
    case One(c) => |w| == 1 && Fits(c, w[0])
    case Star(c) => forall k :: 0 <= k < |w| ==> Fits(c, w[k])
  }

  function Join(pieces: seq<string>): string
  {
    if pieces == [] then "" else pieces[0] + Join(pieces[1..])
  }

  predicate Pieces(items: seq<Item>, pieces: seq<string>) {
    |pieces| == |items| && forall k :: 0 <= k < |items| ==> Piece(items[k], pieces[k])
  }

  /** The items spell the word w. */
  ghost predicate Spells(items: seq<Item>, w: string) {
    exists pieces :: Pieces(items, pieces) && Join(pieces) == w
  }

  /** The pattern accepts the first n characters of text. */
  ghost predicate Accepts(p: Pattern, text: string, n: nat) {
    n <= |text| && Spells(p.items, text[..n]) && (p.atEnd ==> n == |text|)
  }

  ghost predicate MatchesPrefix(p: Pattern, text: string) {
    exists n: nat :: Accepts(p, text, n)
  }

  /** How the characters of a pattern without a leading '^' are read. */
  function Read(re: string): Pattern
  {
    if re == "" then Pattern([], false)
    else if |re| >= 2 && re[1] == '*' then Pattern([Star(re[0])] + Read(re[2..]).items, Read(re[2..]).atEnd)
    else if re == "$" then Pattern([], true)
    else Pattern([One(re[0])] + Read(re[1..]).items, Read(re[1..]).atEnd)
  }

  /** What match is to decide. */
  ghost predicate Means(re: string, text: string) {
    if re != "" && re[0] == '^' then MatchesPrefix(Read(re[1..]), text)
    else exists i: nat :: i <= |text| && MatchesPrefix(Read(re), text[i..])
  }

  // ---- Pieces ----

  lemma SpellsNil(w: string)
    ensures Spells([], w) <==> w == ""
  {
    if w == "" {
      assert Pieces([], []) && Join([]) == w;
    }
  }

  lemma SpellsJoin(it: Item, rest: seq<Item>, w: string, v: string)
    requires Piece(it, w) && Spells(rest, v)
    ensures Spells([it] + rest, w + v)
  {
    var pieces :| Pieces(rest, pieces) && Join(pieces) == v;
    var all := [w] + pieces;
    assert all[1..] == pieces;
    assert Pieces([it] + rest, all) && Join(all) == w + v;
  }

  lemma SpellsSplit(it: Item, rest: seq<Item>, w: string) returns (m: nat)
    requires Spells([it] + rest, w)
    ensures m <= |w| && Piece(it, w[..m]) && Spells(rest, w[m..])
  {
    var items := [it] + rest;
    var pieces :| Pieces(items, pieces) && Join(pieces) == w;
    m := |pieces[0]|;
    assert Piece(items[0], pieces[0]);
    assert w[..m] == pieces[0] && w[m..] == Join(pieces[1..]);
    forall k | 0 <= k < |rest|
      ensures Piece(rest[k], pieces[1..][k])
    {
      assert items[k + 1] == rest[k];
    }
    assert Pieces(rest, pieces[1..]);
  }

  /** The first item takes m characters, the rest of the pattern matches behind them. */
  lemma PrefixJoin(it: Item, p: Pattern, text: string, m: nat)
    requires m <= |text| && Piece(it, text[..m]) && MatchesPrefix(p, text[m..])
    ensures MatchesPrefix(Pattern([it] + p.items, p.atEnd), text)
  {
    var n: nat :| Accepts(p, text[m..], n);
    SpellsJoin(it, p.items, text[..m], text[m..][..n]);
    assert text[..m] + text[m..][..n] == text[..m + n];
    assert Accepts(Pattern([it] + p.items, p.atEnd), text, m + n);
  }

  lemma PrefixSplit(it: Item, p: Pattern, text: string) returns (m: nat)
    requires MatchesPrefix(Pattern([it] + p.items, p.atEnd), text)
    ensures m <= |text| && Piece(it, text[..m]) && MatchesPrefix(p, text[m..])
  {
    var n: nat :| Accepts(Pattern([it] + p.items, p.atEnd), text, n);
    m := SpellsSplit(it, p.items, text[..n]);
    assert text[..n][..m] == text[..m] && text[..n][m..] == text[m..][..n - m];
    assert Accepts(p, text[m..], n - m);
  }

  // ---- What the procedures compute ----

  function Here(re: string, text: string): bool
    decreases |re|, 0
  {
    if re == "" then true
    else if |re| >= 2 && re[1] == '*' then Stars(re[0], re[2..], text)
    else if re == "$" then text == ""
    else text != "" && Fits(re[0], text[0]) && Here(re[1..], text[1..])
  }

  function Stars(c: char, re: string, text: string): bool
    decreases |re|, 1, |text|
  {
    Here(re, text) || (text != "" && Fits(c, text[0]) && Stars(c, re, text[1..]))
  }

  /** matchhere decides whether the pattern matches at the start. */
  lemma {:induction false} HereMeans(re: string, text: string)
    ensures Here(re, text) <==> MatchesPrefix(Read(re), text)
    decreases |re|, 0
  {
    hide MatchesPrefix;
    if re == "" {
      EmptyMatches(text);
    } else if |re| >= 2 && re[1] == '*' {
      StarsMean(re[0], re[2..], text);
    } else if re == "$" {
      EndMatches(text);
    } else {
      var p := Read(re[1..]);
      if Here(re, text) {
        HereMeans(re[1..], text[1..]);
        PrefixJoin(One(re[0]), p, text, 1);
      }
      if MatchesPrefix(Read(re), text) {
        var m := PrefixSplit(One(re[0]), p, text);
        HereMeans(re[1..], text[1..]);
      }
    }
  }

  /** matchstar decides whether c* and then the pattern match at the start. */
  lemma {:induction false} StarsMean(c: char, re: string, text: string)
    ensures Stars(c, re, text) <==> MatchesPrefix(Pattern([Star(c)] + Read(re).items, Read(re).atEnd), text)
    decreases |re|, 2
  {
    hide MatchesPrefix;
    var p := Read(re);
    if Stars(c, re, text) {
      var m := StarsTake(c, re, text);
      PrefixJoin(Star(c), p, text, m);
    }
    if MatchesPrefix(Pattern([Star(c)] + p.items, p.atEnd), text) {
      var m := PrefixSplit(Star(c), p, text);
      StarsFrom(c, re, text, m);
    }
  }

  lemma {:induction false} StarsTake(c: char, re: string, text: string) returns (m: nat)
    requires Stars(c, re, text)
    ensures m <= |text| && Piece(Star(c), text[..m]) && MatchesPrefix(Read(re), text[m..])
    decreases |re|, 1, |text|
  {
    hide MatchesPrefix;
    if Here(re, text) {
      HereMeans(re, text);
      assert text[0..] == text;
      m := 0;
    } else {
      var k := StarsTake(c, re, text[1..]);
      assert text[1..][k..] == text[k + 1..];
      assert text[..k + 1] == [text[0]] + text[1..][..k];
      m := k + 1;
    }
  }

  lemma {:induction false} StarsFrom(c: char, re: string, text: string, m: nat)
    requires m <= |text| && Piece(Star(c), text[..m]) && MatchesPrefix(Read(re), text[m..])
    ensures Stars(c, re, text)
    decreases |re|, 1, |text|
  {
    hide MatchesPrefix;
    if m == 0 {
      assert text[0..] == text;
      HereMeans(re, text);
    } else {
      assert text[..m][0] == text[0];
      assert text[1..][m - 1..] == text[m..];
      assert text[1..][..m - 1] == text[..m][1..];
      StarsFrom(c, re, text[1..], m - 1);
    }
  }

  lemma EmptyMatches(text: string)
    ensures MatchesPrefix(Pattern([], false), text)
  {
    SpellsNil(text[..0]);
    assert Accepts(Pattern([], false), text, 0);
  }

  lemma EndMatches(text: string)
    ensures MatchesPrefix(Pattern([], true), text) <==> text == ""
  {
    SpellsNil(text);
    assert text[..|text|] == text;
    if text == "" {
      assert Accepts(Pattern([], true), text, 0);
    }
  }

  // ---- The procedures ----

  method MatchHere(re: string, text: string) returns (r: bool)
    ensures r == Here(re, text)
    decreases |re|, 0
  {
    if re == "" {
      return true;
    }
    if |re| >= 2 && re[1] == '*' {
      r := MatchStar(re[0], re[2..], text);
      return;
    }
    if re[0] == '$' && |re| == 1 {
      return text == "";
    }
    if text != "" && (re[0] == '.' || re[0] == text[0]) {
      r := MatchHere(re[1..], text[1..]);
      return;
    }
    r := false;
  }

  method MatchStar(c: char, re: string, text: string) returns (r: bool)
    ensures r == Stars(c, re, text)
    decreases |re|, 1
  {
    var i := 0;
    while true
      invariant i <= |text| && Stars(c, re, text[i..]) == Stars(c, re, text)
      decreases |text| - i
    {
      var here := MatchHere(re, text[i..]);
      if here {
        return true;
      }
      if i == |text| || !(text[i] == c || c == '.') {
        return false;
      }
      assert text[i..][1..] == text[i + 1..];
      i := i + 1;
    }
  }

  /** match returns 1 exactly when the pattern means so. */
  method Match(re: string, text: string) returns (r: bool)
    ensures r <==> Means(re, text)
  {
    hide MatchesPrefix;
    if re != "" && re[0] == '^' {
      r := MatchHere(re[1..], text);
      HereMeans(re[1..], text);
      return;
    }
    var i := 0;
    while true
      invariant i <= |text| && forall j: nat :: j < i ==> !MatchesPrefix(Read(re), text[j..])
      decreases |text| - i
    {
      r := MatchHere(re, text[i..]);
      HereMeans(re, text[i..]);
      if r {
        return;
      }
      if i == |text| {
        return;
      }
      i := i + 1;
    }
  }
}
