/**
 A line as its tokens.  A rendering puts white space of any kind in front of each token; gettoken
 takes every rendering apart again, and every line without a NUL is a rendering.
 */
module ShTokens {
  import opened ShLex

  datatype Tok = TWord(text: string) | TSym(c: char)

  function TokOf(s: string, t: Token): Tok
    requires t.q <= t.eq <= |s|
  {
    if t.ret == 'a' then TWord(s[t.q..t.eq]) else TSym(t.ret)
  }

  /** What repeated calls of gettoken return from i on. */
  function Toks(s: string, i: nat): seq<Tok>
    requires i <= |s|
    decreases |s| - i
  {
    var t := GetToken(s, i);
    if t.ret == NUL then [] else [TokOf(s, t)] + Toks(s, t.next)
  }

  // ---- Renderings ----

  /** Codes of gettoken: '+' stands for ">>". */
  predicate IsSym(c: char) {
    Symbol(c) || c == '+'
  }

  predicate Blank(gap: string) {
    forall k :: 0 <= k < |gap| ==> Space(gap[k])
  }

  function Spell(t: Tok): string
  {
    match t
    case TWord(w) => w
    case TSym(c) => if c == '+' then ">>" else [c]
  }

  datatype Piece = Piece(gap: string, tok: Tok)

  /** The pieces one after the other, and what follows them. */
  function Written(ps: seq<Piece>, tail: string): string
  {
    if ps == [] then tail else ps[0].gap + (Spell(ps[0].tok) + Written(ps[1..], tail))
  }

  function TokensOf(ps: seq<Piece>): seq<Tok>
  {
    if ps == [] then [] else [ps[0].tok] + TokensOf(ps[1..])
  }

  predicate GoodTok(t: Tok) {
    match t
    case TWord(w) => Lexable(w)
    case TSym(c) => IsSym(c)
  }

  /** Tokens that would run together have white space between them. */
  predicate Apart(t: Tok, next: Piece) {
    next.gap == "" ==> (t.TWord? ==> next.tok.TSym?) && (t == TSym('>') ==> next.tok != TSym('>') && next.tok != TSym('+'))
  }

  predicate WellSpaced(ps: seq<Piece>) {
    && (forall k :: 0 <= k < |ps| ==> Blank(ps[k].gap) && GoodTok(ps[k].tok))
    && (forall k :: 0 < k < |ps| ==> Apart(ps[k - 1].tok, ps[k]))
  }

  // ---- gettoken takes a rendering apart ----

  lemma {:induction false} SkipIs(s: string, i: nat, j: nat)
    requires i <= j <= |s| && (forall k :: i <= k < j ==> Space(s[k])) && (j < |s| ==> !Space(s[j]))
    ensures SkipSpace(s, i) == j
    decreases j - i
  {
    if i < j {
      SkipIs(s, i + 1, j);
    }
  }

  /** White space in front of a token does not matter. */
  lemma TokenSkips(s: string, i: nat)
    requires i <= |s|
    ensures GetToken(s, SkipSpace(s, i)) == GetToken(s, i) && Toks(s, SkipSpace(s, i)) == Toks(s, i)
  {
    hide SkipSpace, WordEnd;
    SkipTwice(s, i);
  }

  /** What may stand behind token t. */
  predicate Ends(t: Tok, s: string, j: nat)
    requires j <= |s|
  {
    && (t.TWord? && j < |s| ==> !WordChar(s[j]))
    && (t == TSym('>') && j < |s| ==> s[j] != '>')
  }

  lemma SpelledAt(s: string, i: nat, gap: string, x: string, j: nat)
    requires j == i + |gap| + |x| <= |s| && s[i..j] == gap + x && Blank(gap) && x != "" && !Space(x[0])
    ensures SkipSpace(s, i) == i + |gap| && s[i + |gap|..j] == x && forall k :: i + |gap| <= k < j ==> s[k] == x[k - i - |gap|]
  {
    hide SkipSpace;
    forall k | i <= k < j
      ensures s[k] == (gap + x)[k - i]
    {
      assert s[i..j][k - i] == s[k];
    }
    SkipIs(s, i, i + |gap|);
  }

  lemma OneToken(s: string, i: nat, gap: string, t: Tok, j: nat)
    requires j == i + |gap| + |Spell(t)| <= |s| && s[i..j] == gap + Spell(t) && Blank(gap) && GoodTok(t) && Ends(t, s, j)
    ensures var q := i + |gap|; GetToken(s, i) == Token(if t.TWord? then 'a' else t.c, q, j, SkipSpace(s, j)) && TokOf(s, GetToken(s, i)) == t
    ensures Spell(t) != ""
  {
    hide SkipSpace, WordEnd, Blank;
    SpelledAt(s, i, gap, Spell(t), j);
    if t.TWord? {
      WordEndIs(s, i + |gap|, j);
    }
  }

  lemma {:induction false} Takes(s: string, i: nat, ps: seq<Piece>, tail: string)
    requires i <= |s| && s[i..] == Written(ps, tail) && WellSpaced(ps) && Blank(tail)
    ensures Toks(s, i) == TokensOf(ps)
    decreases |ps|
  {
    if ps == [] {
      SkipIs(s, i, |s|);
    } else {
      var gap, t, rest := ps[0].gap, ps[0].tok, Written(ps[1..], tail);
      var j := i + |gap| + |Spell(t)|;
      assert s[i..] == gap + (Spell(t) + rest);
      assert s[i..j] == s[i..][..j - i] == gap + Spell(t);
      assert s[j..] == s[i..][j - i..] == rest;
      Follows(ps, tail, s, j);
      OneToken(s, i, gap, t, j);
      Rest(ps);
      Takes(s, j, ps[1..], tail);
      TokenSkips(s, j);
    }
  }

  lemma Rest(ps: seq<Piece>)
    requires ps != [] && WellSpaced(ps)
    ensures WellSpaced(ps[1..])
  {
    assert forall k :: 0 < k < |ps[1..]| ==> Apart(ps[k].tok, ps[k + 1]);
  }

  lemma Follows(ps: seq<Piece>, tail: string, s: string, j: nat)
    requires ps != [] && WellSpaced(ps) && Blank(tail) && j <= |s| && s[j..] == Written(ps[1..], tail)
    ensures Ends(ps[0].tok, s, j)
  {
    if j < |s| {
      assert s[j..][0] == s[j];
      if |ps| > 1 {
        assert Apart(ps[0].tok, ps[1]);
        assert ps[1..][0] == ps[1];
        assert Blank(ps[1].gap) && GoodTok(ps[1].tok);
        var rest := Written(ps[1..], tail);
        assert rest[0] == if ps[1].gap != "" then ps[1].gap[0] else Spell(ps[1].tok)[0];
      }
    }
  }

  // ---- Every line is a rendering ----

  lemma GapBlank(s: string, i: nat, q: nat)
    requires i <= q <= |s| && forall k :: i <= k < q ==> Space(s[k])
    ensures Blank(s[i..q])
  {
    assert forall k :: i <= k < q ==> s[i..q][k - i] == s[k];
  }

  lemma WordSplit(s: string, q: nat, e: nat)
    requires q < e <= |s| && NUL !in s && (forall k :: q <= k < e ==> WordChar(s[k]))
    ensures Lexable(s[q..e])
  {
    hide WordChar;
    forall k | 0 <= k < e - q
      ensures WordChar(s[q..e][k]) && s[q..e][k] != NUL
    {
      assert s[q..e][k] == s[q + k] && s[q + k] in s;
    }
  }

  lemma SymbolSplit(s: string, q: nat)
    requires q < |s| && Symbol(s[q]) && NUL !in s
    ensures TokenCode(s, q) != 'a' && IsSym(TokenCode(s, q)) && TokenEnd(s, q) <= |s|
    ensures s[q..TokenEnd(s, q)] == Spell(TSym(TokenCode(s, q))) && Ends(TSym(TokenCode(s, q)), s, TokenEnd(s, q))
  {
    hide WordEnd;
  }

  lemma TokenSplit(s: string, i: nat)
    requires i <= |s| && NUL !in s && GetToken(s, i).ret != NUL
    ensures var t := GetToken(s, i); var tok := TokOf(s, t);
      && Blank(s[i..t.q]) && GoodTok(tok) && s[t.q..t.eq] == Spell(tok) && Ends(tok, s, t.eq) && SkipSpace(s, t.eq) == t.next && i < t.eq
  {
    hide WordEnd, Blank, Lexable, IsSym, Spell;
    var t := GetToken(s, i);
    GapBlank(s, i, t.q);
    assert t.q < |s| && s[t.q] in s;
    if Symbol(s[t.q]) {
      SymbolSplit(s, t.q);
    } else {
      WordSplit(s, t.q, t.eq);
      SpellWord(s[t.q..t.eq]);
    }
  }

  lemma SpellWord(w: string)
    ensures Spell(TWord(w)) == w
  {
  }

  lemma EndOfLine(s: string, i: nat)
    requires i <= |s| && NUL !in s && GetToken(s, i).ret == NUL
    ensures Blank(s[i..]) && SkipSpace(s, i) == |s|
  {
    assert forall k :: 0 <= k < |s| ==> s[k] in s;
    assert forall k :: i <= k < |s| ==> s[i..][k - i] == s[k];
  }

  lemma WrittenMore(gap: string, t: Tok, ps: seq<Piece>, tail: string)
    ensures Written([Piece(gap, t)] + ps, tail) == gap + (Spell(t) + Written(ps, tail))
    ensures TokensOf([Piece(gap, t)] + ps) == [t] + TokensOf(ps)
  {
    assert ([Piece(gap, t)] + ps)[1..] == ps;
  }

  lemma WellSpacedMore(p: Piece, ps: seq<Piece>)
    requires WellSpaced(ps) && Blank(p.gap) && GoodTok(p.tok) && (ps != [] ==> Apart(p.tok, ps[0]))
    ensures WellSpaced([p] + ps)
  {
  }

  lemma {:induction false} EveryLine(s: string, i: nat) returns (ps: seq<Piece>, tail: string)
    requires i <= |s| && NUL !in s
    ensures WellSpaced(ps) && Blank(tail) && s[i..] == Written(ps, tail) && TokensOf(ps) == Toks(s, i)
    decreases |s| - i
  {
    hide SkipSpace, WordEnd, GetToken, WellSpaced;
    var t := GetToken(s, i);
    if t.ret == NUL {
      EndOfLine(s, i);
      ps, tail := [], s[i..];
      NoPieces();
    } else {
      TokenSplit(s, i);
      var tok := TokOf(s, t);
      var more, end := EveryLine(s, t.eq);
      var p := Piece(s[i..t.q], tok);
      StartsApart(s, t.eq, tok, more, end, p);
      WellSpacedMore(p, more);
      WrittenMore(p.gap, tok, more, end);
      assert s[i..] == s[i..t.q] + (s[t.q..t.eq] + s[t.eq..]);
      TokenSkips(s, t.eq);
      ps, tail := [p] + more, end;
    }
  }

  lemma NoPieces()
    ensures WellSpaced([])
  {
  }

  lemma StartsApart(s: string, j: nat, t: Tok, ps: seq<Piece>, tail: string, p: Piece)
    requires j <= |s| && Ends(t, s, j) && s[j..] == Written(ps, tail) && WellSpaced(ps)
    ensures ps != [] ==> Apart(t, ps[0])
  {
    if ps != [] && ps[0].gap == "" {
      assert GoodTok(ps[0].tok);
      assert s[j..][0] == s[j] && s[j] == Spell(ps[0].tok)[0];
    }
  }

  /** For every line without a NUL: gettoken's tokens are the only ones that it is a rendering of. */
  lemma LexerLaw(s: string, toks: seq<Tok>)
    requires NUL !in s
    ensures toks == Toks(s, 0) <==> exists ps: seq<Piece>, tail: string :: WellSpaced(ps) && Blank(tail) && s == Written(ps, tail) && toks == TokensOf(ps)
  {
    hide SkipSpace, WordEnd, GetToken, WellSpaced, Toks;
    assert s[0..] == s;
    var ps0, tail0 := EveryLine(s, 0);
    forall ps: seq<Piece>, tail: string | WellSpaced(ps) && Blank(tail) && s == Written(ps, tail)
      ensures TokensOf(ps) == Toks(s, 0)
    {
      Takes(s, 0, ps, tail);
    }
    if toks == Toks(s, 0) {
      assert WellSpaced(ps0) && Blank(tail0) && s == Written(ps0, tail0) && toks == TokensOf(ps0);
    }
  }
}
