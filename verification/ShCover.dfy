/** Whatever the parser accepts is a well-formed phrase. */
module ShCover {
  import opened ShLex
  import opened ShParse
  import opened ShTokens
  import opened ShTree
  import opened ShGrammar
  import opened ShAccept

  // ---- Redirections ----

  /** parseredirs sees a redirection symbol, and takes it and a file name. */
  lemma RedirsTake(s: string, cmd: Cmd, i: nat) returns (r: Redirection, w: Word, next: nat)
    requires i <= |s| && Redirs(s, cmd, i).Ok? && !NoRedirs(Toks(s, i))
    ensures i < next <= |s| && (r.sym == '<' || r.sym == '>' || r.sym == '+') && Toks(s, i) == [TSym(r.sym), TWord(r.file)] + Toks(s, next)
    ensures Redirs(s, cmd, i) == Redirs(s, Redir(cmd, w, if r.sym == '<' then In else Out), next)
  {
    hide Peeks, GetToken, SkipSpace, Toks, Redirs;
    PeekIs(s, i, "<>");
    RedirsSkip(s, cmd, i);
    RedirsStep(s, cmd, SkipSpace(s, i));
    NextTok(s, i);
    NextTok(s, SkipSpace(s, i));
    PeekAdvances(s, i, "<>");
    var tok := GetToken(s, SkipSpace(s, i));
    var f := GetToken(s, tok.next);
    NextTok(s, tok.next);
    TokenOrder(s, tok.next);
    r, w, next := Redirection(tok.ret, s[f.q..f.eq]), Word(f.q, f.eq), f.next;
    assert Toks(s, i) == [Toks(s, i)[0]] + Toks(s, tok.next);
    assert Toks(s, tok.next) == [Toks(s, tok.next)[0]] + Toks(s, next);
  }

  lemma TokenOrder(s: string, i: nat)
    requires i <= |s|
    ensures var t := GetToken(s, i); i <= t.q <= t.eq <= t.next <= |s|
  {
  }

  lemma {:induction false} RedirsCover(s: string, cmd: Cmd, i: nat) returns (rs: seq<Redirection>)
    requires i <= |s| && Redirs(s, cmd, i).Ok?
    ensures Toks(s, i) == RedirToks(rs) + Toks(s, Redirs(s, cmd, i).pos) && GoodRedirs(rs)
    decreases |s| - i
  {
    hide Toks, Redirs, NoRedirs;
    if NoRedirs(Toks(s, i)) {
      RedirsEnd(s, cmd, i);
      rs := [];
    } else {
      var r, w, next := RedirsTake(s, cmd, i);
      var more := RedirsCover(s, Redir(cmd, w, if r.sym == '<' then In else Out), next);
      rs := [r] + more;
      assert rs[1..] == more;
    }
  }

  // ---- Simple commands ----

  function AsItems(rs: seq<Redirection>): seq<Item>
  {
    if rs == [] then [] else [IRedir(rs[0])] + AsItems(rs[1..])
  }

  lemma OneRedir(r: Redirection, items: seq<Item>)
    ensures ItemToks([IRedir(r)] + items) == [TSym(r.sym), TWord(r.file)] + ItemToks(items)
    ensures Words([IRedir(r)] + items) == Words(items) && Reds([IRedir(r)] + items) == [r] + Reds(items)
  {
    assert ([IRedir(r)] + items)[1..] == items;
  }

  lemma {:induction false} AsItemsIs(rs: seq<Redirection>, items: seq<Item>)
    ensures ItemToks(AsItems(rs) + items) == RedirToks(rs) + ItemToks(items)
    ensures Words(AsItems(rs) + items) == Words(items) && Reds(AsItems(rs) + items) == rs + Reds(items)
    decreases |rs|
  {
    hide ItemToks, Words, Reds;
    if rs == [] {
      assert [] + items == items;
    } else {
      AsItemsIs(rs[1..], items);
      OneRedir(rs[0], AsItems(rs[1..]) + items);
      assert AsItems(rs) + items == [IRedir(rs[0])] + (AsItems(rs[1..]) + items);
      assert [rs[0]] + (rs[1..] + Reds(items)) == rs + Reds(items);
    }
  }

  lemma GoodJoin(rs: seq<Redirection>, more: seq<Redirection>)
    requires GoodRedirs(rs) && GoodRedirs(more)
    ensures GoodRedirs(rs + more)
  {
  }

  /** The loop of parseexec goes on only with a word. */
  lemma ArgsTake(s: string, ret: Cmd, argc: nat, i: nat) returns (w: string, ret': Cmd, next: nat)
    requires i <= |s| && Args(s, ret, argc, i).Ok? && !Stops(Toks(s, i))
    ensures i < next <= |s| && argc + 1 < MAXARGS && Toks(s, i) == [TWord(w)] + Toks(s, next)
    ensures var r := Redirs(s, ret', next); r.Ok? && Args(s, ret, argc, i) == Args(s, r.cmd, argc + 1, r.pos)
  {
    hide Peeks, GetToken, SkipSpace, Toks, Args, Redirs, AddArg;
    PeekIs(s, i, "|)&;");
    ArgsSkip(s, ret, argc, i);
    ArgsStep(s, ret, argc, SkipSpace(s, i));
    NextTok(s, i);
    NextTok(s, SkipSpace(s, i));
    var t := GetToken(s, SkipSpace(s, i));
    TokenOrder(s, SkipSpace(s, i));
    TokenAdvances(s, i);
    w, ret', next := s[t.q..t.eq], AddArg(ret, Word(t.q, t.eq)), t.next;
    assert Toks(s, i) == [Toks(s, i)[0]] + Toks(s, next);
  }

  lemma ArgsStopAt(s: string, ret: Cmd, argc: nat, i: nat)
    requires i <= |s| && Stops(Toks(s, i))
    ensures Args(s, ret, argc, i).Ok? && Toks(s, Args(s, ret, argc, i).pos) == Toks(s, i)
  {
    hide Peeks, GetToken, SkipSpace, Toks, Args;
    PeekIs(s, i, "|)&;");
    ArgsSkip(s, ret, argc, i);
    ArgsStep(s, ret, argc, SkipSpace(s, i));
    NextTok(s, i);
    if Toks(s, i) == [] {
      NoTok(s, i);
    }
  }

  lemma {:induction false} ArgsCover(s: string, ret: Cmd, argc: nat, i: nat) returns (items: seq<Item>)
    requires i <= |s| && Args(s, ret, argc, i).Ok?
    ensures Toks(s, i) == ItemToks(items) + Toks(s, Args(s, ret, argc, i).pos) && GoodRedirs(Reds(items))
    ensures Words(items) == [] || argc + |Words(items)| < MAXARGS
    ensures Stops(Toks(s, Args(s, ret, argc, i).pos))
    decreases |s| - i
  {
    hide Toks, Args, Redirs, Stops, GoodRedirs, ItemToks, Words, Reds, RedirToks;
    if Stops(Toks(s, i)) {
      ArgsStopAt(s, ret, argc, i);
      items := [];
      FirstItem(items);
      NoneGood();
    } else {
      var w, ret', next := ArgsTake(s, ret, argc, i);
      var rs := RedirsCover(s, ret', next);
      var r := Redirs(s, ret', next);
      var more := ArgsCover(s, r.cmd, argc + 1, r.pos);
      AsItemsIs(rs, more);
      GoodJoin(rs, Reds(more));
      items := [IWord(w)] + (AsItems(rs) + more);
      assert items[1..] == AsItems(rs) + more;
      FirstItem(items);
    }
  }

  lemma NoneGood()
    ensures GoodRedirs([])
  {
  }

  lemma SimpleCover(s: string, i: nat) returns (items: seq<Item>)
    requires i <= |s| && Command(s, i).Ok? && !Peeks(s, i, "(")
    ensures Toks(s, i) == ItemToks(items) + Toks(s, Command(s, i).pos) && GoodCmd(Simple(items))
    ensures Stops(Toks(s, Command(s, i).pos))
  {
    hide Toks, Args, Redirs, Stops, GoodRedirs, ItemToks, Words, Reds, RedirToks, Command, Peeks;
    CommandIs(s, i);
    var rs := RedirsCover(s, Exec([]), i);
    var r := Redirs(s, Exec([]), i);
    var more := ArgsCover(s, r.cmd, 0, r.pos);
    AsItemsIs(rs, more);
    GoodJoin(rs, Reds(more));
    items := AsItems(rs) + more;
  }

  // ---- Commands, pipelines and lines ----

  /** The inside of a parenthesised command. */
  lemma GroupTake(s: string, i: nat) returns (j: nat, e: nat, k: nat)
    requires i <= |s| && Command(s, i).Ok? && Peeks(s, i, "(")
    ensures i < j <= e <= k <= |s| && Toks(s, i) == [TSym('(')] + Toks(s, j)
    ensures Line(s, j).Ok? && Line(s, j).pos == e && Toks(s, e) == [TSym(')')] + Toks(s, k)
    ensures Command(s, i) == Redirs(s, Line(s, j).cmd, k)
  {
    hide Line, Toks, Redirs, Peeks, SkipSpace, GetToken;
    PeekIs(s, i, "(");
    PeekTwice(s, i, "(");
    PeekAdvances(s, i, "(");
    NextTok(s, i);
    NextTok(s, SkipSpace(s, i));
    j := GetToken(s, SkipSpace(s, i)).next;
    HeadSym(s, i, '(');
    e := Line(s, j).pos;
    PeekIs(s, e, ")");
    NextTok(s, e);
    HeadSym(s, e, ')');
    PeekAdvances(s, e, ")");
    k := GetToken(s, SkipSpace(s, e)).next;
  }

  lemma HeadSym(s: string, i: nat, c: char)
    requires i <= |s| && Head(Toks(s, i)) == c && Symbol(c) && c != '>'
    ensures Toks(s, i) == [TSym(c)] + Toks(s, GetToken(s, SkipSpace(s, i)).next)
  {
    hide Toks, SkipSpace, GetToken;
    NextTok(s, i);
    assert Toks(s, i) == [Toks(s, i)[0]] + Toks(s, i)[1..];
  }

  lemma {:induction false} CmdCover(s: string, i: nat) returns (g: GCmd)
    requires i <= |s| && Command(s, i).Ok?
    ensures Toks(s, i) == CmdToks(g) + Toks(s, Command(s, i).pos) && GoodCmd(g)
    decreases |s| - i, 1
  {
    hide Toks, Command, Redirs, Peeks, Line, GoodRedirs, ItemToks, RedirToks, LineToks;
    if Peeks(s, i, "(") {
      var j, e, k := GroupTake(s, i);
      var l := LineCover(s, j);
      var rs := RedirsCover(s, Line(s, j).cmd, k);
      g := Group(l, rs);
      assert [TSym('(')] + (LineToks(l) + ([TSym(')')] + (RedirToks(rs) + Toks(s, Command(s, i).pos)))) == CmdToks(g) + Toks(s, Command(s, i).pos);
    } else {
      var items := SimpleCover(s, i);
      g := Simple(items);
    }
  }

  lemma PipeTake(s: string, i: nat) returns (j: nat, next: nat)
    requires i <= |s| && Pipeline(s, i).Ok?
    ensures Command(s, i).Ok? && Command(s, i).pos == j <= |s|
    ensures Head(Toks(s, j)) != '|' ==> Toks(s, Pipeline(s, i).pos) == Toks(s, j)
    ensures Head(Toks(s, j)) == '|' ==>
      i < next <= |s| && Toks(s, j) == [TSym('|')] + Toks(s, next) && Pipeline(s, next).Ok? && Pipeline(s, i).pos == Pipeline(s, next).pos
  {
    hide Command, Toks, Peeks, SkipSpace, GetToken;
    j := Command(s, i).pos;
    PeekIs(s, j, "|");
    NextTok(s, j);
    next := 0;
    if Head(Toks(s, j)) == '|' {
      PeekAdvances(s, j, "|");
      HeadSym(s, j, '|');
      next := GetToken(s, SkipSpace(s, j)).next;
    }
  }

  lemma {:induction false} PipeCover(s: string, i: nat) returns (g: GPipe)
    requires i <= |s| && Pipeline(s, i).Ok?
    ensures Toks(s, i) == PipeToks(g) + Toks(s, Pipeline(s, i).pos) && GoodPipe(g)
    decreases |s| - i, 2
  {
    hide Toks, Command, Pipeline, CmdToks, GoodCmd, Head;
    var j, next := PipeTake(s, i);
    var c := CmdCover(s, i);
    if Head(Toks(s, j)) == '|' {
      var rest := PipeCover(s, next);
      g := Piped(c, rest);
      assert CmdToks(c) + ([TSym('|')] + (PipeToks(rest) + Toks(s, Pipeline(s, i).pos))) == PipeToks(g) + Toks(s, Pipeline(s, i).pos);
    } else {
      g := One(c);
    }
  }

  lemma {:induction false} AmpsCover(s: string, cmd: Cmd, i: nat) returns (n: nat)
    requires i <= |s|
    ensures Backs(s, cmd, i).Ok? && i <= Backs(s, cmd, i).pos <= |s| && Toks(s, i) == Amps(n) + Toks(s, Backs(s, cmd, i).pos)
    decreases |s| - i
  {
    hide Toks, Peeks, SkipSpace, GetToken, Backs, Head;
    PeekIs(s, i, "&");
    NextTok(s, i);
    BacksSkip(s, cmd, i);
    BacksStep(s, cmd, SkipSpace(s, i));
    n := 0;
    if Head(Toks(s, i)) == '&' {
      PeekAdvances(s, i, "&");
      HeadSym(s, i, '&');
      n := AmpsCover(s, Back(cmd), GetToken(s, SkipSpace(s, i)).next);
      n := n + 1;
    }
  }

  lemma LineTake(s: string, i: nat) returns (e: nat, next: nat)
    requires i <= |s| && Line(s, i).Ok?
    ensures Pipeline(s, i).Ok? && Pipeline(s, i).pos <= |s| && Backs(s, Pipeline(s, i).cmd, Pipeline(s, i).pos).pos == e <= |s|
    ensures Head(Toks(s, e)) != ';' ==> Toks(s, Line(s, i).pos) == Toks(s, e)
    ensures Head(Toks(s, e)) == ';' ==>
      i < next <= |s| && Toks(s, e) == [TSym(';')] + Toks(s, next) && Line(s, next).Ok? && Line(s, i).pos == Line(s, next).pos
  {
    hide Pipeline, Toks, Peeks, SkipSpace, GetToken, Backs;
    var r := Pipeline(s, i);
    e := Backs(s, r.cmd, r.pos).pos;
    PeekIs(s, e, ";");
    NextTok(s, e);
    next := 0;
    if Head(Toks(s, e)) == ';' {
      PeekAdvances(s, e, ";");
      HeadSym(s, e, ';');
      next := GetToken(s, SkipSpace(s, e)).next;
    }
  }

  lemma {:induction false} LineCover(s: string, i: nat) returns (g: GLine)
    requires i <= |s| && Line(s, i).Ok?
    ensures Toks(s, i) == LineToks(g) + Toks(s, Line(s, i).pos) && GoodLine(g)
    decreases |s| - i, 3
  {
    hide Toks, Line, Pipeline, Backs, PipeToks, GoodPipe, Head, Amps;
    var e, next := LineTake(s, i);
    var p := PipeCover(s, i);
    var n := AmpsCover(s, Pipeline(s, i).cmd, Pipeline(s, i).pos);
    if Head(Toks(s, e)) == ';' {
      var rest := LineCover(s, next);
      g := Then(p, n, rest);
      assert PipeToks(p) + (Amps(n) + ([TSym(';')] + (LineToks(rest) + Toks(s, Line(s, i).pos)))) == LineToks(g) + Toks(s, Line(s, i).pos);
    } else {
      g := Last(p, n);
      assert PipeToks(p) + (Amps(n) + Toks(s, Line(s, i).pos)) == LineToks(g) + Toks(s, Line(s, i).pos);
    }
  }

  // ---- The language ----

  lemma AtEnd(s: string, i: nat)
    requires i <= |s| && NUL !in s
    ensures Toks(s, i) == [] <==> SkipSpace(s, i) == |s|
  {
    hide SkipSpace, WordEnd;
    PeekHead(s, i);
    var q := SkipSpace(s, i);
    assert q < |s| ==> s[q] in s;
  }

  ghost predicate Phrase(g: GLine, toks: seq<Tok>, t: Tree) {
    GoodLine(g) && LineToks(g) == toks && LineMeans(g) == t
  }

  /** For every line: parsecmd returns a tree exactly if the tokens of the line are a phrase that means it, and panics on all others. */
  lemma ParserLaw(s: string, t: Tree)
    requires NUL !in s
    ensures Whole(s).Ok? && Denote(s, Whole(s).cmd) == t <==> exists g :: Phrase(g, Toks(s, 0), t)
  {
    hide Toks, Line, LineToks, LineMeans, GoodLine, SkipSpace;
    if Whole(s).Ok? {
      var r := Line(s, 0);
      AtEnd(s, r.pos);
      var g := LineCover(s, 0);
      assert LineToks(g) + [] == LineToks(g);
      LineAccept(s, 0, g, []);
      assert Phrase(g, Toks(s, 0), Denote(s, Whole(s).cmd));
    }
    forall g | Phrase(g, Toks(s, 0), t)
      ensures Whole(s).Ok? && Denote(s, Whole(s).cmd) == t
    {
      assert LineToks(g) + [] == LineToks(g);
      LineAccept(s, 0, g, []);
      AtEnd(s, Line(s, 0).pos);
    }
  }

  lemma SimplePhrase(items: seq<Item>)
    requires |Words(items)| <= MAXARGS - 1 && GoodRedirs(Reds(items))
    ensures Phrase(Last(One(Simple(items)), 0), ItemToks(items), Wrap(TExec(Words(items)), Reds(items)))
  {
    hide ItemToks, Words, Reds, GoodRedirs;
    var c := Simple(items);
    assert CmdToks(c) == ItemToks(items) && CmdMeans(c) == Wrap(TExec(Words(items)), Reds(items)) && GoodCmd(c);
    assert PipeToks(One(c)) == CmdToks(c) && PipeMeans(One(c)) == CmdMeans(c) && GoodPipe(One(c));
    assert Amps(0) == [] && InBack(PipeMeans(One(c)), 0) == PipeMeans(One(c));
    assert PipeToks(One(c)) + [] == PipeToks(One(c));
  }

  /** A simple command: words and redirections in any order, however spaced, give exactly these words in order inside exactly these redirections in order. */
  lemma SimpleCommands(s: string, ps: seq<Piece>, tail: string, items: seq<Item>)
    requires NUL !in s && WellSpaced(ps) && Blank(tail) && s == Written(ps, tail) && TokensOf(ps) == ItemToks(items)
    requires |Words(items)| <= MAXARGS - 1 && GoodRedirs(Reds(items))
    ensures Whole(s).Ok? && Denote(s, Whole(s).cmd) == Wrap(TExec(Words(items)), Reds(items))
  {
    hide Toks, Whole, ItemToks, Words, Reds, GoodRedirs, WellSpaced, Written;
    LexerLaw(s, TokensOf(ps));
    SimplePhrase(items);
    ParserLaw(s, Wrap(TExec(Words(items)), Reds(items)));
  }
}
