/**
 Printing a command with every operand in parentheses and parsing it again gives the command back.
 */
module ShPrint {
  import opened ShLex
  import opened ShParse
  import opened ShTokens
  import opened ShTree
  import opened ShGrammar
  import opened ShAccept
  import opened ShCover

  predicate Printable(t: Tree) {
    match t
    case TExec(args) => |args| <= MAXARGS - 1 && forall k :: 0 <= k < |args| ==> Lexable(args[k])
    case TRedir(c, f, _) => Printable(c) && Lexable(f)
    case TPipe(l, r) => Printable(l) && Printable(r)
    case TList(l, r) => Printable(l) && Printable(r)
    case TBack(c) => Printable(c)
  }

  function PrintArgs(args: seq<string>): string
  {
    if |args| == 0 then "" else if |args| == 1 then args[0] else args[0] + " " + PrintArgs(args[1..])
  }

  function Paren(t: Tree): string
    decreases t, 1
  {
    "(" + Print(t) + ")"
  }

  function Print(t: Tree): string
    decreases t, 0
  {
    match t
    case TExec(args) => PrintArgs(args)
    case TRedir(c, f, m) => Paren(c) + ((if m == In then "<" else ">") + f)
    case TPipe(l, r) => Paren(l) + ("|" + Paren(r))
    case TList(l, r) => Paren(l) + (";" + Paren(r))
    case TBack(c) => Paren(c) + "&"
  }

  // ---- The phrase that is printed ----

  function WordItems(args: seq<string>): seq<Item>
  {
    if args == [] then [] else [IWord(args[0])] + WordItems(args[1..])
  }

  function Grouped(t: Tree): GCmd
    decreases t, 1
  {
    Group(PhraseOf(t), [])
  }

  function PhraseOf(t: Tree): GLine
    decreases t, 0
  {
    match t
    case TExec(args) => Last(One(Simple(WordItems(args))), 0)
    case TRedir(c, f, m) => Last(One(Group(PhraseOf(c), [Redirection(if m == In then '<' else '>', f)])), 0)
    case TPipe(l, r) => Last(Piped(Grouped(l), One(Grouped(r))), 0)
    case TList(l, r) => Then(One(Grouped(l)), 0, Last(One(Grouped(r)), 0))
    case TBack(c) => Last(One(Grouped(c)), 1)
  }

  lemma {:induction false} WordItemsAre(args: seq<string>)
    ensures Words(WordItems(args)) == args && Reds(WordItems(args)) == []
    decreases |args|
  {
    if args != [] {
      WordItemsAre(args[1..]);
      assert WordItems(args)[1..] == WordItems(args[1..]);
    }
  }

  lemma OneIs(c: GCmd, n: nat)
    requires n <= 1
    ensures LineToks(Last(One(c), n)) == CmdToks(c) + Amps(n) && (GoodLine(Last(One(c), n)) <==> GoodCmd(c))
    ensures LineMeans(Last(One(c), n)) == if n == 0 then CmdMeans(c) else TBack(CmdMeans(c))
    ensures Amps(n) == if n == 0 then [] else [TSym('&')]
  {
    hide CmdToks, CmdMeans, GoodCmd;
    var t := CmdMeans(c);
    assert PipeToks(One(c)) == CmdToks(c) && PipeMeans(One(c)) == t && GoodPipe(One(c)) == GoodCmd(c);
    assert InBack(t, 0) == t && InBack(TBack(t), 0) == TBack(t);
    assert Amps(0) == [];
  }

  lemma PipedIs(c: GCmd, d: GCmd)
    ensures LineToks(Last(Piped(c, One(d)), 0)) == CmdToks(c) + ([TSym('|')] + CmdToks(d))
    ensures GoodLine(Last(Piped(c, One(d)), 0)) <==> GoodCmd(c) && GoodCmd(d)
    ensures LineMeans(Last(Piped(c, One(d)), 0)) == TPipe(CmdMeans(c), CmdMeans(d))
  {
    hide CmdToks, CmdMeans, GoodCmd;
    assert PipeToks(One(d)) == CmdToks(d) && PipeMeans(One(d)) == CmdMeans(d) && GoodPipe(One(d)) == GoodCmd(d);
    var p := Piped(c, One(d));
    assert PipeToks(p) == CmdToks(c) + ([TSym('|')] + CmdToks(d)) && PipeMeans(p) == TPipe(CmdMeans(c), CmdMeans(d));
    assert GoodPipe(p) == (GoodCmd(c) && GoodCmd(d));
    assert InBack(PipeMeans(p), 0) == PipeMeans(p) && Amps(0) == [];
    assert PipeToks(p) + [] == PipeToks(p);
  }

  lemma ThenIs(c: GCmd, d: GCmd)
    ensures LineToks(Then(One(c), 0, Last(One(d), 0))) == CmdToks(c) + ([TSym(';')] + CmdToks(d))
    ensures GoodLine(Then(One(c), 0, Last(One(d), 0))) <==> GoodCmd(c) && GoodCmd(d)
    ensures LineMeans(Then(One(c), 0, Last(One(d), 0))) == TList(CmdMeans(c), CmdMeans(d))
  {
    hide CmdToks, CmdMeans, GoodCmd;
    OneIs(d, 0);
    assert PipeToks(One(c)) == CmdToks(c) && PipeMeans(One(c)) == CmdMeans(c) && GoodPipe(One(c)) == GoodCmd(c);
    assert InBack(CmdMeans(c), 0) == CmdMeans(c) && Amps(0) == [];
    assert CmdToks(d) + [] == CmdToks(d) && [] + ([TSym(';')] + CmdToks(d)) == [TSym(';')] + CmdToks(d);
  }

  lemma {:induction false} GroupIs(g: GLine, rs: seq<Redirection>)
    requires |rs| <= 1 && (rs != [] ==> rs[0].sym == '<' || rs[0].sym == '>')
    ensures CmdToks(Group(g, rs)) == [TSym('(')] + (LineToks(g) + ([TSym(')')] + RedirToks(rs))) && (GoodCmd(Group(g, rs)) <==> GoodLine(g))
    ensures rs == [] ==> CmdMeans(Group(g, rs)) == LineMeans(g) && RedirToks(rs) == []
    ensures rs != [] ==> CmdMeans(Group(g, rs)) == TRedir(LineMeans(g), rs[0].file, if rs[0].sym == '<' then In else Out)
    ensures rs != [] ==> RedirToks(rs) == [TSym(rs[0].sym), TWord(rs[0].file)]
  {
    hide LineToks, LineMeans, GoodLine;
    var t := LineMeans(g);
    assert CmdMeans(Group(g, rs)) == Wrap(t, rs);
    if rs != [] {
      var u := TRedir(t, rs[0].file, if rs[0].sym == '<' then In else Out);
      assert rs[1..] == [];
      assert RedirToks([]) == [] && Wrap(u, []) == u;
    }
  }

  lemma {:induction false} PhraseMeans(t: Tree)
    requires Printable(t)
    ensures GoodLine(PhraseOf(t)) && LineMeans(PhraseOf(t)) == t
    decreases t
  {
    hide GoodLine, LineMeans, LineToks;
    match t
    case TExec(args) =>
      WordItemsAre(args);
      OneIs(Simple(WordItems(args)), 0);
    case TRedir(c, f, m) =>
      var rs := [Redirection(if m == In then '<' else '>', f)];
      PhraseMeans(c);
      GroupIs(PhraseOf(c), rs);
      OneIs(Group(PhraseOf(c), rs), 0);
    case TPipe(l, r) =>
      PhraseMeans(l);
      PhraseMeans(r);
      GroupIs(PhraseOf(l), []);
      GroupIs(PhraseOf(r), []);
      PipedIs(Grouped(l), Grouped(r));
    case TList(l, r) =>
      PhraseMeans(l);
      PhraseMeans(r);
      GroupIs(PhraseOf(l), []);
      GroupIs(PhraseOf(r), []);
      ThenIs(Grouped(l), Grouped(r));
    case TBack(c) =>
      PhraseMeans(c);
      GroupIs(PhraseOf(c), []);
      OneIs(Grouped(c), 1);
  }

  // ---- Its text ----

  /** x is a rendering of toks, without white space in front or behind, that starts and ends with the given tokens. */
  ghost predicate Spells(x: string, toks: seq<Tok>, ps: seq<Piece>) {
    WellSpaced(ps) && Written(ps, "") == x && TokensOf(ps) == toks && (ps != [] ==> ps[0].gap == "")
  }

  lemma {:induction false} WrittenConcat(a: seq<Piece>, b: seq<Piece>, tail: string)
    ensures Written(a + b, tail) == Written(a, "") + Written(b, tail) && TokensOf(a + b) == TokensOf(a) + TokensOf(b)
    decreases |a|
  {
    hide Spell;
    if a == [] {
      assert a + b == b;
    } else {
      assert (a + b)[1..] == a[1..] + b && (a + b)[0] == a[0];
      WrittenConcat(a[1..], b, tail);
      Regroup(a[0].gap, Spell(a[0].tok), Written(a[1..], ""), Written(b, tail));
      TokensConcat(a, b);
    }
  }

  lemma Regroup(x: string, y: string, p: string, q: string)
    ensures x + (y + (p + q)) == (x + (y + p)) + q
  {
  }

  lemma {:induction false} TokensConcat(a: seq<Piece>, b: seq<Piece>)
    ensures TokensOf(a + b) == TokensOf(a) + TokensOf(b)
    decreases |a|
  {
    if a == [] {
      assert a + b == b;
    } else {
      assert (a + b)[1..] == a[1..] + b && (a + b)[0] == a[0];
      TokensConcat(a[1..], b);
    }
  }

  predicate Joins(a: seq<Piece>, b: seq<Piece>) {
    a != [] && b != [] ==> Apart(a[|a| - 1].tok, b[0])
  }

  lemma WellSpacedConcat(a: seq<Piece>, b: seq<Piece>)
    requires WellSpaced(a) && WellSpaced(b) && Joins(a, b)
    ensures WellSpaced(a + b)
  {
  }

  lemma Join(x: string, s: seq<Tok>, a: seq<Piece>, y: string, t: seq<Tok>, b: seq<Piece>)
    requires Spells(x, s, a) && Spells(y, t, b) && Joins(a, b)
    ensures Spells(x + y, s + t, a + b)
  {
    hide WellSpaced, Written, TokensOf, Joins;
    WrittenConcat(a, b, "");
    WellSpacedConcat(a, b);
  }

  lemma Symbol1(c: char)
    requires Symbol(c)
    ensures Spells([c], [TSym(c)], [Piece("", TSym(c))])
  {
    assert Written([], "") == "" && TokensOf([]) == [];
  }

  lemma Word1(w: string)
    requires Lexable(w)
    ensures Spells(w, [TWord(w)], [Piece("", TWord(w))])
  {
    assert Written([], "") == "" && TokensOf([]) == [];
  }

  function WordPieces(args: seq<string>, gap: string): seq<Piece>
  {
    if args == [] then [] else [Piece(gap, TWord(args[0]))] + WordPieces(args[1..], " ")
  }

  function ParenPieces(t: Tree): seq<Piece>
    decreases t, 1
  {
    [Piece("", TSym('('))] + (PiecesOf(t) + [Piece("", TSym(')'))])
  }

  function PiecesOf(t: Tree): seq<Piece>
    decreases t, 0
  {
    match t
    case TExec(args) => WordPieces(args, "")
    case TRedir(c, f, m) => ParenPieces(c) + ([Piece("", TSym(if m == In then '<' else '>'))] + [Piece("", TWord(f))])
    case TPipe(l, r) => ParenPieces(l) + ([Piece("", TSym('|'))] + ParenPieces(r))
    case TList(l, r) => ParenPieces(l) + ([Piece("", TSym(';'))] + ParenPieces(r))
    case TBack(c) => ParenPieces(c) + [Piece("", TSym('&'))]
  }

  lemma {:induction false} WordsSpell(args: seq<string>, gap: string)
    requires (forall k :: 0 <= k < |args| ==> Lexable(args[k])) && (gap == "" || gap == " ")
    ensures WellSpaced(WordPieces(args, gap)) && TokensOf(WordPieces(args, gap)) == ItemToks(WordItems(args))
    ensures Written(WordPieces(args, gap), "") == (if args == [] then "" else gap) + PrintArgs(args)
    decreases |args|
  {
    hide Written, TokensOf, ItemToks, WellSpaced, PrintArgs, Lexable;
    PrintFirst(args);
    if args != [] {
      var more := WordPieces(args[1..], " ");
      WordsSpell(args[1..], " ");
      WordsApart(args, more);
      WellSpacedMore(Piece(gap, TWord(args[0])), more);
      WrittenMore(gap, TWord(args[0]), more, "");
    } else {
      NoPieces();
    }
  }

  lemma PrintFirst(args: seq<string>)
    ensures args == [] ==> PrintArgs(args) == "" && ItemToks(WordItems(args)) == [] && Written([], "") == "" && TokensOf([]) == []
    ensures args != [] ==> PrintArgs(args) == args[0] + ((if args[1..] == [] then "" else " ") + PrintArgs(args[1..]))
    ensures args != [] ==> ItemToks(WordItems(args)) == [TWord(args[0])] + ItemToks(WordItems(args[1..]))
  {
    if args != [] {
      assert WordItems(args)[1..] == WordItems(args[1..]);
      assert |args| > 1 ==> args[0] + " " + PrintArgs(args[1..]) == args[0] + (" " + PrintArgs(args[1..]));
    }
  }

  lemma WordsApart(args: seq<string>, more: seq<Piece>)
    requires args != [] && Lexable(args[0]) && more == WordPieces(args[1..], " ")
    ensures more != [] ==> Apart(TWord(args[0]), more[0])
    ensures Blank("") && Blank(" ") && GoodTok(TWord(args[0])) && Spell(TWord(args[0])) == args[0]
  {
  }

  lemma ParenSpells(t: Tree)
    requires Spells(Print(t), LineToks(PhraseOf(t)), PiecesOf(t))
    ensures Spells(Paren(t), CmdToks(Grouped(t)), ParenPieces(t))
  {
    hide Spells, LineToks, Print, PiecesOf;
    Symbol1('(');
    Symbol1(')');
    GroupIs(PhraseOf(t), []);
    Join(Print(t), LineToks(PhraseOf(t)), PiecesOf(t), ")", [TSym(')')], [Piece("", TSym(')'))]);
    Join("(", [TSym('(')], [Piece("", TSym('('))], Print(t) + ")", LineToks(PhraseOf(t)) + [TSym(')')], PiecesOf(t) + [Piece("", TSym(')'))]);
    assert "(" + (Print(t) + ")") == Paren(t);
    assert [TSym(')')] + [] == [TSym(')')];
  }

  /** Two operands with a symbol between them. */
  lemma BothSpell(l: Tree, c: char, r: Tree)
    requires Spells(Paren(l), CmdToks(Grouped(l)), ParenPieces(l)) && Spells(Paren(r), CmdToks(Grouped(r)), ParenPieces(r)) && (c == '|' || c == ';')
    ensures Spells(Paren(l) + ([c] + Paren(r)), CmdToks(Grouped(l)) + ([TSym(c)] + CmdToks(Grouped(r))), ParenPieces(l) + ([Piece("", TSym(c))] + ParenPieces(r)))
  {
    hide Spells, CmdToks, Paren, PiecesOf, Grouped;
    Symbol1(c);
    Join([c], [TSym(c)], [Piece("", TSym(c))], Paren(r), CmdToks(Grouped(r)), ParenPieces(r));
    Join(Paren(l), CmdToks(Grouped(l)), ParenPieces(l), [c] + Paren(r), [TSym(c)] + CmdToks(Grouped(r)), [Piece("", TSym(c))] + ParenPieces(r));
  }

  lemma RedirSpells(c: Tree, f: string, m: Mode)
    requires Spells(Paren(c), CmdToks(Grouped(c)), ParenPieces(c)) && Lexable(f)
    ensures Spells(Print(TRedir(c, f, m)), LineToks(PhraseOf(TRedir(c, f, m))), PiecesOf(TRedir(c, f, m)))
  {
    hide Spells, LineToks, Paren, CmdToks, ParenPieces, Lexable;
    var sym := if m == In then '<' else '>';
    var rs := [Redirection(sym, f)];
    Symbol1(sym);
    Word1(f);
    GroupIs(PhraseOf(c), []);
    GroupIs(PhraseOf(c), rs);
    OneIs(Group(PhraseOf(c), rs), 0);
    Join([sym], [TSym(sym)], [Piece("", TSym(sym))], f, [TWord(f)], [Piece("", TWord(f))]);
    ParenEnds(c);
    Join(Paren(c), CmdToks(Grouped(c)), ParenPieces(c), [sym] + f, [TSym(sym)] + [TWord(f)], [Piece("", TSym(sym))] + [Piece("", TWord(f))]);
    assert CmdToks(Grouped(c)) + ([TSym(sym)] + [TWord(f)]) == LineToks(PhraseOf(TRedir(c, f, m)));
  }

  lemma ParenEnds(t: Tree)
    ensures ParenPieces(t) != [] && ParenPieces(t)[|ParenPieces(t)| - 1].tok == TSym(')')
  {
    hide PiecesOf;
  }

  lemma BackSpells(c: Tree)
    requires Spells(Paren(c), CmdToks(Grouped(c)), ParenPieces(c))
    ensures Spells(Print(TBack(c)), LineToks(PhraseOf(TBack(c))), PiecesOf(TBack(c)))
  {
    hide Spells, LineToks, Paren, CmdToks, ParenPieces;
    Symbol1('&');
    OneIs(Grouped(c), 1);
    ParenEnds(c);
    Join(Paren(c), CmdToks(Grouped(c)), ParenPieces(c), "&", [TSym('&')], [Piece("", TSym('&'))]);
  }

  lemma {:induction false} TreeSpells(t: Tree)
    requires Printable(t)
    ensures Spells(Print(t), LineToks(PhraseOf(t)), PiecesOf(t))
    decreases t
  {
    hide LineToks, Spells, CmdToks, Paren, ParenPieces;
    match t
    case TExec(args) => ExecSpells(args);
    case TRedir(c, f, m) =>
      TreeSpells(c);
      ParenSpells(c);
      RedirSpells(c, f, m);
    case TPipe(l, r) =>
      TreeSpells(l);
      TreeSpells(r);
      ParenSpells(l);
      ParenSpells(r);
      BothSpell(l, '|', r);
      PipedIs(Grouped(l), Grouped(r));
    case TList(l, r) =>
      TreeSpells(l);
      TreeSpells(r);
      ParenSpells(l);
      ParenSpells(r);
      BothSpell(l, ';', r);
      ThenIs(Grouped(l), Grouped(r));
    case TBack(c) =>
      TreeSpells(c);
      ParenSpells(c);
      BackSpells(c);
  }

  lemma ExecSpells(args: seq<string>)
    requires forall k :: 0 <= k < |args| ==> Lexable(args[k])
    ensures Spells(Print(TExec(args)), LineToks(PhraseOf(TExec(args))), PiecesOf(TExec(args)))
  {
    hide LineToks, PrintArgs, WellSpaced, Written, ItemToks, Lexable;
    WordsSpell(args, "");
    OneIs(Simple(WordItems(args)), 0);
    assert CmdToks(Simple(WordItems(args))) + [] == ItemToks(WordItems(args));
    assert "" + PrintArgs(args) == PrintArgs(args);
  }

  lemma {:induction false} NoNul(ps: seq<Piece>)
    requires forall k :: 0 <= k < |ps| ==> Blank(ps[k].gap) && GoodTok(ps[k].tok)
    ensures NUL !in Written(ps, "")
    decreases |ps|
  {
    if ps != [] {
      NoNul(ps[1..]);
      assert Blank(ps[0].gap) && GoodTok(ps[0].tok);
    }
  }

  /** Parsing undoes printing. */
  lemma RoundTrip(t: Tree)
    requires Printable(t)
    ensures var s := Print(t); Whole(s).Ok? && Denote(s, Whole(s).cmd) == t
  {
    hide LineToks, LineMeans, GoodLine, Print, PiecesOf, Whole, Denote, Toks, Printable;
    var s := Print(t);
    TreeSpells(t);
    PhraseMeans(t);
    NoNul(PiecesOf(t));
    assert s[0..] == s;
    assert Blank("");
    Takes(s, 0, PiecesOf(t), "");
    assert Phrase(PhraseOf(t), Toks(s, 0), t);
    ParserLaw(s, t);
  }
}
