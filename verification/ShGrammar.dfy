/**
 The language of sh.c's parser as a grammar over tokens, and what its phrases mean.  The parser
 accepts a line exactly if its tokens are a phrase, and its tree is the meaning of the phrase.
 */
module ShGrammar {
  import opened ShLex
  import opened ShParse
  import opened ShTokens
  import opened ShTree

  /** '<', '>' or '+', and a file name. */
  datatype Redirection = Redirection(sym: char, file: string)

  datatype Item = IWord(w: string) | IRedir(r: Redirection)

  datatype GCmd = Simple(items: seq<Item>) | Group(line: GLine, redirs: seq<Redirection>)
  datatype GPipe = One(cmd: GCmd) | Piped(cmd: GCmd, rest: GPipe)
  /** A pipeline with any number of '&' behind it, and perhaps ';' and a line. */
  datatype GLine = Last(pipe: GPipe, amps: nat) | Then(pipe: GPipe, amps: nat, rest: GLine)

  // ---- The tokens of a phrase ----

  function RedirToks(rs: seq<Redirection>): seq<Tok>
  {
    if rs == [] then [] else [TSym(rs[0].sym), TWord(rs[0].file)] + RedirToks(rs[1..])
  }

  function ItemToks(items: seq<Item>): seq<Tok>
  {
    if items == [] then []
    else (match items[0] case IWord(w) => [TWord(w)] case IRedir(r) => [TSym(r.sym), TWord(r.file)]) + ItemToks(items[1..])
  }

  function CmdToks(g: GCmd): seq<Tok>
    decreases g, 0
  {
    match g
    case Simple(items) => ItemToks(items)
    case Group(l, rs) => [TSym('(')] + (LineToks(l) + ([TSym(')')] + RedirToks(rs)))
  }

  function PipeToks(g: GPipe): seq<Tok>
    decreases g, 1
  {
    match g
    case One(c) => CmdToks(c)
    case Piped(c, rest) => CmdToks(c) + ([TSym('|')] + PipeToks(rest))
  }

  function Amps(n: nat): seq<Tok>
  {
    if n == 0 then [] else [TSym('&')] + Amps(n - 1)
  }

  function LineToks(g: GLine): seq<Tok>
    decreases g, 2
  {
    match g
    case Last(p, n) => PipeToks(p) + Amps(n)
    case Then(p, n, rest) => PipeToks(p) + (Amps(n) + ([TSym(';')] + LineToks(rest)))
  }

  // ---- Well-formed phrases ----

  predicate GoodRedirs(rs: seq<Redirection>) {
    forall k :: 0 <= k < |rs| ==> rs[k].sym == '<' || rs[k].sym == '>' || rs[k].sym == '+'
  }

  function Words(items: seq<Item>): seq<string>
  {
    if items == [] then [] else (if items[0].IWord? then [items[0].w] else []) + Words(items[1..])
  }

  function Reds(items: seq<Item>): seq<Redirection>
  {
    if items == [] then [] else (if items[0].IRedir? then [items[0].r] else []) + Reds(items[1..])
  }

  predicate GoodCmd(g: GCmd)
    decreases g, 0
  {
    match g
    case Simple(items) => |Words(items)| <= MAXARGS - 1 && GoodRedirs(Reds(items))
    case Group(l, rs) => GoodLine(l) && GoodRedirs(rs)
  }

  predicate GoodPipe(g: GPipe)
    decreases g, 1
  {
    match g
    case One(c) => GoodCmd(c)
    case Piped(c, rest) => GoodCmd(c) && GoodPipe(rest)
  }

  predicate GoodLine(g: GLine)
    decreases g, 2
  {
    match g
    case Last(p, _) => GoodPipe(p)
    case Then(p, _, rest) => GoodPipe(p) && GoodLine(rest)
  }

  // ---- What a phrase means ----

  /** Redirections apply one after the other, the first one innermost. */
  function Wrap(t: Tree, rs: seq<Redirection>): Tree
    decreases |rs|
  {
    if rs == [] then t else Wrap(TRedir(t, rs[0].file, if rs[0].sym == '<' then In else Out), rs[1..])
  }

  /** The words in order are the arguments; redirections may stand anywhere among them. */
  function CmdMeans(g: GCmd): Tree
    decreases g, 0
  {
    match g
    case Simple(items) => Wrap(TExec(Words(items)), Reds(items))
    case Group(l, rs) => Wrap(LineMeans(l), rs)
  }

  function PipeMeans(g: GPipe): Tree
    decreases g, 1
  {
    match g
    case One(c) => CmdMeans(c)
    case Piped(c, rest) => TPipe(CmdMeans(c), PipeMeans(rest))
  }

  function InBack(t: Tree, n: nat): Tree
    decreases n
  {
    if n == 0 then t else InBack(TBack(t), n - 1)
  }

  function LineMeans(g: GLine): Tree
    decreases g, 2
  {
    match g
    case Last(p, n) => InBack(PipeMeans(p), n)
    case Then(p, n, rest) => TList(InBack(PipeMeans(p), n), LineMeans(rest))
  }

  // ---- Looking at the next token ----

  /** The character that peek sees. */
  function Head(ts: seq<Tok>): char
  {
    if ts == [] then NUL else if ts[0].TWord? then 'a' else if ts[0].c == '+' then '>' else ts[0].c
  }

  lemma PeekHead(s: string, i: nat)
    requires i <= |s|
    ensures var h := Head(Toks(s, i)); var c := CharAt(s, SkipSpace(s, i));
      (Symbol(c) <==> Symbol(h)) && (Symbol(c) ==> h == c) && (Toks(s, i) == [] <==> c == NUL)
  {
    hide SkipSpace, WordEnd;
  }

  /** peek for some symbols sees the next token. */
  lemma PeekIs(s: string, i: nat, syms: string)
    requires i <= |s| && forall k :: 0 <= k < |syms| ==> Symbol(syms[k])
    ensures Peeks(s, i, syms) <==> Head(Toks(s, i)) in syms
  {
    hide SkipSpace, Toks, Head;
    PeekHead(s, i);
    var h, c := Head(Toks(s, i)), CharAt(s, SkipSpace(s, i));
    assert !Symbol(NUL);
    if h in syms {
      assert Symbol(h);
    }
    if c in syms {
      assert Symbol(c);
    }
  }

  /** gettoken takes off the next token. */
  lemma NextTok(s: string, i: nat)
    requires i <= |s|
    ensures var t := GetToken(s, SkipSpace(s, i));
      && t == GetToken(s, i) && (t.ret == NUL <==> Toks(s, i) == [])
      && (Toks(s, i) != [] ==> Toks(s, i)[0] == TokOf(s, t) && Toks(s, t.next) == Toks(s, i)[1..])
      && Toks(s, SkipSpace(s, i)) == Toks(s, i)
  {
    hide SkipSpace, GetToken;
    TokenSkips(s, i);
  }

  lemma NoTok(s: string, i: nat)
    requires i <= |s| && Toks(s, i) == []
    ensures Toks(s, GetToken(s, i).next) == []
  {
    hide WordEnd;
    SkipTwice(s, i);
  }

  lemma SymTok(s: string, t: Token, c: char)
    requires t.q <= t.eq <= |s| && TokOf(s, t) == TSym(c)
    ensures t.ret == c && t.ret != 'a'
  {
  }
}
