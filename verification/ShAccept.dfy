/** Every well-formed phrase is accepted, with its meaning. */
module ShAccept {
  import opened ShLex
  import opened ShParse
  import opened ShTokens
  import opened ShTree
  import opened ShGrammar

  // ---- Redirections ----

  predicate NoRedirs(ts: seq<Tok>) {
    Head(ts) != '<' && Head(ts) != '>'
  }

  /** An EXEC node with redirections around it. */
  predicate Plain(c: Cmd) {
    match c
    case Exec(_) => true
    case Redir(c, _, _) => Plain(c)
    case _ => false
  }

  /** Its arguments, and its redirections from the inside out. */
  function ArgsIn(s: string, c: Cmd): seq<string>
  {
    match c
    case Exec(args) => seq(|args|, k requires 0 <= k < |args| => Text(s, args[k]))
    case Redir(c, _, _) => ArgsIn(s, c)
    case _ => []
  }

  lemma {:induction false} WrapMore(t: Tree, rs: seq<Redirection>, r: Redirection)
    ensures Wrap(t, rs + [r]) == TRedir(Wrap(t, rs), r.file, if r.sym == '<' then In else Out)
    decreases |rs|
  {
    if rs == [] {
      assert [] + [r] == [r] && [r][1..] == [];
    } else {
      assert (rs + [r])[1..] == rs[1..] + [r];
      WrapMore(TRedir(t, rs[0].file, if rs[0].sym == '<' then In else Out), rs[1..], r);
    }
  }

  lemma {:induction false} WrapConcat(t: Tree, a: seq<Redirection>, b: seq<Redirection>)
    ensures Wrap(t, a + b) == Wrap(Wrap(t, a), b)
    decreases |a|
  {
    if a == [] {
      assert a + b == b;
    } else {
      assert (a + b)[1..] == a[1..] + b;
      WrapConcat(TRedir(t, a[0].file, if a[0].sym == '<' then In else Out), a[1..], b);
    }
  }

  /** parseredirs from i on wraps cmd into c, once for each of rs, and leaves the tokens rest. */
  ghost predicate RedirsDo(s: string, cmd: Cmd, i: nat, rs: seq<Redirection>, rest: seq<Tok>)
    requires i <= |s|
  {
    var r := Redirs(s, cmd, i);
    && r.Ok? && r.pos <= |s| && Toks(s, r.pos) == rest && Denote(s, r.cmd) == Wrap(Denote(s, cmd), rs)
    && (Plain(cmd) ==> Plain(r.cmd) && ArgsIn(s, r.cmd) == ArgsIn(s, cmd))
  }

  lemma RedirsEnd(s: string, cmd: Cmd, i: nat)
    requires i <= |s| && NoRedirs(Toks(s, i))
    ensures RedirsDo(s, cmd, i, [], Toks(s, i))
  {
    hide Peeks, GetToken, SkipSpace, Toks, Denote, ArgsIn;
    PeekIs(s, i, "<>");
    RedirsSkip(s, cmd, i);
    RedirsStep(s, cmd, SkipSpace(s, i));
    NextTok(s, i);
  }

  /** One redirection of parseredirs. */
  lemma RedirsOne(s: string, cmd: Cmd, i: nat, r: Redirection, rest: seq<Tok>) returns (w: Word, next: nat)
    requires i <= |s| && Toks(s, i) == [TSym(r.sym), TWord(r.file)] + rest && (r.sym == '<' || r.sym == '>' || r.sym == '+')
    ensures next <= |s| && Toks(s, next) == rest && Text(s, w) == r.file
    ensures Redirs(s, cmd, i) == Redirs(s, Redir(cmd, w, if r.sym == '<' then In else Out), next)
  {
    hide Peeks, GetToken, SkipSpace, Toks, Redirs;
    PeekIs(s, i, "<>");
    RedirsSkip(s, cmd, i);
    RedirsStep(s, cmd, SkipSpace(s, i));
    NextTok(s, i);
    NextTok(s, SkipSpace(s, i));
    var tok := GetToken(s, SkipSpace(s, i));
    SymTok(s, tok, r.sym);
    assert Toks(s, tok.next) == [TWord(r.file)] + rest;
    NextTok(s, tok.next);
    var f := GetToken(s, tok.next);
    w, next := Word(f.q, f.eq), f.next;
  }

  lemma {:induction false} RedirsAccept(s: string, cmd: Cmd, i: nat, rs: seq<Redirection>, rest: seq<Tok>)
    requires i <= |s| && Toks(s, i) == RedirToks(rs) + rest && GoodRedirs(rs) && NoRedirs(rest)
    ensures RedirsDo(s, cmd, i, rs, rest)
    decreases |rs|
  {
    hide Redirs, Toks, NoRedirs;
    if rs == [] {
      assert Toks(s, i) == rest;
      RedirsEnd(s, cmd, i);
    } else {
      assert RedirToks(rs) + rest == [TSym(rs[0].sym), TWord(rs[0].file)] + (RedirToks(rs[1..]) + rest);
      var w, next := RedirsOne(s, cmd, i, rs[0], RedirToks(rs[1..]) + rest);
      RedirsAccept(s, Redir(cmd, w, if rs[0].sym == '<' then In else Out), next, rs[1..], rest);
    }
  }

  // ---- Simple commands ----

  /** The end of a simple command. */
  predicate Stops(ts: seq<Tok>) {
    Head(ts) in "|)&;" || ts == []
  }

  lemma {:induction false} AddArgIs(s: string, c: Cmd, w: Word, ws: seq<string>, rs: seq<Redirection>)
    requires Plain(c) && Denote(s, c) == Wrap(TExec(ws), rs) && ArgsIn(s, c) == ws
    ensures Plain(AddArg(c, w)) && ArgsIn(s, AddArg(c, w)) == ws + [Text(s, w)]
    ensures Denote(s, AddArg(c, w)) == Wrap(TExec(ws + [Text(s, w)]), rs)
    decreases c
  {
    if c.Redir? {
      if rs != [] {
        var n := |rs| - 1;
        assert rs == rs[..n] + [rs[n]];
        WrapMore(TExec(ws), rs[..n], rs[n]);
        WrapMore(TExec(ws + [Text(s, w)]), rs[..n], rs[n]);
        AddArgIs(s, c.cmd, w, ws, rs[..n]);
      }
    } else {
      ExecWraps(ws, rs);
      assert ArgsIn(s, AddArg(c, w)) == ws + [Text(s, w)];
    }
  }

  lemma ExecWraps(ws: seq<string>, rs: seq<Redirection>)
    ensures Wrap(TExec(ws), rs).TExec? <==> rs == []
  {
    if rs != [] {
      var n := |rs| - 1;
      assert rs == rs[..n] + [rs[n]];
      WrapMore(TExec(ws), rs[..n], rs[n]);
    }
  }

  /** What parseexec has so far. */
  ghost predicate Holds(s: string, ret: Cmd, ws: seq<string>, rs: seq<Redirection>) {
    Plain(ret) && ArgsIn(s, ret) == ws && Denote(s, ret) == Wrap(TExec(ws), rs)
  }

  ghost predicate ArgsDo(s: string, ret: Cmd, argc: nat, i: nat, ws: seq<string>, rs: seq<Redirection>, rest: seq<Tok>)
    requires i <= |s|
  {
    var r := Args(s, ret, argc, i);
    r.Ok? && r.pos <= |s| && Toks(s, r.pos) == rest && Holds(s, r.cmd, ws, rs)
  }

  lemma ArgsEnd(s: string, ret: Cmd, argc: nat, i: nat, ws: seq<string>, rs: seq<Redirection>)
    requires i <= |s| && Stops(Toks(s, i)) && Holds(s, ret, ws, rs)
    ensures ArgsDo(s, ret, argc, i, ws, rs, Toks(s, i))
  {
    hide Peeks, GetToken, SkipSpace, Toks, Holds, Args;
    PeekIs(s, i, "|)&;");
    ArgsSkip(s, ret, argc, i);
    ArgsStep(s, ret, argc, SkipSpace(s, i));
    NextTok(s, i);
    if Toks(s, i) == [] {
      NoTok(s, i);
    }
  }

  /** One word of the loop, and the redirections behind it. */
  lemma ArgsOne(s: string, ret: Cmd, argc: nat, i: nat, w: string, rs: seq<Redirection>, rest: seq<Tok>,
          ws: seq<string>, before: seq<Redirection>)
    returns (ret': Cmd, next: nat)
    requires i <= |s| && Toks(s, i) == [TWord(w)] + (RedirToks(rs) + rest) && GoodRedirs(rs) && NoRedirs(rest)
    requires argc + 1 < MAXARGS
    requires Holds(s, ret, ws, before)
    ensures next <= |s| && Toks(s, next) == rest && Holds(s, ret', ws + [w], before + rs)
    ensures Args(s, ret, argc, i) == Args(s, ret', argc + 1, next)
  {
    hide Peeks, GetToken, SkipSpace, Toks, Args, Redirs, NoRedirs, GoodRedirs, RedirToks, AddArg, Plain, ArgsIn, Denote;
    PeekIs(s, i, "|)&;");
    ArgsSkip(s, ret, argc, i);
    ArgsStep(s, ret, argc, SkipSpace(s, i));
    NextTok(s, i);
    NextTok(s, SkipSpace(s, i));
    var t := GetToken(s, SkipSpace(s, i));
    var word := Word(t.q, t.eq);
    AddArgIs(s, ret, word, ws, before);
    RedirsAccept(s, AddArg(ret, word), t.next, rs, rest);
    WrapConcat(TExec(ws + [w]), before, rs);
    var r := Redirs(s, AddArg(ret, word), t.next);
    ret', next := r.cmd, r.pos;
  }

  /** The redirections that items start with, and the rest. */
  lemma {:induction false} LeadSplit(items: seq<Item>) returns (rs: seq<Redirection>, tail: seq<Item>)
    ensures ItemToks(items) == RedirToks(rs) + ItemToks(tail) && Words(items) == Words(tail) && Reds(items) == rs + Reds(tail)
    ensures (tail == [] || tail[0].IWord?) && |tail| <= |items|
  {
    if items == [] || items[0].IWord? {
      rs, tail := [], items;
    } else {
      var more;
      more, tail := LeadSplit(items[1..]);
      rs := [items[0].r] + more;
      assert rs[1..] == more;
    }
  }

  lemma GoodSplit(rs: seq<Redirection>, more: seq<Redirection>)
    requires GoodRedirs(rs + more)
    ensures GoodRedirs(rs) && GoodRedirs(more)
  {
    assert forall k :: 0 <= k < |rs| ==> (rs + more)[k] == rs[k];
    assert forall k :: 0 <= k < |more| ==> (rs + more)[|rs| + k] == more[k];
  }

  /** Behind redirections comes a word or the end. */
  lemma WordOrEnd(items: seq<Item>, rest: seq<Tok>)
    requires (items == [] || items[0].IWord?) && Stops(rest)
    ensures NoRedirs(ItemToks(items) + rest)
  {
    if items == [] {
      assert [] + rest == rest;
    } else {
      assert (ItemToks(items) + rest)[0] == TWord(items[0].w);
    }
  }

  lemma FirstItem(items: seq<Item>)
    ensures items == [] ==> ItemToks(items) == [] && Words(items) == [] && Reds(items) == []
    ensures items != [] && items[0].IWord? ==>
      ItemToks(items) == [TWord(items[0].w)] + ItemToks(items[1..]) && Words(items) == [items[0].w] + Words(items[1..]) && Reds(items) == Reds(items[1..])
  {
  }

  lemma {:induction false} ArgsAccept(s: string, ret: Cmd, argc: nat, i: nat, items: seq<Item>, rest: seq<Tok>,
          ws: seq<string>, rs: seq<Redirection>)
    requires i <= |s| && Toks(s, i) == ItemToks(items) + rest && Stops(rest) && (items == [] || items[0].IWord?)
    requires argc + |Words(items)| < MAXARGS && GoodRedirs(Reds(items)) && Holds(s, ret, ws, rs)
    ensures ArgsDo(s, ret, argc, i, ws + Words(items), rs + Reds(items), rest)
    decreases |items|
  {
    hide Args, Toks, Holds, Stops, NoRedirs, GoodRedirs, ItemToks, RedirToks, Words, Reds;
    FirstItem(items);
    if items == [] {
      assert Toks(s, i) == rest && ws + Words(items) == ws && rs + Reds(items) == rs;
      ArgsEnd(s, ret, argc, i, ws, rs);
    } else {
      var w := items[0].w;
      var lead, tail := LeadSplit(items[1..]);
      GoodSplit(lead, Reds(tail));
      WordOrEnd(tail, rest);
      assert ItemToks(items) + rest == [TWord(w)] + (RedirToks(lead) + (ItemToks(tail) + rest));
      var ret', next := ArgsOne(s, ret, argc, i, w, lead, ItemToks(tail) + rest, ws, rs);
      ArgsAccept(s, ret', argc + 1, next, tail, rest, ws + [w], rs + lead);
      assert ws + [w] + Words(tail) == ws + Words(items) && rs + lead + Reds(tail) == rs + Reds(items);
    }
  }

  // ---- Commands, pipelines and lines ----

  ghost predicate Gives(s: string, r: Result, t: Tree, rest: seq<Tok>) {
    r.Ok? && r.pos <= |s| && Denote(s, r.cmd) == t && Toks(s, r.pos) == rest
  }

  lemma CommandIs(s: string, i: nat)
    requires i <= |s| && !Peeks(s, i, "(")
    ensures var r := Redirs(s, Exec([]), i); Command(s, i) == if r.Fail? then r else Args(s, r.cmd, 0, r.pos)
  {
    hide Args, Redirs, Peeks, SkipSpace, Block;
    RedirsSkip(s, Exec([]), i);
  }

  lemma Started(s: string, i: nat, rs: seq<Redirection>, rest: seq<Tok>)
    requires i <= |s| && RedirsDo(s, Exec([]), i, rs, rest)
    ensures Holds(s, Redirs(s, Exec([]), i).cmd, [], rs)
  {
    hide Redirs, Toks, Wrap;
    assert ArgsIn(s, Exec([])) == [] && Denote(s, Exec([])) == TExec([]);
  }

  lemma SimpleAccept(s: string, i: nat, items: seq<Item>, rest: seq<Tok>)
    requires i <= |s| && Toks(s, i) == ItemToks(items) + rest && GoodCmd(Simple(items)) && Stops(rest)
    ensures Gives(s, Command(s, i), CmdMeans(Simple(items)), rest)
  {
    hide Args, Toks, Stops, NoRedirs, GoodRedirs, Redirs, Peeks, SkipSpace, Command, ItemToks, RedirToks, Words, Reds, Wrap, Head;
    var lead, tail := LeadSplit(items);
    GoodSplit(lead, Reds(tail));
    WordOrEnd(tail, rest);
    assert ItemToks(items) + rest == RedirToks(lead) + (ItemToks(tail) + rest);
    NoParen(items, rest);
    PeekIs(s, i, "(");
    CommandIs(s, i);
    RedirsAccept(s, Exec([]), i, lead, ItemToks(tail) + rest);
    Started(s, i, lead, ItemToks(tail) + rest);
    var r := Redirs(s, Exec([]), i);
    ArgsAccept(s, r.cmd, 0, r.pos, tail, rest, [], lead);
    assert [] + Words(tail) == Words(items);
  }

  lemma NoParen(items: seq<Item>, rest: seq<Tok>)
    requires Stops(rest) && GoodRedirs(Reds(items))
    ensures Head(ItemToks(items) + rest) != '('
  {
    if items == [] {
      assert [] + rest == rest;
    } else if items[0].IWord? {
      assert (ItemToks(items) + rest)[0] == TWord(items[0].w);
    } else {
      assert Reds(items)[0] == items[0].r;
      assert (ItemToks(items) + rest)[0] == TSym(items[0].r.sym);
    }
  }

  lemma GroupAccept(s: string, i: nat, g: GLine, rs: seq<Redirection>, rest: seq<Tok>)
    requires i <= |s| && Toks(s, i) == CmdToks(Group(g, rs)) + rest && GoodRedirs(rs) && Stops(rest)
    requires forall j: nat, more: seq<Tok> :: j <= |s| && Toks(s, j) == LineToks(g) + more && (more == [] || more[0] == TSym(')')) ==> Gives(s, Line(s, j), LineMeans(g), more)
    ensures Gives(s, Command(s, i), CmdMeans(Group(g, rs)), rest)
  {
    hide Line, Toks, Stops, NoRedirs, GoodRedirs, Redirs, Peeks, SkipSpace, GetToken, LineToks;
    var more := [TSym(')')] + (RedirToks(rs) + rest);
    assert CmdToks(Group(g, rs)) + rest == [TSym('(')] + (LineToks(g) + more);
    PeekIs(s, i, "(");
    PeekTwice(s, i, "(");
    NextTok(s, i);
    NextTok(s, SkipSpace(s, i));
    var j := GetToken(s, SkipSpace(s, i)).next;
    assert Toks(s, j) == LineToks(g) + more;
    assert Gives(s, Line(s, j), LineMeans(g), more);
    var r := Line(s, j);
    PeekIs(s, r.pos, ")");
    NextTok(s, r.pos);
    StopsNoRedirs(rest);
    RedirsAccept(s, r.cmd, GetToken(s, SkipSpace(s, r.pos)).next, rs, rest);
  }

  lemma StopsNoRedirs(rest: seq<Tok>)
    requires Stops(rest)
    ensures NoRedirs(rest)
  {
  }

  /** The end of a pipeline, and of a line. */
  predicate PipeStops(ts: seq<Tok>) {
    Head(ts) in ")&;" || ts == []
  }

  predicate LineStops(ts: seq<Tok>) {
    ts == [] || ts[0] == TSym(')')
  }

  lemma {:induction false} CmdAccept(s: string, i: nat, g: GCmd, rest: seq<Tok>)
    requires i <= |s| && Toks(s, i) == CmdToks(g) + rest && GoodCmd(g) && Stops(rest)
    ensures Gives(s, Command(s, i), CmdMeans(g), rest)
    decreases g, 0
  {
    hide Command, Toks, Stops, Gives, Line, LineToks;
    match g
    case Simple(items) => SimpleAccept(s, i, items, rest);
    case Group(l, rs) =>
      forall j: nat, more: seq<Tok> | j <= |s| && Toks(s, j) == LineToks(l) + more && (more == [] || more[0] == TSym(')'))
        ensures Gives(s, Line(s, j), LineMeans(l), more)
      {
        LineAccept(s, j, l, more);
      }
      GroupAccept(s, i, l, rs, rest);
  }

  lemma PipeLast(s: string, i: nat, t: Tree, rest: seq<Tok>)
    requires i <= |s| && Gives(s, Command(s, i), t, rest) && PipeStops(rest)
    ensures Gives(s, Pipeline(s, i), t, rest)
  {
    hide Command, Toks, Peeks, SkipSpace, GetToken;
    var j := Command(s, i).pos;
    PeekIs(s, j, "|");
    NextTok(s, j);
  }

  lemma PipeMore(s: string, i: nat, t: Tree, rest: seq<Tok>) returns (next: nat)
    requires i <= |s| && Gives(s, Command(s, i), t, [TSym('|')] + rest)
    ensures next <= |s| && Toks(s, next) == rest
    ensures var r := Pipeline(s, next); Pipeline(s, i) == if r.Fail? then r else Ok(Pipe(Command(s, i).cmd, r.cmd), r.pos)
  {
    hide Command, Toks, Peeks, SkipSpace, GetToken;
    var j := Command(s, i).pos;
    PeekIs(s, j, "|");
    PeekAdvances(s, j, "|");
    NextTok(s, j);
    next := GetToken(s, SkipSpace(s, j)).next;
  }

  lemma {:induction false} PipeAccept(s: string, i: nat, g: GPipe, rest: seq<Tok>)
    requires i <= |s| && Toks(s, i) == PipeToks(g) + rest && GoodPipe(g) && PipeStops(rest)
    ensures Gives(s, Pipeline(s, i), PipeMeans(g), rest)
    decreases g, 1
  {
    hide Command, Toks, Pipeline;
    match g
    case One(c) =>
      CmdAccept(s, i, c, rest);
      PipeLast(s, i, CmdMeans(c), rest);
    case Piped(c, more) =>
      assert PipeToks(g) + rest == CmdToks(c) + ([TSym('|')] + (PipeToks(more) + rest));
      CmdAccept(s, i, c, [TSym('|')] + (PipeToks(more) + rest));
      var next := PipeMore(s, i, CmdMeans(c), PipeToks(more) + rest);
      PipeAccept(s, next, more, rest);
  }

  lemma {:induction false} AmpsAccept(s: string, cmd: Cmd, i: nat, n: nat, rest: seq<Tok>)
    requires i <= |s| && Toks(s, i) == Amps(n) + rest && Head(rest) != '&'
    ensures Gives(s, Backs(s, cmd, i), InBack(Denote(s, cmd), n), rest)
    decreases n
  {
    hide Toks, Peeks, SkipSpace, GetToken, Backs;
    PeekIs(s, i, "&");
    NextTok(s, i);
    BacksSkip(s, cmd, i);
    BacksStep(s, cmd, SkipSpace(s, i));
    if n == 0 {
      assert Amps(n) + rest == rest;
    } else {
      NextTok(s, SkipSpace(s, i));
      var next := GetToken(s, SkipSpace(s, i)).next;
      assert Toks(s, next) == Amps(n - 1) + rest;
      AmpsAccept(s, Back(cmd), next, n - 1, rest);
    }
  }

  lemma LineLast(s: string, i: nat, t: Tree, n: nat, rest: seq<Tok>)
    requires i <= |s| && Gives(s, Pipeline(s, i), t, Amps(n) + rest) && LineStops(rest)
    ensures Gives(s, Line(s, i), InBack(t, n), rest)
  {
    hide Pipeline, Toks, Peeks, SkipSpace, GetToken, Backs, InBack, Amps;
    var r := Pipeline(s, i);
    AmpsAccept(s, r.cmd, r.pos, n, rest);
    var b := Backs(s, r.cmd, r.pos);
    PeekIs(s, b.pos, ";");
    NextTok(s, b.pos);
  }

  lemma LineMore(s: string, i: nat, t: Tree, n: nat, rest: seq<Tok>) returns (first: Cmd, next: nat)
    requires i <= |s| && Gives(s, Pipeline(s, i), t, Amps(n) + ([TSym(';')] + rest))
    ensures next <= |s| && Toks(s, next) == rest && Denote(s, first) == InBack(t, n)
    ensures var r := Line(s, next); Line(s, i) == if r.Fail? then r else Ok(List(first, r.cmd), r.pos)
  {
    hide Pipeline, Toks, Peeks, SkipSpace, GetToken, Backs, InBack, Amps;
    var r := Pipeline(s, i);
    AmpsAccept(s, r.cmd, r.pos, n, [TSym(';')] + rest);
    var b := Backs(s, r.cmd, r.pos);
    PeekIs(s, b.pos, ";");
    PeekAdvances(s, b.pos, ";");
    NextTok(s, b.pos);
    first, next := b.cmd, GetToken(s, SkipSpace(s, b.pos)).next;
  }

  lemma AmpsStop(n: nat, rest: seq<Tok>)
    requires LineStops(rest) || (rest != [] && rest[0] == TSym(';'))
    ensures PipeStops(Amps(n) + rest)
  {
    if n == 0 {
      assert Amps(n) + rest == rest;
    } else {
      assert (Amps(n) + rest)[0] == TSym('&');
    }
  }

  /** A phrase, with nothing or a closing parenthesis behind it, parses to its meaning. */
  lemma {:induction false} LineAccept(s: string, i: nat, g: GLine, rest: seq<Tok>)
    requires i <= |s| && Toks(s, i) == LineToks(g) + rest && GoodLine(g) && LineStops(rest)
    ensures Gives(s, Line(s, i), LineMeans(g), rest)
    decreases g, 2
  {
    hide Pipeline, Toks, Line, Amps, InBack, PipeStops;
    match g
    case Last(p, n) =>
      assert LineToks(g) + rest == PipeToks(p) + (Amps(n) + rest);
      AmpsStop(n, rest);
      PipeAccept(s, i, p, Amps(n) + rest);
      LineLast(s, i, PipeMeans(p), n, rest);
    case Then(p, n, more) =>
      var tail := [TSym(';')] + (LineToks(more) + rest);
      assert LineToks(g) + rest == PipeToks(p) + (Amps(n) + tail);
      AmpsStop(n, tail);
      PipeAccept(s, i, p, Amps(n) + tail);
      var first, next := LineMore(s, i, PipeMeans(p), n, LineToks(more) + rest);
      LineAccept(s, next, more, rest);
  }
}
