/**
 The recursive-descent parser of sh.c.  A command tree points into the line: a word is the pair of
 positions that gettoken stores.  Each method is the source's procedure; the function of the same
 name without "Parse" in front says what it computes.
 */
module ShParse {
  import opened ShLex

  const MAXARGS: nat := 10

  datatype Word = Word(q: nat, eq: nat)

  /** O_RDONLY on descriptor 0, or O_WRONLY|O_CREATE on descriptor 1; '>' and '>>' give the same. */
  datatype Mode = In | Out

  datatype Cmd =
    | Exec(args: seq<Word>)
    | Redir(cmd: Cmd, file: Word, mode: Mode)
    | Pipe(left: Cmd, right: Cmd)
    | List(left: Cmd, right: Cmd)
    | Back(cmd: Cmd)

  datatype Panic = MissingFile | NotAWord | TooManyArgs | MissingParen | Leftovers

  datatype Result = Ok(cmd: Cmd, pos: nat) | Fail(why: Panic)

  /** The new argument goes into the EXEC node that redirections may have been wrapped around. */
  function AddArg(ret: Cmd, w: Word): Cmd
  {
    match ret
    case Exec(args) => Exec(args + [w])
    case Redir(c, f, m) => Redir(AddArg(c, w), f, m)
    case _ => ret
  }

  function Redirs(s: string, cmd: Cmd, i: nat): (r: Result)
    requires i <= |s|
    ensures r.Ok? ==> i <= r.pos <= |s|
    decreases |s| - i
  {
    if !Peeks(s, i, "<>") then Ok(cmd, SkipSpace(s, i))
    else
      var tok := GetToken(s, SkipSpace(s, i));
      var f := GetToken(s, tok.next);
      if f.ret != 'a' then Fail(MissingFile)
      else Redirs(s, Redir(cmd, Word(f.q, f.eq), if tok.ret == '<' then In else Out), f.next)
  }

  /** The argument loop of parseexec. */
  function Args(s: string, ret: Cmd, argc: nat, i: nat): (r: Result)
    requires i <= |s|
    ensures r.Ok? ==> i <= r.pos <= |s|
    decreases |s| - i
  {
    if Peeks(s, i, "|)&;") then Ok(ret, SkipSpace(s, i))
    else
      var t := GetToken(s, SkipSpace(s, i));
      if t.ret == NUL then Ok(ret, t.next)
      else if t.ret != 'a' then Fail(NotAWord)
      else if argc + 1 >= MAXARGS then Fail(TooManyArgs)
      else
        match Redirs(s, AddArg(ret, Word(t.q, t.eq)), t.next)
        case Fail(e) => Fail(e)
        case Ok(r, p) => Args(s, r, argc + 1, p)
  }

  /** The loop of parseline over '&'. */
  function Backs(s: string, cmd: Cmd, i: nat): (r: Result)
    requires i <= |s|
    ensures r.Ok? && i <= r.pos <= |s|
    decreases |s| - i
  {
    if Peeks(s, i, "&") then Backs(s, Back(cmd), GetToken(s, SkipSpace(s, i)).next)
    else Ok(cmd, SkipSpace(s, i))
  }

  function Line(s: string, i: nat): (r: Result)
    requires i <= |s|
    ensures r.Ok? ==> i <= r.pos <= |s|
    decreases |s| - i, 3
  {
    match Pipeline(s, i)
    case Fail(e) => Fail(e)
    case Ok(first, j) =>
      var b := Backs(s, first, j);
      if Peeks(s, b.pos, ";") then
        match Line(s, GetToken(s, SkipSpace(s, b.pos)).next)
        case Fail(e) => Fail(e)
        case Ok(rest, k) => Ok(List(b.cmd, rest), k)
      else Ok(b.cmd, SkipSpace(s, b.pos))
  }

  function Pipeline(s: string, i: nat): (r: Result)
    requires i <= |s|
    ensures r.Ok? ==> i <= r.pos <= |s|
    decreases |s| - i, 2
  {
    match Command(s, i)
    case Fail(e) => Fail(e)
    case Ok(left, j) =>
      if Peeks(s, j, "|") then
        match Pipeline(s, GetToken(s, SkipSpace(s, j)).next)
        case Fail(e) => Fail(e)
        case Ok(right, k) => Ok(Pipe(left, right), k)
      else Ok(left, SkipSpace(s, j))
  }

  /** parseexec. */
  function Command(s: string, i: nat): (r: Result)
    requires i <= |s|
    ensures r.Ok? ==> i <= r.pos <= |s|
    decreases |s| - i, 1
  {
    if Peeks(s, i, "(") then Block(s, SkipSpace(s, i))
    else
      match Redirs(s, Exec([]), SkipSpace(s, i))
      case Fail(e) => Fail(e)
      case Ok(ret, j) => Args(s, ret, 0, j)
  }

  function Block(s: string, i: nat): (r: Result)
    requires i <= |s| && Peeks(s, i, "(")
    ensures r.Ok? ==> i <= r.pos <= |s|
    decreases |s| - i, 0
  {
    match Line(s, GetToken(s, SkipSpace(s, i)).next)
    case Fail(e) => Fail(e)
    case Ok(cmd, j) =>
      if !Peeks(s, j, ")") then Fail(MissingParen)
      else Redirs(s, cmd, GetToken(s, SkipSpace(s, j)).next)
  }

  /** parsecmd before nulterminate. */
  function Whole(s: string): (r: Result)
  {
    match Line(s, 0)
    case Fail(e) => Fail(e)
    case Ok(cmd, j) => if SkipSpace(s, j) != |s| then Fail(Leftovers) else Ok(cmd, |s|)
  }

  // ---- The procedures ----

  method ParseRedirs(s: string, cmd: Cmd, ps: nat) returns (r: Result)
    requires ps <= |s|
    ensures r == Redirs(s, cmd, ps)
  {
    hide Peeks, GetToken, SkipSpace, Redirs;
    var c := cmd;
    var i, more := Peek(s, ps, "<>");
    RedirsSkip(s, c, ps);
    while more
      invariant i <= |s| && i == SkipSpace(s, i) && more == Peeks(s, i, "<>") && Redirs(s, c, i) == Redirs(s, cmd, ps)
      decreases |s| - i
    {
      PeekAdvances(s, i, "<>");
      RedirsStep(s, c, i);
      var tok, q0, eq0, next := ScanToken(s, i);
      var f, q, eq, next1 := ScanToken(s, next);
      if f != 'a' {
        return Fail(MissingFile);
      }
      c := Redir(c, Word(q, eq), if tok == '<' then In else Out);
      RedirsSkip(s, c, next1);
      i, more := Peek(s, next1, "<>");
    }
    RedirsStep(s, c, i);
    r := Ok(c, i);
  }

  lemma PeekTwice(s: string, i: nat, toks: string)
    requires i <= |s|
    ensures Peeks(s, SkipSpace(s, i), toks) == Peeks(s, i, toks) && SkipSpace(s, SkipSpace(s, i)) == SkipSpace(s, i)
  {
    SkipTwice(s, i);
  }

  /** A token that has been peeked at is consumed by gettoken. */
  lemma PeekAdvances(s: string, i: nat, toks: string)
    requires i <= |s| && Peeks(s, i, toks)
    ensures i <= SkipSpace(s, i) < GetToken(s, SkipSpace(s, i)).next
  {
  }

  lemma RedirsSkip(s: string, cmd: Cmd, i: nat)
    requires i <= |s|
    ensures Redirs(s, cmd, SkipSpace(s, i)) == Redirs(s, cmd, i) && SkipSpace(s, SkipSpace(s, i)) == SkipSpace(s, i)
    ensures Peeks(s, SkipSpace(s, i), "<>") == Peeks(s, i, "<>")
  {
    hide Peeks, GetToken, SkipSpace;
    PeekTwice(s, i, "<>");
  }

  lemma RedirsStep(s: string, cmd: Cmd, i: nat)
    requires i <= |s| && i == SkipSpace(s, i)
    ensures !Peeks(s, i, "<>") ==> Redirs(s, cmd, i) == Ok(cmd, i)
    ensures Peeks(s, i, "<>") ==>
      var tok := GetToken(s, i);
      var f := GetToken(s, tok.next);
      Redirs(s, cmd, i) == if f.ret != 'a' then Fail(MissingFile) else Redirs(s, Redir(cmd, Word(f.q, f.eq), if tok.ret == '<' then In else Out), f.next)
  {
    hide Peeks, GetToken, SkipSpace;
  }

  method ParseExec(s: string, ps: nat) returns (r: Result)
    requires ps <= |s|
    ensures r == Command(s, ps)
    decreases |s| - ps, 1
  {
    hide Peeks, GetToken, SkipSpace, Redirs, Args, Block;
    var i, paren := Peek(s, ps, "(");
    if paren {
      PeekTwice(s, ps, "(");
      r := ParseBlock(s, i);
      return;
    }
    r := ParseRedirs(s, Exec([]), i);
    if r.Fail? {
      return;
    }
    var ret, argc := r.cmd, 0;
    var stop;
    ghost var ret0, i0 := ret, r.pos;
    ArgsSkip(s, ret, argc, i0);
    i, stop := Peek(s, r.pos, "|)&;");
    while !stop
      invariant i <= |s| && i == SkipSpace(s, i) && stop == Peeks(s, i, "|)&;") && Args(s, ret, argc, i) == Args(s, ret0, 0, i0)
      decreases |s| - i
    {
      ArgsStep(s, ret, argc, i);
      var tok, q, eq, next := ScanToken(s, i);
      TokenAdvances(s, i);
      if tok == NUL {
        i := next;
        return Ok(ret, i);
      }
      if tok != 'a' {
        return Fail(NotAWord);
      }
      ret := AddArg(ret, Word(q, eq));
      argc := argc + 1;
      if argc >= MAXARGS {
        return Fail(TooManyArgs);
      }
      r := ParseRedirs(s, ret, next);
      if r.Fail? {
        return;
      }
      ret := r.cmd;
      ArgsSkip(s, ret, argc, r.pos);
      i, stop := Peek(s, r.pos, "|)&;");
    }
    ArgsStep(s, ret, argc, i);
    r := Ok(ret, i);
  }

  lemma TokenAdvances(s: string, i: nat)
    requires i <= |s|
    ensures GetToken(s, i).ret != NUL ==> i < GetToken(s, i).next
  {
  }

  lemma ArgsSkip(s: string, ret: Cmd, argc: nat, i: nat)
    requires i <= |s|
    ensures Args(s, ret, argc, SkipSpace(s, i)) == Args(s, ret, argc, i) && SkipSpace(s, SkipSpace(s, i)) == SkipSpace(s, i)
    ensures Peeks(s, SkipSpace(s, i), "|)&;") == Peeks(s, i, "|)&;")
  {
    hide Peeks, GetToken, SkipSpace, Redirs;
    PeekTwice(s, i, "|)&;");
  }

  lemma ArgsStep(s: string, ret: Cmd, argc: nat, i: nat)
    requires i <= |s| && i == SkipSpace(s, i)
    ensures Peeks(s, i, "|)&;") ==> Args(s, ret, argc, i) == Ok(ret, i)
    ensures !Peeks(s, i, "|)&;") ==>
      var t := GetToken(s, i);
      Args(s, ret, argc, i) == if t.ret == NUL then Ok(ret, t.next) else if t.ret != 'a' then Fail(NotAWord) else if argc + 1 >= MAXARGS then Fail(TooManyArgs)
        else var r := Redirs(s, AddArg(ret, Word(t.q, t.eq)), t.next); if r.Fail? then r else Args(s, r.cmd, argc + 1, r.pos)
  {
    hide Peeks, GetToken, SkipSpace, Redirs;
  }

  method ParseBlock(s: string, ps: nat) returns (r: Result)
    requires ps <= |s| && Peeks(s, ps, "(")
    ensures r == Block(s, ps)
    decreases |s| - ps, 0
  {
    hide Peeks, GetToken, SkipSpace, Redirs, Line;
    var i, found := Peek(s, ps, "(");
    PeekAdvances(s, ps, "(");
    var tok, q, eq, next := ScanToken(s, i);
    r := ParseLine(s, next);
    if r.Fail? {
      return;
    }
    i, found := Peek(s, r.pos, ")");
    if !found {
      return Fail(MissingParen);
    }
    var tok1, q1, eq1, next1 := ScanToken(s, i);
    r := ParseRedirs(s, r.cmd, next1);
  }

  method ParsePipe(s: string, ps: nat) returns (r: Result)
    requires ps <= |s|
    ensures r == Pipeline(s, ps)
    decreases |s| - ps, 2
  {
    hide Peeks, GetToken, SkipSpace, Command;
    r := ParseExec(s, ps);
    if r.Fail? {
      return;
    }
    var left := r.cmd;
    var i, found := Peek(s, r.pos, "|");
    if found {
      PeekAdvances(s, r.pos, "|");
      var tok, q, eq, next := ScanToken(s, i);
      r := ParsePipe(s, next);
      return if r.Fail? then r else Ok(Pipe(left, r.cmd), r.pos);
    }
    r := Ok(left, i);
  }

  method ParseLine(s: string, ps: nat) returns (r: Result)
    requires ps <= |s|
    ensures r == Line(s, ps)
    decreases |s| - ps, 3
  {
    hide Peeks, GetToken, SkipSpace, Pipeline, Backs;
    r := ParsePipe(s, ps);
    if r.Fail? {
      return;
    }
    var c := r.cmd;
    ghost var c0, i0 := c, r.pos;
    BacksSkip(s, c, r.pos);
    var i, more := Peek(s, r.pos, "&");
    while more
      invariant i0 <= i <= |s| && i == SkipSpace(s, i) && more == Peeks(s, i, "&") && Backs(s, c, i) == Backs(s, c0, i0)
      decreases |s| - i
    {
      BacksStep(s, c, i);
      PeekAdvances(s, i, "&");
      var tok, q, eq, next := ScanToken(s, i);
      c := Back(c);
      BacksSkip(s, c, next);
      i, more := Peek(s, next, "&");
    }
    BacksStep(s, c, i);
    var j, found := Peek(s, i, ";");
    if found {
      PeekAdvances(s, i, ";");
      var tok, q, eq, next := ScanToken(s, j);
      r := ParseLine(s, next);
      return if r.Fail? then r else Ok(List(c, r.cmd), r.pos);
    }
    r := Ok(c, j);
  }

  lemma BacksSkip(s: string, cmd: Cmd, i: nat)
    requires i <= |s|
    ensures Backs(s, cmd, SkipSpace(s, i)) == Backs(s, cmd, i) && SkipSpace(s, SkipSpace(s, i)) == SkipSpace(s, i)
    ensures Peeks(s, SkipSpace(s, i), "&") == Peeks(s, i, "&")
  {
    hide Peeks, GetToken, SkipSpace;
    PeekTwice(s, i, "&");
  }

  lemma BacksStep(s: string, cmd: Cmd, i: nat)
    requires i <= |s| && i == SkipSpace(s, i)
    ensures !Peeks(s, i, "&") ==> Backs(s, cmd, i) == Ok(cmd, i)
    ensures Peeks(s, i, "&") ==> Backs(s, cmd, i) == Backs(s, Back(cmd), GetToken(s, i).next)
  {
    hide Peeks, GetToken, SkipSpace;
  }
}
