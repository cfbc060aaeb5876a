/**
 nulterminate cuts the line into strings in place: it writes a NUL behind every word and never into
 one, so every word of the tree becomes exactly the C string at its start.
 */
module ShNul {
  import opened ShLex
  import opened ShParse

  /** A word of the line: word characters with a delimiter or the end behind them. */
  predicate WordOk(s: string, w: Word) {
    && w.q < w.eq <= |s| && (w.eq < |s| ==> !WordChar(s[w.eq]))
    && forall k :: w.q <= k < w.eq ==> WordChar(s[k])
  }

  function Words(c: Cmd): set<Word>
  {
    match c
    case Exec(args) => set k | 0 <= k < |args| :: args[k]
    case Redir(c, f, _) => Words(c) + {f}
    case Pipe(l, r) => Words(l) + Words(r)
    case List(l, r) => Words(l) + Words(r)
    case Back(c) => Words(c)
  }

  ghost predicate AllOk(s: string, c: Cmd) {
    forall w :: w in Words(c) ==> WordOk(s, w)
  }

  // ---- The parser stores only such words ----

  lemma {:induction false} AddArgOk(s: string, ret: Cmd, w: Word)
    requires AllOk(s, ret) && WordOk(s, w)
    ensures AllOk(s, AddArg(ret, w))
  {
    match ret
    case Exec(args) =>
      forall x | x in Words(AddArg(ret, w))
        ensures WordOk(s, x)
      {
        assert x == w || x in Words(ret);
      }
    case Redir(c, f, m) =>
      forall x | x in Words(c)
        ensures WordOk(s, x)
      {
        assert x in Words(ret);
      }
      AddArgOk(s, c, w);
      assert f in Words(ret);
    case _ =>
  }

  lemma TokenWord(s: string, i: nat)
    requires i <= |s| && GetToken(s, i).ret == 'a'
    ensures WordOk(s, Word(GetToken(s, i).q, GetToken(s, i).eq))
  {
    hide SkipSpace, WordEnd;
  }

  lemma {:induction false} RedirsOk(s: string, cmd: Cmd, i: nat)
    requires i <= |s| && AllOk(s, cmd)
    ensures Redirs(s, cmd, i).Ok? ==> AllOk(s, Redirs(s, cmd, i).cmd)
    decreases |s| - i
  {
    hide GetToken, WordOk, SkipSpace;
    if Peeks(s, i, "<>") {
      PeekAdvances(s, i, "<>");
      var tok := GetToken(s, SkipSpace(s, i));
      var f := GetToken(s, tok.next);
      if f.ret == 'a' {
        TokenWord(s, tok.next);
        RedirsOk(s, Redir(cmd, Word(f.q, f.eq), if tok.ret == '<' then In else Out), f.next);
      }
    }
  }

  lemma {:induction false} ArgsOk(s: string, ret: Cmd, argc: nat, i: nat)
    requires i <= |s| && AllOk(s, ret)
    ensures Args(s, ret, argc, i).Ok? ==> AllOk(s, Args(s, ret, argc, i).cmd)
    decreases |s| - i
  {
    hide GetToken, AllOk, SkipSpace, WordOk, Redirs;
    if !Peeks(s, i, "|)&;") {
      var j := SkipSpace(s, i);
      var t := GetToken(s, j);
      TokenAdvances(s, j);
      if t.ret == 'a' && argc + 1 < MAXARGS {
        TokenWord(s, j);
        AddArgOk(s, ret, Word(t.q, t.eq));
        RedirsOk(s, AddArg(ret, Word(t.q, t.eq)), t.next);
        var r := Redirs(s, AddArg(ret, Word(t.q, t.eq)), t.next);
        if r.Ok? {
          ArgsOk(s, r.cmd, argc + 1, r.pos);
        }
      }
    }
  }

  lemma {:induction false} BacksOk(s: string, cmd: Cmd, i: nat)
    requires i <= |s| && AllOk(s, cmd)
    ensures AllOk(s, Backs(s, cmd, i).cmd)
    decreases |s| - i
  {
    hide GetToken, SkipSpace, WordOk, Peeks;
    if Peeks(s, i, "&") {
      PeekAdvances(s, i, "&");
      BacksOk(s, Back(cmd), GetToken(s, SkipSpace(s, i)).next);
    }
  }

  lemma {:induction false} LineOk(s: string, i: nat)
    requires i <= |s|
    ensures Line(s, i).Ok? ==> AllOk(s, Line(s, i).cmd)
    decreases |s| - i, 3
  {
    hide GetToken, SkipSpace, WordOk, Peeks, Backs, Pipeline;
    PipelineOk(s, i);
    var p := Pipeline(s, i);
    if p.Ok? {
      BacksOk(s, p.cmd, p.pos);
      var b := Backs(s, p.cmd, p.pos);
      if Peeks(s, b.pos, ";") {
        PeekAdvances(s, b.pos, ";");
        LineOk(s, GetToken(s, SkipSpace(s, b.pos)).next);
      }
    }
  }

  lemma {:induction false} PipelineOk(s: string, i: nat)
    requires i <= |s|
    ensures Pipeline(s, i).Ok? ==> AllOk(s, Pipeline(s, i).cmd)
    decreases |s| - i, 2
  {
    hide GetToken, SkipSpace, WordOk, Peeks, Command;
    CommandOk(s, i);
    var p := Command(s, i);
    if p.Ok? && Peeks(s, p.pos, "|") {
      PeekAdvances(s, p.pos, "|");
      PipelineOk(s, GetToken(s, SkipSpace(s, p.pos)).next);
    }
  }

  lemma {:induction false} CommandOk(s: string, i: nat)
    requires i <= |s|
    ensures Command(s, i).Ok? ==> AllOk(s, Command(s, i).cmd)
    decreases |s| - i, 1
  {
    hide GetToken, SkipSpace, WordOk, Peeks, Redirs, Args, Block;
    if Peeks(s, i, "(") {
      PeekTwice(s, i, "(");
      BlockOk(s, SkipSpace(s, i));
    } else {
      RedirsOk(s, Exec([]), SkipSpace(s, i));
      var r := Redirs(s, Exec([]), SkipSpace(s, i));
      if r.Ok? {
        ArgsOk(s, r.cmd, 0, r.pos);
      }
    }
  }

  lemma {:induction false} BlockOk(s: string, i: nat)
    requires i <= |s| && Peeks(s, i, "(")
    ensures Block(s, i).Ok? ==> AllOk(s, Block(s, i).cmd)
    decreases |s| - i, 0
  {
    hide GetToken, SkipSpace, WordOk, Peeks, Redirs, Line, AllOk;
    PeekAdvances(s, i, "(");
    LineOk(s, GetToken(s, SkipSpace(s, i)).next);
    var r := Line(s, GetToken(s, SkipSpace(s, i)).next);
    if r.Ok? && Peeks(s, r.pos, ")") {
      RedirsOk(s, r.cmd, GetToken(s, SkipSpace(s, r.pos)).next);
    }
  }

  // ---- nulterminate ----

  function Ends(c: Cmd): set<nat>
  {
    set w | w in Words(c) :: w.eq
  }

  /** A NUL at every position of ends. */
  ghost predicate Cut(before: seq<char>, after: seq<char>, ends: set<nat>) {
    && |after| == |before|
    && forall k: nat :: k < |before| ==> after[k] == if k in ends then NUL else before[k]
  }

  method NulTerminate(buf: array<char>, c: Cmd)
    requires forall w :: w in Words(c) ==> w.eq < buf.Length
    modifies buf
    ensures Cut(old(buf[..]), buf[..], Ends(c))
    decreases c
  {
    match c {
      case Exec(args) =>
        var i := 0;
        while i < |args|
          invariant i <= |args|
          invariant forall k: nat :: k < buf.Length ==> buf[k] == if exists j :: 0 <= j < i && args[j].eq == k then NUL else old(buf[k])
        {
          assert args[i] in Words(c);
          buf[args[i].eq] := NUL;
          i := i + 1;
        }
        ExecEnds(args);
      case Redir(d, f, m) =>
        assert f in Words(c);
        WordsSub(c);
        NulTerminate(buf, d);
        buf[f.eq] := NUL;
        assert Ends(c) == Ends(d) + {f.eq};
      case Pipe(l, r) =>
        WordsSub(c);
        NulTerminate(buf, l);
        NulTerminate(buf, r);
        assert Ends(c) == Ends(l) + Ends(r);
      case List(l, r) =>
        WordsSub(c);
        NulTerminate(buf, l);
        NulTerminate(buf, r);
        assert Ends(c) == Ends(l) + Ends(r);
      case Back(d) =>
        NulTerminate(buf, d);
    }
  }

  lemma WordsSub(c: Cmd)
    ensures c.Redir? || c.Back? ==> Words(c.cmd) <= Words(c)
    ensures c.Pipe? || c.List? ==> Words(c.left) <= Words(c) && Words(c.right) <= Words(c)
  {
  }

  lemma ExecEnds(args: seq<Word>)
    ensures forall k: nat :: k in Ends(Exec(args)) <==> exists j :: 0 <= j < |args| && args[j].eq == k
  {
    forall j | 0 <= j < |args|
      ensures args[j].eq in Ends(Exec(args))
    {
      assert args[j] in Words(Exec(args));
    }
  }

  /** The C string at q. */
  function CString(b: seq<char>, q: nat): string
    requires q <= |b|
    decreases |b| - q
  {
    if q == |b| || b[q] == NUL then "" else [b[q]] + CString(b, q + 1)
  }

  lemma {:induction false} CStringIs(b: seq<char>, q: nat, e: nat)
    requires q <= e < |b| && b[e] == NUL && forall k :: q <= k < e ==> b[k] != NUL
    ensures CString(b, q) == b[q..e]
    decreases e - q
  {
    if q < e {
      CStringIs(b, q + 1, e);
      assert b[q..e] == [b[q]] + b[q + 1..e];
    }
  }

  /** No cut falls into a word, so each word is the C string at its start. */
  lemma WordIsString(s: string, c: Cmd, after: seq<char>, w: Word)
    requires NUL !in s && AllOk(s, c) && w in Words(c) && Cut(s + [NUL], after, Ends(c))
    ensures w.q < w.eq <= |s| && CString(after, w.q) == s[w.q..w.eq]
  {
    assert WordOk(s, w);
    forall k | w.q <= k < w.eq
      ensures k !in Ends(c) && after[k] == s[k] != NUL
    {
    }
    assert w.eq in Ends(c);
    CStringIs(after, w.q, w.eq);
    assert after[w.q..w.eq] == s[w.q..w.eq];
  }

  /** parsecmd: the tree, and the line cut so that every word of the tree is a C string. */
  method ParseCmd(buf: array<char>, s: string) returns (r: Result)
    requires NUL !in s && buf[..] == s + [NUL]
    modifies buf
    ensures r == Whole(s)
    ensures r.Fail? ==> buf[..] == old(buf[..])
    ensures r.Ok? ==> forall w :: w in Words(r.cmd) ==> w.q < w.eq <= |s| && CString(buf[..], w.q) == s[w.q..w.eq]
  {
    hide Line, SkipSpace, WordOk;
    r := ParseLine(s, 0);
    if r.Fail? {
      return;
    }
    LineOk(s, 0);
    var j, found := Peek(s, r.pos, "");
    if j != |s| {
      return Fail(Leftovers);
    }
    ghost var cmd := r.cmd;
    forall w | w in Words(cmd)
      ensures w.eq < buf.Length
    {
      WordInside(s, w);
    }
    NulTerminate(buf, r.cmd);
    forall w | w in Words(cmd)
      ensures w.q < w.eq <= |s| && CString(buf[..], w.q) == s[w.q..w.eq]
    {
      WordIsString(s, cmd, buf[..], w);
    }
    r := Ok(r.cmd, |s|);
  }

  lemma WordInside(s: string, w: Word)
    requires WordOk(s, w)
    ensures w.q < w.eq <= |s|
  {
  }
}
