/** Command trees with their words, apart from any line. */
module ShTree {
  import opened ShParse

  /** A command tree by itself, with its words. */
  datatype Tree =
    | TExec(args: seq<string>)
    | TRedir(cmd: Tree, file: string, mode: Mode)
    | TPipe(left: Tree, right: Tree)
    | TList(left: Tree, right: Tree)
    | TBack(cmd: Tree)

  /** The text of a word of the line. */
  function Text(s: string, w: Word): string
  {
    if w.q <= w.eq <= |s| then s[w.q..w.eq] else ""
  }

  /** The tree that a parsed command denotes. */
  function Denote(s: string, c: Cmd): Tree
  {
    match c
    case Exec(args) => TExec(seq(|args|, k requires 0 <= k < |args| => Text(s, args[k])))
    case Redir(c, f, m) => TRedir(Denote(s, c), Text(s, f), m)
    case Pipe(l, r) => TPipe(Denote(s, l), Denote(s, r))
    case List(l, r) => TList(Denote(s, l), Denote(s, r))
    case Back(c) => TBack(Denote(s, c))
  }
}
