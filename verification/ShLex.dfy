/**
 The scanner of sh.c: gettoken and peek.  A position is an index into the line; the line's end reads
 as NUL.
 */
module ShLex {

  const NUL: char := '\U{0000}'

  predicate Space(c: char) {
    c == ' ' || c == '\t' || c == '\r' || c == '\n' || c == '\U{000B}'
  }

  predicate Symbol(c: char) {
    c == '<' || c == '|' || c == '>' || c == '&' || c == ';' || c == '(' || c == ')'
  }

  /** What a word is made of. */
  predicate WordChar(c: char) {
    !Space(c) && !Symbol(c)
  }

  /** *s, where the line is terminated. */
  function CharAt(s: string, i: nat): char
  {
    if i < |s| then s[i] else NUL
  }

  function SkipSpace(s: string, i: nat): (j: nat)
    requires i <= |s|
    ensures i <= j <= |s| && (j < |s| ==> !Space(s[j])) && (forall k :: i <= k < j ==> Space(s[k]))
    decreases |s| - i
  {
    if i < |s| && Space(s[i]) then SkipSpace(s, i + 1) else i
  }

  function WordEnd(s: string, i: nat): (j: nat)
    requires i <= |s|
    ensures i <= j <= |s| && (j < |s| ==> !WordChar(s[j])) && (forall k :: i <= k < j ==> WordChar(s[k]))
    decreases |s| - i
  {
    if i < |s| && WordChar(s[i]) then WordEnd(s, i + 1) else i
  }

  /** ret, *q, *eq and the new *ps of gettoken. */
  datatype Token = Token(ret: char, q: nat, eq: nat, next: nat)

  /** Where the token that starts at q ends. */
  function TokenEnd(s: string, q: nat): (e: nat)
    requires q <= |s| && !Space(CharAt(s, q))
    ensures q <= e <= |s| && (CharAt(s, q) != NUL ==> q < e) && (q < |s| && WordChar(s[q]) && s[q] != NUL ==> e == WordEnd(s, q))
  {
    var c := CharAt(s, q);
    if c == NUL then q
    else if c == '>' then (if CharAt(s, q + 1) == '>' then q + 2 else q + 1)
    else if Symbol(c) then q + 1
    else WordEnd(s, q)
  }

  function TokenCode(s: string, q: nat): char
    requires q <= |s|
  {
    var c := CharAt(s, q);
    if c == NUL then NUL
    else if c == '>' && CharAt(s, q + 1) == '>' then '+'
    else if Symbol(c) then c
    else 'a'
  }

  function GetToken(s: string, i: nat): (t: Token)
    requires i <= |s|
    ensures i <= t.q <= t.eq <= t.next <= |s|
    ensures t.ret != NUL ==> i < t.next
    ensures t.ret == 'a' ==> t.q < t.eq && (forall k :: t.q <= k < t.eq ==> WordChar(s[k])) && (t.eq < |s| ==> !WordChar(s[t.eq]))
  {
    var q := SkipSpace(s, i);
    var eq := TokenEnd(s, q);
    Token(TokenCode(s, q), q, eq, SkipSpace(s, eq))
  }

  /** Whether the next character is one of toks. */
  predicate Peeks(s: string, i: nat, toks: string)
    requires i <= |s|
  {
    var c := CharAt(s, SkipSpace(s, i));
    c != NUL && c in toks
  }

  // ---- The loops ----

  method Skip(s: string, ps: nat) returns (i: nat)
    requires ps <= |s|
    ensures i == SkipSpace(s, ps)
  {
    i := ps;
    while i < |s| && Space(s[i])
      invariant ps <= i <= |s| && SkipSpace(s, i) == SkipSpace(s, ps)
    {
      i := i + 1;
    }
  }

  method ScanWord(s: string, q: nat) returns (i: nat)
    requires q <= |s|
    ensures i == WordEnd(s, q)
  {
    i := q;
    while i < |s| && !Space(s[i]) && !Symbol(s[i])
      invariant q <= i <= |s| && WordEnd(s, i) == WordEnd(s, q)
    {
      i := i + 1;
    }
  }

  method ScanToken(s: string, ps: nat) returns (ret: char, q: nat, eq: nat, next: nat)
    requires ps <= |s|
    ensures Token(ret, q, eq, next) == GetToken(s, ps)
  {
    hide SkipSpace, WordEnd;
    q := Skip(s, ps);
    eq := q;
    ret := CharAt(s, q);
    if ret == NUL {
    } else if ret == '|' || ret == '(' || ret == ')' || ret == ';' || ret == '&' || ret == '<' {
      eq := eq + 1;
    } else if ret == '>' {
      eq := eq + 1;
      if CharAt(s, eq) == '>' {
        ret := '+';
        eq := eq + 1;
      }
    } else {
      ret := 'a';
      eq := ScanWord(s, q);
    }
    next := Skip(s, eq);
  }

  method Peek(s: string, ps: nat, toks: string) returns (next: nat, found: bool)
    requires ps <= |s|
    ensures next == SkipSpace(s, ps) && found == Peeks(s, ps, toks)
  {
    next := Skip(s, ps);
    found := CharAt(s, next) != NUL && CharAt(s, next) in toks;
  }

  predicate Lexable(w: string) {
    w != "" && forall k :: 0 <= k < |w| ==> WordChar(w[k]) && w[k] != NUL
  }

  lemma SkipTwice(s: string, i: nat)
    requires i <= |s|
    ensures SkipSpace(s, SkipSpace(s, i)) == SkipSpace(s, i)
  {
  }

  lemma {:induction false} WordEndIs(s: string, i: nat, j: nat)
    requires i <= j <= |s| && (forall k :: i <= k < j ==> WordChar(s[k])) && (j < |s| ==> !WordChar(s[j]))
    ensures WordEnd(s, i) == j
    decreases j - i
  {
    if i < j {
      WordEndIs(s, i + 1, j);
    }
  }
}
