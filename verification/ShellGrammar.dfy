/**
 The command language of user/sh.c: tokens, the grammar its recursive-descent parser follows,
 and the trees it builds. Words are spans of the line, as argv and eargv point into it; the
 line is NUL-free and is followed by its NUL.
 */
module ShellGrammar {

  const NUL: char := 0 as char
  const MAXARGS: int := 10

  predicate Blank(c: char) { c == ' ' || c == '\t' || c == '\r' || c == '\n' || c == 11 as char }

  predicate Symbol(c: char) { c == '<' || c == '|' || c == '>' || c == '&' || c == ';' || c == '(' || c == ')' }

  predicate WordChar(c: char) { !Blank(c) && !Symbol(c) && c != NUL }

  /** The character at s; the NUL at the end of the line. */
  function Ch(line: string, s: int): char { if 0 <= s < |line| then line[s] else NUL }

  datatype Span = Span(from: int, to: int)

  datatype Kind = In | Out | Append

  datatype Cmd<W> =
    | Exec(args: seq<W>)
    | Redir(sub: Cmd<W>, kind: Kind, file: W)
    | Pipe(left: Cmd<W>, right: Cmd<W>)
    | List(first: Cmd<W>, second: Cmd<W>)
    | Back(job: Cmd<W>)

  datatype Redirect<W> = Redirect(kind: Kind, file: W)

  /** A parse that went through up to pos, or the panic that ends the shell. */
  datatype Parsed<T> = Ok(value: T, pos: int) | Panic

  // ---- tokens

  function Skip(line: string, s: nat): (p: nat)
    requires s <= |line|
    ensures s <= p <= |line| && (p < |line| ==> !Blank(line[p]))
    decreases |line| - s
  {
    if s < |line| && Blank(line[s]) then Skip(line, s + 1) else s
  }

  function WordEnd(line: string, s: nat): (p: nat)
    requires s <= |line|
    ensures s <= p <= |line| && (p < |line| ==> Blank(line[p]) || Symbol(line[p]))
    ensures forall k :: s <= k < p ==> !Blank(line[k]) && !Symbol(line[k])
    decreases |line| - s
  {
    if s < |line| && !Blank(line[s]) && !Symbol(line[s]) then WordEnd(line, s + 1) else s
  }

  /** kind is NUL at the end, 'a' for a word, '+' for >>, else the symbol; the token is [from, to). */
  datatype Token = Token(kind: char, from: nat, to: nat, next: nat)

  function Next(line: string, s: nat): (t: Token)
    requires s <= |line|
    ensures s <= t.from <= t.to <= t.next <= |line|
    ensures t.kind != NUL && NUL !in line ==> s < t.next
  {
    var q := Skip(line, s);
    var c := Ch(line, q);
    if c == NUL then Token(NUL, q, q, q)
    else if c == '>' then
      if Ch(line, q + 1) == '>' then Token('+', q, q + 2, Skip(line, q + 2))
      else Token('>', q, q + 1, Skip(line, q + 1))
    else if Symbol(c) then Token(c, q, q + 1, Skip(line, q + 1))
    else
      var e := WordEnd(line, q);
      Token('a', q, e, Skip(line, e))
  }

  /** peek: the next character is one of these. */
  predicate Sees(line: string, s: nat, toks: string)
    requires s <= |line|
  {
    var c := Ch(line, Skip(line, s));
    c != NUL && c in toks
  }

  // ---- the grammar

  function KindOf(tok: char): Kind { if tok == '<' then In else if tok == '>' then Out else Append }

  function Redirs(line: string, s: nat, rs: seq<Redirect<Span>>): (r: Parsed<seq<Redirect<Span>>>)
    requires s <= |line| && NUL !in line
    ensures r.Ok? ==> s <= r.pos <= |line|
    decreases |line| - s
  {
    if !Sees(line, s, "<>") then Ok(rs, Skip(line, s))
    else
      var t := Next(line, s);
      var f := Next(line, t.next);
      if f.kind != 'a' then Panic
      else Redirs(line, f.next, rs + [Redirect(KindOf(t.kind), Span(f.from, f.to))])
  }

  function Wrap<W>(c: Cmd<W>, rs: seq<Redirect<W>>): Cmd<W>
    decreases |rs|
  {
    if rs == [] then c
    else Redir(Wrap(c, rs[..|rs| - 1]), rs[|rs| - 1].kind, rs[|rs| - 1].file)
  }

  /** parseexec's loop, with the arguments and redirections so far */
  function Args(line: string, s: nat, args: seq<Span>, rs: seq<Redirect<Span>>): (r: Parsed<Cmd<Span>>)
    requires s <= |line| && NUL !in line
    ensures r.Ok? ==> s <= r.pos <= |line|
    decreases |line| - s
  {
    if Sees(line, s, "|)&;") then Ok(Wrap(Exec(args), rs), Skip(line, s))
    else
      var t := Next(line, s);
      if t.kind == NUL then Ok(Wrap(Exec(args), rs), t.next)
      else if t.kind != 'a' || |args| + 1 >= MAXARGS then Panic
      else
        var more := Redirs(line, t.next, rs);
        if more.Panic? then Panic else Args(line, more.pos, args + [Span(t.from, t.to)], more.value)
  }

  function Block(line: string, s: nat): (r: Parsed<Cmd<Span>>)
    requires s <= |line| && NUL !in line && Sees(line, s, "(")
    ensures r.Ok? ==> s < r.pos <= |line|
    decreases |line| - s, 0
  {
    var inner := Line(line, Next(line, s).next);
    if inner.Panic? || !Sees(line, inner.pos, ")") then Panic
    else
      var more := Redirs(line, Next(line, inner.pos).next, []);
      if more.Panic? then Panic else Ok(Wrap(inner.value, more.value), more.pos)
  }

  function Simple(line: string, s: nat): (r: Parsed<Cmd<Span>>)
    requires s <= |line| && NUL !in line
    ensures r.Ok? ==> s <= r.pos <= |line|
    decreases |line| - s, 1
  {
    if Sees(line, s, "(") then Block(line, s)
    else
      var more := Redirs(line, s, []);
      if more.Panic? then Panic else Args(line, more.pos, [], more.value)
  }

  function Pipeline(line: string, s: nat): (r: Parsed<Cmd<Span>>)
    requires s <= |line| && NUL !in line
    ensures r.Ok? ==> s <= r.pos <= |line|
    decreases |line| - s, 2
  {
    var left := Simple(line, s);
    if left.Panic? || !Sees(line, left.pos, "|") then Skipped(line, left)
    else
      var right := Pipeline(line, Next(line, left.pos).next);
      if right.Panic? then Panic else Ok(Pipe(left.value, right.value), right.pos)
  }

  /** peek leaves the position at the next character. */
  function Skipped(line: string, r: Parsed<Cmd<Span>>): (r': Parsed<Cmd<Span>>)
    requires r.Ok? ==> 0 <= r.pos <= |line|
    ensures r'.Ok? ==> r.Ok? && r.pos <= r'.pos <= |line|
  {
    if r.Panic? then Panic else Ok(r.value, Skip(line, r.pos))
  }

  /** parseline's loop over & */
  function Backs(line: string, s: nat, c: Cmd<Span>): (r: Parsed<Cmd<Span>>)
    requires s <= |line| && NUL !in line
    ensures r.Ok? && s <= r.pos <= |line|
    decreases |line| - s
  {
    if Sees(line, s, "&") then Backs(line, Next(line, s).next, Back(c)) else Ok(c, Skip(line, s))
  }

  function Line(line: string, s: nat): (r: Parsed<Cmd<Span>>)
    requires s <= |line| && NUL !in line
    ensures r.Ok? ==> s <= r.pos <= |line|
    decreases |line| - s, 3
  {
    var head := Pipeline(line, s);
    if head.Panic? then Panic
    else
      var first := Backs(line, head.pos, head.value);
      if !Sees(line, first.pos, ";") then Skipped(line, first)
      else
        var second := Line(line, Next(line, first.pos).next);
        if second.Panic? then Panic else Ok(List(first.value, second.value), second.pos)
  }

  /** parsecmd, before the words are terminated */
  function Command(line: string): (r: Parsed<Cmd<Span>>)
    requires NUL !in line
  {
    var c := Line(line, 0);
    if c.Panic? || Skip(line, c.pos) != |line| then Panic else Ok(c.value, |line|)
  }
}
