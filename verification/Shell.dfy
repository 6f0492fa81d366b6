/**
 The parser of user/sh.c as it runs: a position moved along the line by peek and gettoken,
 loops that collect background marks, redirections and arguments, and nulterminate writing
 NULs into the line once it is parsed.
 */
module Shell {
  import opened ShellGrammar
  import opened ShellSyntax
  import opened ShellAccept

  // ---- tokens

  method SkipBlanks(line: string, s: nat) returns (p: nat)
    requires s <= |line|
    ensures p == Skip(line, s)
  {
    p := s;
    while p < |line| && Blank(line[p])
      invariant s <= p <= |line| && Skip(line, p) == Skip(line, s)
    {
      p := p + 1;
    }
  }

  method Gettoken(line: string, s: nat) returns (t: Token)
    requires s <= |line|
    ensures t == Next(line, s)
  {
    var q := SkipBlanks(line, s);
    var p := q;
    var ret := Ch(line, q);
    if ret == NUL {
    } else if ret == '>' {
      p := p + 1;
      if Ch(line, p) == '>' {
        ret := '+';
        p := p + 1;
      }
    } else if Symbol(ret) {
      p := p + 1;
    } else {
      ret := 'a';
      while p < |line| && !Blank(line[p]) && !Symbol(line[p])
        invariant q <= p <= |line| && WordEnd(line, p) == WordEnd(line, q)
      {
        p := p + 1;
      }
    }
    var next := SkipBlanks(line, p);
    t := Token(ret, q, p, next);
  }

  method Peek(line: string, s: nat, toks: string) returns (p: nat, r: bool)
    requires s <= |line|
    ensures p == Skip(line, s) && (r <==> Sees(line, s, toks))
  {
    p := SkipBlanks(line, s);
    r := Ch(line, p) != NUL && Ch(line, p) in toks;
  }

  // ---- the parse functions

  /** The position peek moves to does not matter to what comes next. */
  lemma SkipTwice(line: string, s: nat, toks: string)
    requires s <= |line|
    ensures Skip(line, Skip(line, s)) == Skip(line, s) && Next(line, Skip(line, s)) == Next(line, s)
    ensures Sees(line, Skip(line, s), toks) <==> Sees(line, s, toks)
  {
    hide Next, Sees;
    SkipSolid(line, Skip(line, s));
    NextSkipped(line, s, toks);
  }

  lemma NextSkipped(line: string, s: nat, toks: string)
    requires s <= |line| && Skip(line, Skip(line, s)) == Skip(line, s)
    ensures Next(line, Skip(line, s)) == Next(line, s) && (Sees(line, Skip(line, s), toks) <==> Sees(line, s, toks))
  {
    hide Skip, WordEnd;
  }

  method Parseredirs(line: string, s: nat, rs: seq<Redirect<Span>>) returns (r: Parsed<seq<Redirect<Span>>>)
    requires s <= |line| && NUL !in line
    ensures r == Redirs(line, s, rs)
  {
    hide Skip, Next, Sees;
    var p, more := Peek(line, s, "<>");
    var now := rs;
    SkipTwice(line, s, "<>");
    ghost var at := s;
    while more
      invariant at <= |line| && p == Skip(line, at) && (more <==> Sees(line, at, "<>"))
      invariant Redirs(line, at, now) == Redirs(line, s, rs)
      decreases |line| - at
    {
      SkipTwice(line, at, "<>");
      var t := Gettoken(line, p);
      var f := Gettoken(line, t.next);
      if f.kind != 'a' {
        return Panic;
      }
      now := now + [Redirect(KindOf(t.kind), Span(f.from, f.to))];
      at := f.next;
      p, more := Peek(line, f.next, "<>");
    }
    r := Ok(now, p);
  }

  method Parseexec(line: string, s: nat) returns (r: Parsed<Cmd<Span>>)
    requires s <= |line| && NUL !in line
    ensures r == Simple(line, s)
    decreases |line| - s, 1
  {
    hide Skip, Next, Sees, Redirs;
    var p, block := Peek(line, s, "(");
    SkipTwice(line, s, "(");
    if block {
      BlockSkip(line, s);
      r := Parseblock(line, p);
      return;
    }
    var args: seq<Span> := [];
    RedirsSkip(line, s, []);
    var more := Parseredirs(line, p, []);
    if more.Panic? {
      return Panic;
    }
    var rs := more.value;
    ghost var at := more.pos;
    var over;
    p, over := Peek(line, more.pos, "|)&;");
    while !over
      invariant at <= |line| && p == Skip(line, at) && (over <==> Sees(line, at, "|)&;"))
      invariant Args(line, at, args, rs) == Simple(line, s)
      decreases |line| - at
    {
      SkipTwice(line, at, "|)&;");
      var t := Gettoken(line, p);
      if t.kind == NUL {
        return Ok(Wrap(Exec(args), rs), t.next);
      }
      if t.kind != 'a' || |args| + 1 >= MAXARGS {
        return Panic;
      }
      more := Parseredirs(line, t.next, rs);
      if more.Panic? {
        return Panic;
      }
      args, rs := args + [Span(t.from, t.to)], more.value;
      at := more.pos;
      p, over := Peek(line, more.pos, "|)&;");
    }
    r := Ok(Wrap(Exec(args), rs), p);
  }

  lemma BlockSkip(line: string, s: nat)
    requires s <= |line| && NUL !in line && Sees(line, s, "(")
    ensures Sees(line, Skip(line, s), "(") && Block(line, Skip(line, s)) == Block(line, s)
  {
    hide Skip, Next, Sees, Redirs;
    SkipTwice(line, s, "(");
  }

  lemma RedirsSkip(line: string, s: nat, rs: seq<Redirect<Span>>)
    requires s <= |line| && NUL !in line
    ensures Redirs(line, Skip(line, s), rs) == Redirs(line, s, rs)
  {
    hide Skip, Next, Sees;
    SkipTwice(line, s, "<>");
  }

  method Parseblock(line: string, s: nat) returns (r: Parsed<Cmd<Span>>)
    requires s <= |line| && NUL !in line && Sees(line, s, "(")
    ensures r == Block(line, s)
    decreases |line| - s, 0
  {
    hide Skip, Next, Sees, Redirs;
    SkipTwice(line, s, "(");
    SeenMoves(line, s, "(");
    var p, open := Peek(line, s, "(");
    var t := Gettoken(line, p);
    var inner := Parseline(line, t.next);
    if inner.Panic? {
      return Panic;
    }
    var close;
    p, close := Peek(line, inner.pos, ")");
    SkipTwice(line, inner.pos, ")");
    if !close {
      return Panic;
    }
    t := Gettoken(line, p);
    var more := Parseredirs(line, t.next, []);
    if more.Panic? {
      return Panic;
    }
    r := Ok(Wrap(inner.value, more.value), more.pos);
  }

  /** A token that peek has seen moves the position. */
  lemma SeenMoves(line: string, s: nat, toks: string)
    requires s <= |line| && NUL !in line && Sees(line, s, toks)
    ensures Next(line, s).next > s
  {
  }

  method Parsepipe(line: string, s: nat) returns (r: Parsed<Cmd<Span>>)
    requires s <= |line| && NUL !in line
    ensures r == Pipeline(line, s)
    decreases |line| - s, 2
  {
    hide Skip, Next, Sees, Simple;
    var left := Parseexec(line, s);
    if left.Panic? {
      return Panic;
    }
    var p, bar := Peek(line, left.pos, "|");
    SkipTwice(line, left.pos, "|");
    if !bar {
      return Ok(left.value, p);
    }
    SeenMoves(line, left.pos, "|");
    var t := Gettoken(line, p);
    var right := Parsepipe(line, t.next);
    r := if right.Panic? then Panic else Ok(Pipe(left.value, right.value), right.pos);
  }

  method Parseline(line: string, s: nat) returns (r: Parsed<Cmd<Span>>)
    requires s <= |line| && NUL !in line
    ensures r == Line(line, s)
    decreases |line| - s, 3
  {
    hide Skip, Next, Sees, Pipeline;
    var head := Parsepipe(line, s);
    if head.Panic? {
      return Panic;
    }
    var cmd := head.value;
    ghost var at := head.pos;
    var p, more := Peek(line, head.pos, "&");
    while more
      invariant head.pos <= at <= |line| && p == Skip(line, at) && (more <==> Sees(line, at, "&"))
      invariant Backs(line, at, cmd) == Backs(line, head.pos, head.value)
      decreases |line| - at
    {
      SkipTwice(line, at, "&");
      SeenMoves(line, at, "&");
      var t := Gettoken(line, p);
      cmd := Back(cmd);
      at := t.next;
      p, more := Peek(line, t.next, "&");
    }
    var list;
    p, list := Peek(line, p, ";");
    SkipTwice(line, at, ";");
    SkipTwice(line, Skip(line, at), ";");
    if !list {
      return Ok(cmd, p);
    }
    SeenMoves(line, Skip(line, at), ";");
    var t := Gettoken(line, p);
    var second := Parseline(line, t.next);
    r := if second.Panic? then Panic else Ok(List(cmd, second.value), second.pos);
  }

  // ---- the words of a parsed line

  /** A maximal run of word characters. */
  predicate WordSpan(line: string, sp: Span) {
    && 0 <= sp.from < sp.to <= |line|
    && (forall k :: sp.from <= k < sp.to ==> WordChar(line[k]))
    && (sp.to < |line| ==> !WordChar(line[sp.to]))
  }

  ghost predicate Spanned(line: string, t: Cmd<Span>) {
    match t
    case Exec(args) => forall k :: 0 <= k < |args| ==> WordSpan(line, args[k])
    case Redir(sub, _, file) => Spanned(line, sub) && WordSpan(line, file)
    case Pipe(left, right) => Spanned(line, left) && Spanned(line, right)
    case List(first, second) => Spanned(line, first) && Spanned(line, second)
    case Back(job) => Spanned(line, job)
  }

  ghost predicate SpannedChain(line: string, rs: seq<Redirect<Span>>) {
    forall k :: 0 <= k < |rs| ==> WordSpan(line, rs[k].file)
  }

  lemma TokenSpan(line: string, s: nat)
    requires s <= |line| && NUL !in line && Next(line, s).kind == 'a'
    ensures WordSpan(line, Span(Next(line, s).from, Next(line, s).to))
  {
    hide Skip, WordEnd;
    var q := Skip(line, s);
    assert q < |line| && !Blank(line[q]);
    var e := WordEnd(line, q);
    assert e != q;
    forall k | q <= k < e ensures WordChar(line[k]) {
      assert line[k] in line;
    }
  }

  lemma {:induction false} RedirsSpanned(line: string, s: nat, rs: seq<Redirect<Span>>)
    requires s <= |line| && NUL !in line && SpannedChain(line, rs) && Redirs(line, s, rs).Ok?
    ensures SpannedChain(line, Redirs(line, s, rs).value)
    decreases |line| - s
  {
    hide Skip, WordEnd, WordSpan, Next;
    if Sees(line, s, "<>") {
      var t := Next(line, s);
      var f := Next(line, t.next);
      TokenSpan(line, t.next);
      SeenMoves(line, s, "<>");
      RedirsSpanned(line, f.next, rs + [Redirect(KindOf(t.kind), Span(f.from, f.to))]);
    }
  }

  lemma MovesOn(line: string, s: nat)
    requires s <= |line| && NUL !in line && Next(line, s).kind != NUL
    ensures Next(line, s).next > s
  {
  }

  lemma {:induction false} WrapSpanned(line: string, t: Cmd<Span>, rs: seq<Redirect<Span>>)
    requires Spanned(line, t) && SpannedChain(line, rs)
    ensures Spanned(line, Wrap(t, rs))
    decreases |rs|
  {
    hide WordSpan;
    if rs != [] {
      WrapSpanned(line, t, rs[..|rs| - 1]);
    }
  }

  lemma {:induction false} ArgsSpanned(line: string, s: nat, args: seq<Span>, rs: seq<Redirect<Span>>)
    requires s <= |line| && NUL !in line && Spanned(line, Exec(args)) && SpannedChain(line, rs)
    requires Args(line, s, args, rs).Ok?
    ensures Spanned(line, Args(line, s, args, rs).value)
    decreases |line| - s
  {
    hide Skip, WordEnd, WordSpan, Next, Redirs, SpannedChain, Wrap;
    WrapSpanned(line, Exec(args), rs);
    var t := Next(line, s);
    if !Sees(line, s, "|)&;") && t.kind != NUL {
      var more := Redirs(line, t.next, rs);
      TokenSpan(line, s);
      MovesOn(line, s);
      RedirsSpanned(line, t.next, rs);
      ArgsSpanned(line, more.pos, args + [Span(t.from, t.to)], more.value);
    }
  }

  lemma {:induction false} SimpleSpanned(line: string, s: nat)
    requires s <= |line| && NUL !in line && Simple(line, s).Ok?
    ensures Spanned(line, Simple(line, s).value)
    decreases |line| - s, 1
  {
    hide Skip, Next, Redirs, Args, Line, Wrap, Sees, Spanned;
    if Sees(line, s, "(") {
      SeenMoves(line, s, "(");
      var inner := Line(line, Next(line, s).next);
      LineSpanned(line, Next(line, s).next);
      EmptyChain(line);
      RedirsSpanned(line, Next(line, inner.pos).next, []);
      WrapSpanned(line, inner.value, Redirs(line, Next(line, inner.pos).next, []).value);
    } else {
      EmptyChain(line);
      RedirsSpanned(line, s, []);
      ArgsSpanned(line, Redirs(line, s, []).pos, [], Redirs(line, s, []).value);
    }
  }

  lemma EmptyChain(line: string)
    ensures SpannedChain(line, []) && Spanned(line, Exec([]))
  {
  }

  lemma {:induction false} PipelineSpanned(line: string, s: nat)
    requires s <= |line| && NUL !in line && Pipeline(line, s).Ok?
    ensures Spanned(line, Pipeline(line, s).value)
    decreases |line| - s, 2
  {
    hide Skip, Next, Simple, Sees;
    SimpleSpanned(line, s);
    var left := Simple(line, s);
    if Sees(line, left.pos, "|") {
      SeenMoves(line, left.pos, "|");
      PipelineSpanned(line, Next(line, left.pos).next);
    }
  }

  lemma {:induction false} BacksSpanned(line: string, s: nat, t: Cmd<Span>)
    requires s <= |line| && NUL !in line && Spanned(line, t)
    ensures Spanned(line, Backs(line, s, t).value)
    decreases |line| - s
  {
    hide Skip, Next, Sees;
    if Sees(line, s, "&") {
      SeenMoves(line, s, "&");
      BacksSpanned(line, Next(line, s).next, Back(t));
    }
  }

  lemma {:induction false} LineSpanned(line: string, s: nat)
    requires s <= |line| && NUL !in line && Line(line, s).Ok?
    ensures Spanned(line, Line(line, s).value)
    decreases |line| - s, 3
  {
    hide Skip, Next, Pipeline, Sees, Backs;
    PipelineSpanned(line, s);
    var head := Pipeline(line, s);
    var first := Backs(line, head.pos, head.value);
    BacksSpanned(line, head.pos, head.value);
    if Sees(line, first.pos, ";") {
      SeenMoves(line, first.pos, ";");
      LineSpanned(line, Next(line, first.pos).next);
    }
  }

  // ---- terminating the words

  /** Where nulterminate writes. */
  function Ends(t: Cmd<Span>): set<int> {
    match t
    case Exec(args) => set sp | sp in args :: sp.to
    case Redir(sub, _, file) => Ends(sub) + {file.to}
    case Pipe(left, right) => Ends(left) + Ends(right)
    case List(first, second) => Ends(first) + Ends(second)
    case Back(job) => Ends(job)
  }

  method Nulterminate(t: Cmd<Span>, buf: array<char>, ghost line: string)
    requires buf.Length == |line| + 1 && Spanned(line, t)
    modifies buf
    ensures forall i :: 0 <= i < buf.Length ==> buf[i] == if i in Ends(t) then NUL else old(buf[i])
    decreases t
  {
    match t
    case Exec(args) =>
      var k := 0;
      while k < |args|
        invariant 0 <= k <= |args|
        invariant forall i :: 0 <= i < buf.Length ==> buf[i] == if i in Ends(Exec(args[..k])) then NUL else old(buf[i])
      {
        EndsMore(args, k);
        buf[args[k].to] := NUL;
        k := k + 1;
      }
      assert args[..|args|] == args;
    case Redir(sub, _, file) =>
      Nulterminate(sub, buf, line);
      buf[file.to] := NUL;
    case Pipe(left, right) =>
      Nulterminate(left, buf, line);
      Nulterminate(right, buf, line);
    case List(first, second) =>
      Nulterminate(first, buf, line);
      Nulterminate(second, buf, line);
    case Back(job) => Nulterminate(job, buf, line);
  }

  lemma EndsMore(args: seq<Span>, k: int)
    requires 0 <= k < |args|
    ensures Ends(Exec(args[..k + 1])) == Ends(Exec(args[..k])) + {args[k].to}
  {
    assert args[..k + 1] == args[..k] + [args[k]];
  }

  /** The C string at a word's start is that word, byte for byte. */
  predicate EndsThere(buf: seq<char>, line: string, sp: Span) {
    && 0 <= sp.from <= sp.to < |buf| && sp.to <= |line|
    && buf[sp.from..sp.to] == line[sp.from..sp.to] && buf[sp.to] == NUL
  }

  ghost predicate Terminated(buf: seq<char>, line: string, t: Cmd<Span>) {
    match t
    case Exec(args) => forall k :: 0 <= k < |args| ==> EndsThere(buf, line, args[k])
    case Redir(sub, _, file) => Terminated(buf, line, sub) && EndsThere(buf, line, file)
    case Pipe(left, right) => Terminated(buf, line, left) && Terminated(buf, line, right)
    case List(first, second) => Terminated(buf, line, first) && Terminated(buf, line, second)
    case Back(job) => Terminated(buf, line, job)
  }

  /** Every write of nulterminate falls on a character that is in no word. */
  lemma {:induction false} EndsOutside(line: string, t: Cmd<Span>, i: int)
    requires Spanned(line, t) && i in Ends(t)
    ensures 0 < i <= |line| && (i < |line| ==> !WordChar(line[i]))
    decreases t
  {
    match t
    case Exec(args) =>
    case Redir(sub, _, _) => if i in Ends(sub) { EndsOutside(line, sub, i); }
    case Pipe(left, right) => if i in Ends(left) { EndsOutside(line, left, i); } else { EndsOutside(line, right, i); }
    case List(first, second) =>
      if i in Ends(first) { EndsOutside(line, first, i); } else { EndsOutside(line, second, i); }
    case Back(job) => EndsOutside(line, job, i);
  }

  lemma {:induction false} TerminatedPart(buf: seq<char>, line: string, whole: Cmd<Span>, t: Cmd<Span>)
    requires |buf| == |line| + 1 && Spanned(line, whole) && Spanned(line, t) && Ends(t) <= Ends(whole)
    requires forall i :: 0 <= i < |buf| ==> buf[i] == if i in Ends(whole) then NUL else (line + [NUL])[i]
    ensures Terminated(buf, line, t)
    decreases t
  {
    match t
    case Exec(args) =>
      forall k | 0 <= k < |args| ensures EndsThere(buf, line, args[k]) {
        assert args[k].to in Ends(t);
        WordKept(buf, line, whole, args[k]);
      }
    case Redir(sub, _, file) =>
      TerminatedPart(buf, line, whole, sub);
      WordKept(buf, line, whole, file);
    case Pipe(left, right) =>
      TerminatedPart(buf, line, whole, left);
      TerminatedPart(buf, line, whole, right);
    case List(first, second) =>
      TerminatedPart(buf, line, whole, first);
      TerminatedPart(buf, line, whole, second);
    case Back(job) => TerminatedPart(buf, line, whole, job);
  }

  lemma WordKept(buf: seq<char>, line: string, whole: Cmd<Span>, sp: Span)
    requires |buf| == |line| + 1 && Spanned(line, whole) && WordSpan(line, sp) && sp.to in Ends(whole)
    requires forall i :: 0 <= i < |buf| ==> buf[i] == if i in Ends(whole) then NUL else (line + [NUL])[i]
    ensures EndsThere(buf, line, sp)
  {
    forall k | sp.from <= k < sp.to ensures buf[k] == line[k] {
      if k in Ends(whole) {
        EndsOutside(line, whole, k);
      }
    }
  }

  /** parsecmd on the line in buf: the tree that the sentence means, its words terminated in place. */
  method Parsecmd(buf: array<char>, n: nat) returns (r: Parsed<Cmd<Span>>)
    requires n + 1 == buf.Length && buf[n] == NUL && NUL !in buf[..n]
    modifies buf
    ensures r == Command(old(buf[..n]))
    ensures r.Ok? <==> exists x, gaps :: Sentence(old(buf[..n]), x, gaps)
    ensures forall x, gaps :: Sentence(old(buf[..n]), x, gaps) ==> r.Ok? && Words(old(buf[..n]), r.value) == Meaning(x)
    ensures r.Panic? ==> buf[..] == old(buf[..])
    ensures r.Ok? ==> Terminated(buf[..], old(buf[..n]), r.value)
  {
    hide Skip, Line, Sentence, Words, Meaning;
    var line := buf[..n];
    ParsesExactly(line);
    var c := Parseline(line, 0);
    if c.Panic? {
      return Panic;
    }
    var p, _ := Peek(line, c.pos, "");
    if p != n {
      return Panic;
    }
    LineSpanned(line, 0);
    assert buf[..] == line + [NUL];
    Nulterminate(c.value, buf, line);
    TerminatedPart(buf[..], line, c.value, c.value);
    r := Ok(c.value, n);
  }
}
