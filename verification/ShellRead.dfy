/**
 Every sentence of the shell's syntax, however its tokens are spaced, parses to what it means
 (user/sh.c).
 */
module ShellRead {
  import opened ShellGrammar
  import opened ShellSyntax

  // ---- the tokens of a line, whatever the blanks

  lemma {:induction false} SkipBlanks(line: string, s: nat, p: nat)
    requires s <= p <= |line| && Blanks(line[s..p]) && Solid(line, p)
    ensures Skip(line, s) == p
    decreases p - s
  {
    if s < p {
      assert line[s..p][0] == line[s];
      var tail := line[s + 1..p];
      forall k | 0 <= k < |tail| ensures Blank(tail[k]) {
        assert tail[k] == line[s..p][k + 1];
      }
      SkipBlanks(line, s + 1, p);
    }
  }

  lemma {:induction false} WordEnds(line: string, s: nat, e: nat)
    requires s <= e <= |line| && (forall k :: s <= k < e ==> WordChar(line[k]))
    requires e < |line| ==> Blank(line[e]) || Symbol(line[e])
    ensures WordEnd(line, s) == e
    decreases e - s
  {
    if s < e {
      WordEnds(line, s + 1, e);
    }
  }

  /** What comes after a token does not run into it. */
  predicate Stops(line: string, e: nat, tok: Tok) {
    && e <= |line|
    && (tok.Word? && e < |line| ==> Blank(line[e]) || Symbol(line[e]))
    && (tok == Mark('>') && e < |line| ==> line[e] != '>')
  }

  lemma TokenRead(line: string, q: nat, tok: Tok, next: nat)
    requires GoodTok(tok) && NUL !in line
    requires q + |Spelt(tok)| <= next <= |line| && line[q..q + |Spelt(tok)|] == Spelt(tok)
    requires Stops(line, q + |Spelt(tok)|, tok) && Blanks(line[q + |Spelt(tok)|..next]) && Solid(line, next)
    ensures Solid(line, q) && q < |line| && Next(line, q).next == next && Reads(line, Next(line, q), tok)
  {
    hide Skip, WordEnd;
    var e := q + |Spelt(tok)|;
    assert forall k :: q <= k < e ==> line[k] == Spelt(tok)[k - q];
    assert q < e && line[q] == Spelt(tok)[0];
    SkipSolid(line, q);
    SkipBlanks(line, e, next);
    if tok.Word? {
      WordEnds(line, q, e);
    }
  }

  /** The start of the next token, or the end of the line. */
  lemma FirstChar(toks: seq<Tok>, gaps: seq<string>)
    requires Lays(toks, gaps)
    ensures
      var rest := Spread(toks, gaps);
      && |gaps[0]| <= |rest| && rest[..|gaps[0]|] == gaps[0] && Blanks(gaps[0]) && (toks != [] ==> GoodTok(toks[0]))
      && (toks == [] ==> |rest| == |gaps[0]|)
      && (toks != [] ==> |gaps[0]| < |rest| && rest[|gaps[0]|] == Spelt(toks[0])[0] && !Blank(rest[|gaps[0]|]))
  {
    if toks != [] {
      assert GoodTok(toks[0]);
      var rest := Spread(toks, gaps);
      assert rest == gaps[0] + (Spelt(toks[0]) + Spread(toks[1..], gaps[1..]));
    }
  }

  lemma LaysRest(toks: seq<Tok>, gaps: seq<string>)
    requires Lays(toks, gaps) && toks != []
    ensures Lays(toks[1..], gaps[1..])
  {
  }

  /** Reading a laid-out line gives its tokens. */
  lemma {:induction false} LaidOut(line: string, s: nat, toks: seq<Tok>, gaps: seq<string>)
    requires Lays(toks, gaps) && s <= |line| && line[s..] == Spread(toks, gaps) && NUL !in line
    ensures s + |gaps[0]| <= |line| && Solid(line, s + |gaps[0]|) && Blanks(line[s..s + |gaps[0]|])
    ensures Spells(line, s + |gaps[0]|, toks, |line|)
    decreases |toks|
  {
    hide *;
    LaysSize(toks, gaps);
    Place(line, s, toks, gaps);
    if toks == [] {
      SpellsNone(line, |line|, toks);
    } else {
      var e := s + |gaps[0]| + |Spelt(toks[0])|;
      AfterToken(line, s, toks, gaps);
      LaysRest(toks, gaps);
      LaidOut(line, e, toks[1..], gaps[1..]);
      FirstToken(line, s, toks, gaps);
      SpellsMore(line, s + |gaps[0]|, toks, |line|);
    }
  }

  lemma SpellsNone(line: string, s: nat, toks: seq<Tok>)
    requires s <= |line| && toks == []
    ensures Spells(line, s, toks, s)
  {
  }

  lemma SpellsMore(line: string, s: nat, toks: seq<Tok>, p: nat)
    requires s <= |line| && toks != [] && Reads(line, Next(line, s), toks[0])
    requires Spells(line, Next(line, s).next, toks[1..], p)
    ensures Spells(line, s, toks, p)
  {
  }

  lemma Place(line: string, s: nat, toks: seq<Tok>, gaps: seq<string>)
    requires Lays(toks, gaps) && s <= |line| && line[s..] == Spread(toks, gaps)
    ensures s + |gaps[0]| <= |line| && Solid(line, s + |gaps[0]|) && Blanks(line[s..s + |gaps[0]|])
    ensures toks == [] ==> s + |gaps[0]| == |line|
  {
    FirstChar(toks, gaps);
    hide Spread, Blanks;
    var q := s + |gaps[0]|;
    assert line[s..q] == line[s..][..|gaps[0]|];
    if toks != [] {
      assert line[q] == line[s..][|gaps[0]|];
    }
  }

  lemma FirstToken(line: string, s: nat, toks: seq<Tok>, gaps: seq<string>)
    requires Lays(toks, gaps) && toks != [] && s <= |line| && line[s..] == Spread(toks, gaps) && NUL !in line
    ensures
      var q := s + |gaps[0]|;
      var next := q + |Spelt(toks[0])| + |gaps[1]|;
      q <= |line| && Next(line, q).next == next && Reads(line, Next(line, q), toks[0])
  {
    hide *;
    LaysSize(toks, gaps);
    Place(line, s, toks, gaps);
    var q := s + |gaps[0]|;
    var e := q + |Spelt(toks[0])|;
    FirstChar(toks, gaps);
    AfterToken(line, s, toks, gaps);
    LaysRest(toks, gaps);
    Place(line, e, toks[1..], gaps[1..]);
    StopsThere(line, e, toks, gaps);
    TokenRead(line, q, toks[0], e + |gaps[1]|);
  }

  lemma LaysSize(toks: seq<Tok>, gaps: seq<string>)
    requires Lays(toks, gaps)
    ensures |gaps| == |toks| + 1
  {
  }

  lemma AfterToken(line: string, s: nat, toks: seq<Tok>, gaps: seq<string>)
    requires Lays(toks, gaps) && toks != [] && s <= |line| && line[s..] == Spread(toks, gaps)
    ensures
      var q := s + |gaps[0]|;
      var e := q + |Spelt(toks[0])|;
      e <= |line| && line[q..e] == Spelt(toks[0]) && line[e..] == Spread(toks[1..], gaps[1..])
  {
    CutAt(line, s, gaps[0], Spelt(toks[0]), Spread(toks[1..], gaps[1..]));
  }

  lemma CutAt(line: string, s: nat, a: string, b: string, c: string)
    requires s <= |line| && line[s..] == a + b + c
    ensures s + |a| + |b| <= |line| && line[s + |a|..s + |a| + |b|] == b && line[s + |a| + |b|..] == c
  {
    var text := line[s..];
    assert line[s + |a|..s + |a| + |b|] == text[|a|..|a| + |b|];
    assert line[s + |a| + |b|..] == text[|a| + |b|..];
  }

  lemma StopsThere(line: string, e: nat, toks: seq<Tok>, gaps: seq<string>)
    requires Lays(toks, gaps) && toks != [] && e <= |line| && line[e..] == Spread(toks[1..], gaps[1..])
    ensures Stops(line, e, toks[0])
  {
    hide Spread;
    LaysRest(toks, gaps);
    FirstChar(toks[1..], gaps[1..]);
    var rest := Spread(toks[1..], gaps[1..]);
    if e < |line| {
      assert line[e] == rest[0];
      if gaps[1] != "" {
        assert rest[..|gaps[1]|][0] == rest[0];
        assert Blanks(gaps[1]);
      } else {
        assert toks[1..] != [] && toks[1..][0] == toks[1] && GoodTok(toks[1]);
        assert !Parted(toks[1 - 1], toks[1]);
      }
    }
  }

  // ---- leading blanks

  lemma SkipTwice(line: string, s: nat)
    requires s <= |line|
    ensures Skip(line, Skip(line, s)) == Skip(line, s)
  {
  }

  lemma LineSkips(line: string, s: nat)
    requires s <= |line| && NUL !in line
    ensures Line(line, s) == Line(line, Skip(line, s))
  {
    hide Skip, Line, Backs;
    SkipTwice(line, s);
    SimpleSkips(line, s);
    assert Pipeline(line, s) == Pipeline(line, Skip(line, s)) by { hide Simple; }
    LineOf(line, s);
    LineOf(line, Skip(line, s));
  }

  lemma LineOf(line: string, s: nat)
    requires s <= |line| && NUL !in line
    ensures
      var head := Pipeline(line, s);
      Line(line, s) ==
        if head.Panic? then Panic
        else
          var first := Backs(line, head.pos, head.value);
          if !Sees(line, first.pos, ";") then Skipped(line, first)
          else
            var second := Line(line, Next(line, first.pos).next);
            if second.Panic? then Panic else Ok(List(first.value, second.value), second.pos)
  {
    hide Skip, Pipeline, Backs, Next, Sees;
  }

  lemma TokenSkips(line: string, s: nat)
    requires s <= |line|
    ensures Next(line, s) == Next(line, Skip(line, s))
    ensures forall toks :: Sees(line, s, toks) <==> Sees(line, Skip(line, s), toks)
  {
    hide Skip, WordEnd;
    SkipTwice(line, s);
  }

  lemma SimpleSkips(line: string, s: nat)
    requires s <= |line| && NUL !in line
    ensures Simple(line, s) == Simple(line, Skip(line, s))
  {
    TokenSkips(line, s);
    RedirsSkips(line, s);
    hide Skip, Line, Args, Next, Sees, Redirs;
  }

  lemma RedirsSkips(line: string, s: nat)
    requires s <= |line| && NUL !in line
    ensures Redirs(line, s, []) == Redirs(line, Skip(line, s), [])
  {
    TokenSkips(line, s);
    SkipTwice(line, s);
    hide Skip, Next, Sees;
  }

  // ---- simple commands

  /** At p the line ends or goes on with one of these characters. */
  predicate Follows(line: string, p: int, toks: string) {
    0 <= p <= |line| && (p < |line| ==> line[p] in toks)
  }

  /** parseexec after some arguments and redirections. */
  function Rest(line: string, s: nat, args: seq<Span>, rs: seq<Redirect<Span>>): Parsed<Cmd<Span>>
    requires s <= |line| && NUL !in line
  {
    var more := Redirs(line, s, rs);
    if more.Panic? then Panic else Args(line, more.pos, args, more.value)
  }

  lemma RestEnds(line: string, s: nat, args: seq<Span>, rs: seq<Redirect<Span>>)
    requires Solid(line, s) && NUL !in line && Follows(line, s, "|)&;")
    ensures Rest(line, s, args, rs) == Ok(Wrap(Exec(args), rs), s)
  {
    hide Skip, WordEnd, Wrap;
    SeesAt(line, s, "<>");
    SeesAt(line, s, "|)&;");
    SkipSolid(line, s);
  }

  lemma RedirStep(line: string, s: nat, rs: seq<Redirect<Span>>, kind: Kind, file: string)
    requires Solid(line, s) && NUL !in line && Reads(line, Next(line, s), OpTok(kind))
    requires Reads(line, Next(line, Next(line, s).next), Word(file))
    ensures
      var f := Next(line, Next(line, s).next);
      && TextAt(line, Span(f.from, f.to)) == file
      && Redirs(line, s, rs) == Redirs(line, f.next, rs + [Redirect(kind, Span(f.from, f.to))])
  {
    hide Skip, WordEnd, Next;
    OpAt(line, s, kind);
    SeesAt(line, s, "<>");
    NextSolid(line, s);
    WordAt(line, Next(line, s).next, file);
  }

  lemma ArgStep(line: string, s: nat, args: seq<Span>, rs: seq<Redirect<Span>>, w: string)
    requires Solid(line, s) && NUL !in line && Reads(line, Next(line, s), Word(w)) && |args| + 1 < MAXARGS
    ensures
      var t := Next(line, s);
      && TextAt(line, Span(t.from, t.to)) == w
      && Rest(line, s, args, rs) == Rest(line, t.next, args + [Span(t.from, t.to)], rs)
  {
    hide Skip, WordEnd, Next;
    WordAt(line, s, w);
    SeesAt(line, s, "<>");
    SeesAt(line, s, "|)&;");
    SkipSolid(line, s);
    assert Redirs(line, s, rs) == Ok(rs, s);
  }

  /** The spans stand for these words and redirections. */
  predicate Stand(line: string, args: seq<Span>, rs: seq<Redirect<Span>>, items: seq<Item>) {
    Texts(line, args) == ArgsOf(items) && RedirTexts(line, rs) == RedirsOf(items)
  }

  lemma {:induction false} ReadItems(line: string, s: nat, items: seq<Item>, p: nat, args: seq<Span>,
          rs: seq<Redirect<Span>>)
      returns (more: seq<Span>, files: seq<Redirect<Span>>)
    requires Solid(line, s) && NUL !in line && Spells(line, s, ItemsToks(items), p) && Follows(line, p, "|)&;")
    requires |args| + |ArgsOf(items)| < MAXARGS
    ensures Stand(line, more, files, items)
    ensures Rest(line, s, args, rs) == Ok(Wrap(Exec(args + more), rs + files), p)
    decreases |items|
  {
    hide Next, Reads, Rest, Wrap, Follows, Spells, ItemsToks, Stand, ArgsOf;
    FirstItem(line, s, items, p);
    if items == [] {
      more, files := [], [];
      RestEnds(line, s, args, rs);
      assert args + more == args && rs + files == rs;
    } else {
      var t := Next(line, s);
      NextSolid(line, s);
      if items[0].Arg? {
        var w := items[0].word;
        ArgStep(line, s, args, rs, w);
        var sp := Span(t.from, t.to);
        more, files := ReadItems(line, t.next, items[1..], p, args + [sp], rs);
        assert args + [sp] + more == args + ([sp] + more);
        StandArg(line, sp, more, files, items);
        more := [sp] + more;
      } else {
        var r := items[0].redir;
        var f := Next(line, t.next);
        NextSolid(line, t.next);
        RedirStep(line, s, rs, r.kind, r.file);
        var red := Redirect(r.kind, Span(f.from, f.to));
        RestRedir(line, s, f.next, args, rs, red);
        more, files := ReadItems(line, f.next, items[1..], p, args, rs + [red]);
        assert rs + [red] + files == rs + ([red] + files);
        StandInto(line, red, more, files, items);
        files := [red] + files;
      }
    }
  }

  lemma FirstItem(line: string, s: nat, items: seq<Item>, p: nat)
    requires s <= |line| && Spells(line, s, ItemsToks(items), p)
    ensures items == [] ==> p == s && Stand(line, [], [], items) && ArgsOf(items) == []
    ensures items != [] && items[0].Arg? ==>
      && Reads(line, Next(line, s), Word(items[0].word))
      && Spells(line, Next(line, s).next, ItemsToks(items[1..]), p) && |ArgsOf(items)| == 1 + |ArgsOf(items[1..])|
    ensures items != [] && items[0].Into? ==>
      && Reads(line, Next(line, s), OpTok(items[0].redir.kind))
      && Reads(line, Next(line, Next(line, s).next), Word(items[0].redir.file))
      && Spells(line, Next(line, Next(line, s).next).next, ItemsToks(items[1..]), p)
      && |ArgsOf(items)| == |ArgsOf(items[1..])|
  {
    hide Next, Reads;
    if items != [] {
      var rest := ItemsToks(items[1..]);
      if items[0].Arg? {
        assert ItemsToks(items)[1..] == rest;
      } else {
        assert ItemsToks(items)[1..] == [Word(items[0].redir.file)] + rest;
        assert ([Word(items[0].redir.file)] + rest)[1..] == rest;
      }
    }
  }

  lemma RestRedir(line: string, s: nat, q: nat, args: seq<Span>, rs: seq<Redirect<Span>>, red: Redirect<Span>)
    requires s <= |line| && q <= |line| && NUL !in line && Redirs(line, s, rs) == Redirs(line, q, rs + [red])
    ensures Rest(line, s, args, rs) == Rest(line, q, args, rs + [red])
  {
    hide Redirs, Args;
  }

  lemma StandArg(line: string, sp: Span, more: seq<Span>, files: seq<Redirect<Span>>, items: seq<Item>)
    requires items != [] && items[0].Arg? && TextAt(line, sp) == items[0].word && Stand(line, more, files, items[1..])
    ensures Stand(line, [sp] + more, files, items)
  {
    assert Texts(line, [sp] + more) == [TextAt(line, sp)] + Texts(line, more);
  }

  lemma StandInto(line: string, red: Redirect<Span>, more: seq<Span>, files: seq<Redirect<Span>>, items: seq<Item>)
    requires items != [] && items[0].Into? && Stand(line, more, files, items[1..])
    requires Redirect(red.kind, TextAt(line, red.file)) == items[0].redir
    ensures Stand(line, more, [red] + files, items)
  {
    assert RedirTexts(line, [red] + files) == [items[0].redir] + RedirTexts(line, files);
  }

  /** parseredirs after a group. */
  lemma {:induction false} ReadRedirs(line: string, s: nat, rs: seq<Redirect<string>>, p: nat,
          done: seq<Redirect<Span>>)
      returns (files: seq<Redirect<Span>>)
    requires Solid(line, s) && NUL !in line && Spells(line, s, RedirToks(rs), p) && Follows(line, p, "|)&;")
    ensures RedirTexts(line, files) == rs && Redirs(line, s, done) == Ok(done + files, p)
    decreases |rs|
  {
    hide Next, Reads;
    if rs == [] {
      files := [];
      SeesAt(line, s, "<>");
      SkipSolid(line, s);
      assert done + files == done;
    } else {
      var t := Next(line, s);
      NextSolid(line, s);
      var rest := RedirToks(rs[1..]);
      assert RedirToks(rs)[1..] == [Word(rs[0].file)] + rest;
      var f := Next(line, t.next);
      NextSolid(line, t.next);
      assert ([Word(rs[0].file)] + rest)[1..] == rest;
      RedirStep(line, s, done, rs[0].kind, rs[0].file);
      var red := Redirect(rs[0].kind, Span(f.from, f.to));
      files := ReadRedirs(line, f.next, rs[1..], p, done + [red]);
      assert done + [red] + files == done + ([red] + files);
      assert RedirTexts(line, [red] + files) == [rs[0]] + RedirTexts(line, files);
      files := [red] + files;
    }
  }

  // ---- one step of each grammar function

  lemma SimplePlain(line: string, s: nat)
    requires Solid(line, s) && NUL !in line && (s < |line| ==> line[s] != '(')
    ensures Simple(line, s) == Rest(line, s, [], [])
  {
    hide Redirs, Args, Skip, Block;
    SeesAt(line, s, "(");
  }

  lemma SimpleGroup(line: string, s: nat, t: Cmd<Span>, p: nat, files: seq<Redirect<Span>>, e: nat)
    requires Solid(line, s) && NUL !in line && s < |line| && line[s] == '('
    requires Line(line, Next(line, s).next) == Ok(t, p) && p < |line| && line[p] == ')'
    requires Redirs(line, Next(line, p).next, []) == Ok(files, e)
    ensures Simple(line, s) == Ok(Wrap(t, files), e)
  {
    hide Redirs, Args, Skip, Line, Next, Wrap;
    SeesAt(line, s, "(");
    SeesAt(line, p, ")");
  }

  lemma PipelineOne(line: string, s: nat, t: Cmd<Span>, p: nat)
    requires s <= |line| && NUL !in line && Simple(line, s) == Ok(t, p) && Follows(line, p, ")&;")
    ensures Pipeline(line, s) == Ok(t, p)
  {
    hide Simple, Skip, Next, Sees;
    assert Solid(line, p);
    SeesAt(line, p, "|");
    SkipSolid(line, p);
  }

  lemma PipelineTwo(line: string, s: nat, t: Cmd<Span>, p: nat, u: Cmd<Span>, e: nat)
    requires s <= |line| && NUL !in line && Simple(line, s) == Ok(t, p) && p < |line| && line[p] == '|'
    requires Pipeline(line, Next(line, p).next) == Ok(u, e)
    ensures Pipeline(line, s) == Ok(Pipe(t, u), e)
  {
    hide Simple, Skip, Next, Sees;
    SeesAt(line, p, "|");
  }

  /** parseline up to the end of its loop over & */
  function Head(line: string, s: nat): Parsed<Cmd<Span>>
    requires s <= |line| && NUL !in line
  {
    var h := Pipeline(line, s);
    if h.Panic? then Panic else Backs(line, h.pos, h.value)
  }

  lemma BacksMore(line: string, p: nat, t: Cmd<Span>)
    requires NUL !in line && p < |line| && line[p] == '&'
    ensures Backs(line, p, t) == Backs(line, Next(line, p).next, Back(t))
  {
    hide Skip, Next, Sees;
    SeesAt(line, p, "&");
  }

  lemma BacksNone(line: string, p: nat, t: Cmd<Span>)
    requires NUL !in line && Follows(line, p, ");")
    ensures Backs(line, p, t) == Ok(t, p)
  {
    hide Skip, Next, Sees;
    assert Solid(line, p);
    SeesAt(line, p, "&");
    SkipSolid(line, p);
  }

  lemma LineOne(line: string, s: nat, t: Cmd<Span>, p: nat)
    requires s <= |line| && NUL !in line && Follows(line, p, ")") && Head(line, s) == Backs(line, p, t)
    ensures Line(line, s) == Ok(t, p)
  {
    hide Pipeline, Backs, Skip, Next, Sees;
    assert Solid(line, p);
    assert Follows(line, p, ");");
    BacksNone(line, p, t);
    SeesAt(line, p, ";");
    SkipSolid(line, p);
  }

  lemma LineTwo(line: string, s: nat, t: Cmd<Span>, p: nat, u: Cmd<Span>, e: nat)
    requires s <= |line| && NUL !in line && p < |line| && Head(line, s) == Backs(line, p, t) && line[p] == ';'
    requires Line(line, Next(line, p).next) == Ok(u, e)
    ensures Line(line, s) == Ok(List(t, u), e)
  {
    hide Pipeline, Backs, Skip, Next, Sees;
    assert Follows(line, p, ");");
    BacksNone(line, p, t);
    SeesAt(line, p, ";");
  }

  // ---- sentences

  lemma FollowsMore(line: string, p: int, toks: string)
    requires Follows(line, p, toks) && toks in {")", ");&", ")&;", "|)&;"}
    ensures Follows(line, p, "|)&;") && Solid(line, p)
    ensures toks != "|)&;" ==> Follows(line, p, ")&;") && Follows(line, p, ");&")
  {
  }

  /** A token in the middle: the part before it, the token, the part after. */
  lemma Middle(line: string, s: nat, a: seq<Tok>, c: char, b: seq<Tok>, p: nat) returns (q: nat)
    requires Solid(line, s) && NUL !in line && Spells(line, s, a + ([Mark(c)] + b), p)
    ensures s <= q < |line| && line[q] == c && Solid(line, q) && Spells(line, s, a, q)
    ensures Solid(line, Next(line, q).next) && Spells(line, Next(line, q).next, b, p)
  {
    hide Next;
    q := SpellsSplit(line, s, a, [Mark(c)] + b, p);
    assert ([Mark(c)] + b)[0] == Mark(c) && ([Mark(c)] + b)[1..] == b;
    MarkAt(line, q, c);
    NextSolid(line, q);
  }

  lemma ReadPlain(line: string, s: nat, x: Syntax, p: nat) returns (t: Cmd<Span>)
    requires x.Plain? && WellFormed(x) && Solid(line, s) && NUL !in line && Spells(line, s, Toks(x), p)
    requires Follows(line, p, "|)&;")
    ensures Words(line, t) == Meaning(x) && Simple(line, s) == Ok(t, p)
  {
    hide Simple, Rest, Next, Wrap, Reads;
    NotOpen(line, s, x.items, p);
    SimplePlain(line, s);
    var args, files := ReadItems(line, s, x.items, p, [], []);
    assert [] + args == args && [] + files == files;
    t := Wrap(Exec(args), files);
    WrapWords(line, Exec(args), files);
  }

  lemma NotOpen(line: string, s: nat, items: seq<Item>, p: nat)
    requires Solid(line, s) && NUL !in line && Spells(line, s, ItemsToks(items), p) && Follows(line, p, "|)&;")
    ensures s < |line| ==> line[s] != '('
  {
    hide Next, Reads;
    FirstItem(line, s, items, p);
    if items != [] {
      if items[0].Arg? {
        WordAt(line, s, items[0].word);
      } else {
        OpAt(line, s, items[0].redir.kind);
      }
    }
  }

  lemma {:induction false} ReadSimple(line: string, s: nat, x: Syntax, p: nat) returns (t: Cmd<Span>)
    requires WellFormed(x) && Level(x) == 3 && Solid(line, s) && NUL !in line && Spells(line, s, Toks(x), p)
    requires Follows(line, p, "|)&;")
    ensures Words(line, t) == Meaning(x) && Simple(line, s) == Ok(t, p)
    decreases x, 0
  {
    if x.Plain? {
      t := ReadPlain(line, s, x, p);
    } else {
      hide Simple, Next, Reads, Spells, Follows, Solid, Line, Redirs;
      var inner, rs := x.inner, x.redirs;
      var open := [Mark('(')] + (Toks(inner) + ([Mark(')')] + RedirToks(rs)));
      assert open == [] + open;
      var o := Middle(line, s, [], '(', Toks(inner) + ([Mark(')')] + RedirToks(rs)), p);
      SpellsEmpty(line, s, o);
      var i := Next(line, s).next;
      var q := Middle(line, i, Toks(inner), ')', RedirToks(rs), p);
      CloseFollows(line, q);
      var u := ReadLine(line, i, inner, q);
      var files := ReadRedirs(line, Next(line, q).next, rs, p, []);
      assert [] + files == files;
      SimpleGroup(line, s, u, q, files, p);
      t := Wrap(u, files);
      WrapWords(line, u, files);
    }
  }

  lemma SpellsEmpty(line: string, s: nat, p: nat)
    requires s <= |line| && Spells(line, s, [], p)
    ensures p == s
  {
  }

  lemma CloseFollows(line: string, q: nat)
    requires q < |line| && line[q] == ')'
    ensures Follows(line, q, ")")
  {
  }

  lemma {:induction false} ReadPipeline(line: string, s: nat, x: Syntax, p: nat) returns (t: Cmd<Span>)
    requires WellFormed(x) && Level(x) >= 2 && Solid(line, s) && NUL !in line && Spells(line, s, Toks(x), p)
    requires Follows(line, p, ")&;")
    ensures Words(line, t) == Meaning(x) && Pipeline(line, s) == Ok(t, p)
    decreases x, 1
  {
    hide Simple, Pipeline, Next, Spells, Follows, Solid;
    if x.Piped? {
      var q := Middle(line, s, Toks(x.left), '|', Toks(x.right), p);
      BarFollows(line, q);
      var u := ReadSimple(line, s, x.left, q);
      var v := ReadPipeline(line, Next(line, q).next, x.right, p);
      PipelineTwo(line, s, u, q, v, p);
      t := Pipe(u, v);
    } else {
      FollowsMore(line, p, ")&;");
      t := ReadSimple(line, s, x, p);
      PipelineOne(line, s, t, p);
    }
  }

  lemma BarFollows(line: string, q: nat)
    requires q < |line| && line[q] in "|)&;"
    ensures Follows(line, q, "|)&;") && (line[q] != '|' ==> Follows(line, q, ")&;") && Follows(line, q, ");&"))
  {
  }

  /** A job: parseline has read it, and any more & is still to come. */
  lemma {:induction false} ReadJob(line: string, s: nat, x: Syntax, p: nat) returns (t: Cmd<Span>)
    requires WellFormed(x) && Level(x) >= 1 && Solid(line, s) && NUL !in line && Spells(line, s, Toks(x), p)
    requires Follows(line, p, ");&") && p <= |line|
    ensures Words(line, t) == Meaning(x) && Head(line, s) == Backs(line, p, t)
    decreases x, 2
  {
    hide Pipeline, Next, Spells, Follows, Solid, Backs;
    if x.Bg? {
      assert [Mark('&')] + [] == [Mark('&')];
      var q := Middle(line, s, Toks(x.job), '&', [], p);
      SpellsEmpty(line, Next(line, q).next, p);
      BarFollows(line, q);
      var u := ReadJob(line, s, x.job, q);
      BacksMore(line, q, u);
      t := Back(u);
    } else {
      FollowsMore(line, p, ");&");
      t := ReadPipeline(line, s, x, p);
    }
  }

  lemma {:induction false} ReadLine(line: string, s: nat, x: Syntax, p: nat) returns (t: Cmd<Span>)
    requires WellFormed(x) && Solid(line, s) && NUL !in line && Spells(line, s, Toks(x), p) && Follows(line, p, ")")
    ensures Words(line, t) == Meaning(x) && Line(line, s) == Ok(t, p)
    decreases x, 3
  {
    hide Pipeline, Next, Spells, Backs, Line, Head;
    if x.Both? {
      var q := Middle(line, s, Toks(x.first), ';', Toks(x.second), p);
      BarFollows(line, q);
      var u := ReadJob(line, s, x.first, q);
      var v := ReadLine(line, Next(line, q).next, x.second, p);
      LineTwo(line, s, u, q, v, p);
      t := List(u, v);
    } else {
      FollowsMore(line, p, ")");
      t := ReadJob(line, s, x, p);
      LineOne(line, s, t, p);
    }
  }

  /** Every sentence, with any blanks between its tokens, parses to what it means. */
  lemma Parses(x: Syntax, gaps: seq<string>)
    requires WellFormed(x) && Lays(Toks(x), gaps)
    ensures
      var line := Spread(Toks(x), gaps);
      NUL !in line && Command(line).Ok? && Words(line, Command(line).value) == Meaning(x)
  {
    hide Line, Skip, Words, Spread, Spells, Lays, Toks, Blanks;
    LaysSize(Toks(x), gaps);
    var line := Spread(Toks(x), gaps);
    NoNul(Toks(x), gaps);
    assert line[0..] == line;
    LaidOut(line, 0, Toks(x), gaps);
    var s := |gaps[0]|;
    SkipBlanks(line, 0, s);
    LineSkips(line, 0);
    EndFollows(line);
    var t := ReadLine(line, s, x, |line|);
    SkipSolid(line, |line|);
  }

  lemma EndFollows(line: string)
    ensures Follows(line, |line|, ")") && Solid(line, |line|)
  {
  }

  lemma {:induction false} NoNul(toks: seq<Tok>, gaps: seq<string>)
    requires Lays(toks, gaps)
    ensures NUL !in Spread(toks, gaps)
    decreases |toks|
  {
    assert Blanks(gaps[0]);
    if toks != [] {
      assert GoodTok(toks[0]);
      LaysRest(toks, gaps);
      NoNul(toks[1..], gaps[1..]);
    }
  }
}
