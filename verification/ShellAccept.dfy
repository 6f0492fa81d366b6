/**
 What the parser of user/sh.c accepts is a sentence of the shell's syntax: its tokens are the
 sentence's tokens, with blanks between them.
 */
module ShellAccept {
  import opened ShellGrammar
  import opened ShellSyntax
  import opened ShellRead

  // ---- the tokens read, as a line with gaps

  /** A token read is good, and stands in the line as it is spelt. */
  lemma TokenGood(line: string, s: nat, tok: Tok)
    requires Solid(line, s) && NUL !in line && Reads(line, Next(line, s), tok)
    ensures
      var t := Next(line, s);
      && GoodTok(tok) && t.from == s < t.to <= t.next <= |line| && line[s..t.to] == Spelt(tok)
      && Blanks(line[t.to..t.next]) && Stops(line, t.to, tok)
  {
    hide Skip, WordEnd;
    SkipSolid(line, s);
    var t := Next(line, s);
    SkippedBlanks(line, t.to);
    if tok.Word? {
      WordGood(line, s);
    }
  }

  lemma {:induction false} SkippedBlanks(line: string, s: nat)
    requires s <= |line|
    ensures Blanks(line[s..Skip(line, s)])
    decreases |line| - s
  {
    if s < |line| && Blank(line[s]) {
      SkippedBlanks(line, s + 1);
      var p := Skip(line, s);
      assert line[s..p] == [line[s]] + line[s + 1..p];
    }
  }

  lemma WordGood(line: string, s: nat)
    requires Solid(line, s) && NUL !in line && Next(line, s).kind == 'a'
    ensures var t := Next(line, s); t.from == s < t.to && GoodWord(line[s..t.to])
  {
    hide Skip, WordEnd;
    SkipSolid(line, s);
    var w := line[s..Next(line, s).to];
    forall k | 0 <= k < |w| ensures WordChar(w[k]) {
      assert w[k] == line[s + k] && line[s + k] in line;
    }
  }

  /** The gap before a token, when it was read with none. */
  lemma GapFront(toks: seq<Tok>, gaps: seq<string>, gap: string)
    requires Lays(toks, gaps) && gaps[0] == "" && Blanks(gap)
    ensures Lays(toks, [gap] + gaps[1..]) && Spread(toks, [gap] + gaps[1..]) == gap + Spread(toks, gaps)
  {
    var wide := [gap] + gaps[1..];
    assert forall k :: 0 < k < |wide| ==> wide[k] == gaps[k];
    if toks == [] {
      assert gap + "" == gap;
    } else {
      assert wide[1..] == gaps[1..];
      var rest := Spread(toks[1..], gaps[1..]);
      assert gap + Spelt(toks[0]) + rest == gap + ("" + Spelt(toks[0]) + rest);
    }
  }

  /** Reading tokens to the end of the line lays the line out. */
  lemma {:induction false} Layout(line: string, s: nat, toks: seq<Tok>) returns (gaps: seq<string>)
    requires Solid(line, s) && NUL !in line && Spells(line, s, toks, |line|)
    ensures Lays(toks, gaps) && gaps[0] == "" && line[s..] == Spread(toks, gaps)
    decreases |toks|
  {
    hide Next, Reads, Lays, Spread, Stops;
    if toks == [] {
      gaps := [""];
      LaysNone();
    } else {
      var t := Next(line, s);
      TokenGood(line, s, toks[0]);
      NextSolid(line, s);
      var rest := Layout(line, t.next, toks[1..]);
      var gap := line[t.to..t.next];
      LaysSize(toks[1..], rest);
      GapFront(toks[1..], rest, gap);
      gaps := [""] + ([gap] + rest[1..]);
      assert gaps[1..] == [gap] + rest[1..];
      if toks[1..] != [] && gap == "" {
        Apart(line, s, toks);
      }
      LaysMore(toks, gaps);
      assert line[s..] == line[s..t.to] + (gap + line[t.next..]);
    }
  }

  lemma LaysNone()
    ensures Lays([], [""]) && Spread([], [""]) == ""
  {
  }

  lemma LaysMore(toks: seq<Tok>, gaps: seq<string>)
    requires toks != [] && |gaps| == |toks| + 1 && GoodTok(toks[0]) && gaps[0] == "" && Lays(toks[1..], gaps[1..])
    requires |toks| > 1 && Parted(toks[0], toks[1]) ==> gaps[1] != ""
    ensures Lays(toks, gaps) && Spread(toks, gaps) == Spelt(toks[0]) + Spread(toks[1..], gaps[1..])
  {
    forall k | 0 <= k < |toks| ensures GoodTok(toks[k]) {
      if k > 0 {
        assert toks[k] == toks[1..][k - 1];
      }
    }
    forall k | 0 <= k < |gaps| ensures Blanks(gaps[k]) {
      if k > 0 {
        assert gaps[k] == gaps[1..][k - 1];
      }
    }
    forall k | 0 < k < |toks| && Parted(toks[k - 1], toks[k]) ensures gaps[k] != "" {
      if k > 1 {
        assert toks[1..][k - 1 - 1] == toks[k - 1] && toks[1..][k - 1] == toks[k] && gaps[1..][k - 1] == gaps[k];
      }
    }
    assert "" + Spelt(toks[0]) == Spelt(toks[0]);
  }

  /** Tokens read with nothing between them do not run together. */
  lemma Apart(line: string, s: nat, toks: seq<Tok>)
    requires Solid(line, s) && NUL !in line && |toks| > 1 && Next(line, s).to == Next(line, s).next
    requires Reads(line, Next(line, s), toks[0]) && Reads(line, Next(line, Next(line, s).next), toks[1])
    ensures !Parted(toks[0], toks[1])
  {
    hide Next, Reads;
    var t := Next(line, s);
    TokenGood(line, s, toks[0]);
    NextSolid(line, s);
    TokenGood(line, t.next, toks[1]);
    var u := Next(line, t.next);
    assert line[t.next] == line[t.next..u.to][0];
  }

  // ---- simple commands

  predicate GoodItems(items: seq<Item>) { forall k :: 0 <= k < |items| ==> GoodItem(items[k]) }

  predicate GoodFiles(rs: seq<Redirect<string>>) { forall k :: 0 <= k < |rs| ==> GoodWord(rs[k].file) }

  /** What parseredirs reads first, when it reads something. */
  lemma RedirRead(line: string, s: nat) returns (r: Redirect<string>)
    requires Solid(line, s) && NUL !in line && s < |line| && line[s] in "<>"
    requires Next(line, Next(line, s).next).kind == 'a'
    ensures Reads(line, Next(line, s), OpTok(r.kind)) && GoodWord(r.file) && r.kind == KindOf(Next(line, s).kind)
    ensures Reads(line, Next(line, Next(line, s).next), Word(r.file)) && s < Next(line, s).next
  {
    NextSolid(line, s);
    var t := Next(line, s);
    WordGood(line, t.next);
    var f := Next(line, t.next);
    r := Redirect(KindOf(t.kind), line[f.from..f.to]);
    hide WordEnd, Skip;
    SkipSolid(line, s);
  }

  /** Read first of the items. */
  lemma MoreItems(line: string, s: nat, it: Item, items: seq<Item>, p: nat)
    requires s <= |line|
    requires it.Arg? ==>
      Reads(line, Next(line, s), Word(it.word)) && Spells(line, Next(line, s).next, ItemsToks(items), p)
    requires it.Into? ==>
      var t := Next(line, s);
      var f := Next(line, t.next);
      && Reads(line, t, OpTok(it.redir.kind)) && Reads(line, f, Word(it.redir.file))
      && Spells(line, f.next, ItemsToks(items), p)
    ensures Spells(line, s, ItemsToks([it] + items), p)
    ensures |ArgsOf([it] + items)| == |ArgsOf(items)| + if it.Arg? then 1 else 0
  {
    hide Next, Reads;
    assert ([it] + items)[1..] == items;
    var rest := ItemsToks(items);
    if it.Arg? {
      assert ([Word(it.word)] + rest)[1..] == rest;
    } else {
      var op, file := OpTok(it.redir.kind), Word(it.redir.file);
      assert ([op, file] + rest)[1..] == [file] + rest && ([file] + rest)[1..] == rest;
    }
  }

  /** parseexec past its first peek reads arguments and redirections, in any order. */
  lemma {:induction false} AcceptItems(line: string, s: nat, args: seq<Span>, rs: seq<Redirect<Span>>)
      returns (items: seq<Item>)
    requires Solid(line, s) && NUL !in line && Rest(line, s, args, rs).Ok? && |args| < MAXARGS
    ensures GoodItems(items) && |args| + |ArgsOf(items)| < MAXARGS
    ensures Solid(line, Rest(line, s, args, rs).pos)
    ensures Spells(line, s, ItemsToks(items), Rest(line, s, args, rs).pos)
    decreases |line| - s
  {
    hide Next, Reads, Skip, Rest, ItemsToks, ArgsOf, Spells;
    var t := Next(line, s);
    NextSolid(line, s);
    if s < |line| && line[s] in "<>" {
      RestOk(line, s, args, rs);
      var r := RedirRead(line, s);
      RedirStep(line, s, rs, r.kind, r.file);
      var f := Next(line, t.next);
      NextSolid(line, t.next);
      var red := Redirect(r.kind, Span(f.from, f.to));
      RestRedir(line, s, f.next, args, rs, red);
      var more := AcceptItems(line, f.next, args, rs + [red]);
      MoreItems(line, s, Into(r), more, Rest(line, s, args, rs).pos);
      items := [Into(r)] + more;
    } else if Follows(line, s, "|)&;") {
      RestEnds(line, s, args, rs);
      items := [];
      NoItems(line, s);
    } else {
      RestWord(line, s, args, rs);
      WordGood(line, s);
      var w := line[s..t.to];
      WordReads(line, s);
      ArgStep(line, s, args, rs, w);
      var more := AcceptItems(line, t.next, args + [Span(t.from, t.to)], rs);
      MoreItems(line, s, Arg(w), more, Rest(line, s, args, rs).pos);
      items := [Arg(w)] + more;
    }
  }

  lemma NoItems(line: string, s: nat)
    requires s <= |line|
    ensures Spells(line, s, ItemsToks([]), s) && ArgsOf([]) == []
  {
  }

  lemma WordReads(line: string, s: nat)
    requires s <= |line| && Next(line, s).kind == 'a'
    ensures var t := Next(line, s); Reads(line, t, Word(line[t.from..t.to]))
  {
  }

  /** A redirection that goes through names a file. */
  lemma RestOk(line: string, s: nat, args: seq<Span>, rs: seq<Redirect<Span>>)
    requires Solid(line, s) && NUL !in line && Rest(line, s, args, rs).Ok? && s < |line| && line[s] in "<>"
    ensures Next(line, Next(line, s).next).kind == 'a'
  {
    hide Next, Skip, Args;
    SeesAt(line, s, "<>");
  }

  /** An argument that goes through is a word, and not one too many. */
  lemma RestWord(line: string, s: nat, args: seq<Span>, rs: seq<Redirect<Span>>)
    requires Solid(line, s) && NUL !in line && Rest(line, s, args, rs).Ok? && s < |line|
    requires line[s] !in "<>" && line[s] !in "|)&;"
    ensures Next(line, s).kind == 'a' && |args| + 1 < MAXARGS
  {
    hide WordEnd, Skip;
    SeesAt(line, s, "<>");
    SeesAt(line, s, "|)&;");
    SkipSolid(line, s);
  }

  lemma {:induction false} AcceptRedirs(line: string, s: nat, done: seq<Redirect<Span>>)
      returns (rs: seq<Redirect<string>>)
    requires Solid(line, s) && NUL !in line && Redirs(line, s, done).Ok?
    ensures GoodFiles(rs) && Solid(line, Redirs(line, s, done).pos)
    ensures Spells(line, s, RedirToks(rs), Redirs(line, s, done).pos)
    decreases |line| - s
  {
    hide Next, Reads, Skip;
    SeesAt(line, s, "<>");
    SkipSolid(line, s);
    if s < |line| && line[s] in "<>" {
      var t := Next(line, s);
      NextSolid(line, s);
      var r := RedirRead(line, s);
      RedirStep(line, s, done, r.kind, r.file);
      var f := Next(line, t.next);
      NextSolid(line, t.next);
      var more := AcceptRedirs(line, f.next, done + [Redirect(r.kind, Span(f.from, f.to))]);
      rs := [r] + more;
      var rest := RedirToks(more);
      assert rs[1..] == more;
      var op, file := OpTok(r.kind), Word(r.file);
      assert ([op, file] + rest)[1..] == [file] + rest && ([file] + rest)[1..] == rest;
    } else {
      rs := [];
    }
  }

  // ---- sentences

  /** The part before a mark, the mark, and the part after. */
  lemma Around(line: string, s: nat, a: seq<Tok>, q: nat, c: char, b: seq<Tok>, p: nat)
    requires s <= |line| && NUL !in line && Spells(line, s, a, q) && Solid(line, q) && q < |line| && line[q] == c
    requires c in "()|&;" && Spells(line, Next(line, q).next, b, p)
    ensures Spells(line, s, a + ([Mark(c)] + b), p)
  {
    MarkReads(line, q);
    hide Next, Reads;
    assert ([Mark(c)] + b)[1..] == b;
    SpellsJoin(line, s, a, q, [Mark(c)] + b, p);
  }

  lemma MarkReads(line: string, q: nat)
    requires Solid(line, q) && NUL !in line && q < |line| && line[q] in "()|&;"
    ensures Reads(line, Next(line, q), Mark(line[q])) && q < Next(line, q).next
  {
    hide WordEnd, Skip;
    SkipSolid(line, q);
  }

  lemma {:induction false} AcceptSimple(line: string, s: nat) returns (x: Syntax)
    requires Solid(line, s) && NUL !in line && Simple(line, s).Ok?
    ensures WellFormed(x) && Level(x) == 3 && Solid(line, Simple(line, s).pos)
    ensures Spells(line, s, Toks(x), Simple(line, s).pos)
    decreases |line| - s, 0
  {
    hide Simple, Next, Reads, Spells, Skip, Line, Rest, Redirs;
    if s < |line| && line[s] == '(' {
      MarkReads(line, s);
      NextSolid(line, s);
      GroupOk(line, s);
      var i := Next(line, s).next;
      var inner := AcceptLine(line, i);
      var q := Line(line, i).pos;
      NextSolid(line, q);
      var rs := AcceptRedirs(line, Next(line, q).next, []);
      x := Group(inner, rs);
      var p := Simple(line, s).pos;
      Around(line, i, Toks(inner), q, ')', RedirToks(rs), p);
      var tail := Toks(inner) + ([Mark(')')] + RedirToks(rs));
      SpellsNone(line, s, []);
      Around(line, s, [], s, '(', tail, p);
      assert [] + ([Mark('(')] + tail) == [Mark('(')] + tail;
    } else {
      SimplePlain(line, s);
      var items := AcceptItems(line, s, [], []);
      x := Plain(items);
    }
  }

  /** A group that goes through holds a line and is closed. */
  lemma GroupOk(line: string, s: nat)
    requires Solid(line, s) && NUL !in line && Simple(line, s).Ok? && s < |line| && line[s] == '('
    ensures Line(line, Next(line, s).next).Ok?
    ensures
      var q := Line(line, Next(line, s).next).pos;
      && Solid(line, q) && q < |line| && line[q] == ')' && Redirs(line, Next(line, q).next, []).Ok?
      && Redirs(line, Next(line, q).next, []).pos == Simple(line, s).pos
  {
    hide Next, Skip, Line, Redirs;
    SeesAt(line, s, "(");
    LinePlace(line, Next(line, s).next);
    SeesAt(line, Line(line, Next(line, s).next).pos, ")");
  }

  /** parseline stops at a character that is no blank. */
  lemma {:induction false} LinePlace(line: string, s: nat)
    requires s <= |line| && NUL !in line && Line(line, s).Ok?
    ensures Solid(line, Line(line, s).pos)
    decreases |line| - s
  {
    hide Next, Pipeline, Backs;
    LineOf(line, s);
    var first := Backs(line, Pipeline(line, s).pos, Pipeline(line, s).value);
    if Sees(line, first.pos, ";") {
      Moves(line, first.pos, ";");
      LinePlace(line, Next(line, first.pos).next);
    }
  }

  lemma Moves(line: string, s: nat, toks: string)
    requires s <= |line| && NUL !in line && Sees(line, s, toks)
    ensures s < Next(line, s).next
  {
  }

  lemma {:induction false} AcceptPipeline(line: string, s: nat) returns (x: Syntax)
    requires Solid(line, s) && NUL !in line && Pipeline(line, s).Ok?
    ensures WellFormed(x) && Level(x) >= 2 && Solid(line, Pipeline(line, s).pos)
    ensures Spells(line, s, Toks(x), Pipeline(line, s).pos)
    decreases |line| - s, 1
  {
    hide Simple, Next, Reads, Spells, Skip;
    x := AcceptSimple(line, s);
    var q := Simple(line, s).pos;
    SeesAt(line, q, "|");
    SkipSolid(line, q);
    if q < |line| && line[q] == '|' {
      MarkReads(line, q);
      NextSolid(line, q);
      var right := AcceptPipeline(line, Next(line, q).next);
      Around(line, s, Toks(x), q, '|', Toks(right), Pipeline(line, s).pos);
      x := Piped(x, right);
    }
  }

  lemma {:induction false} AcceptBacks(line: string, s: nat, job: Syntax, q: nat, c: Cmd<Span>) returns (x: Syntax)
    requires s <= |line| && NUL !in line && WellFormed(job) && Level(job) >= 1
    requires Solid(line, q) && Spells(line, s, Toks(job), q)
    ensures WellFormed(x) && Level(x) >= 1 && Solid(line, Backs(line, q, c).pos)
    ensures Spells(line, s, Toks(x), Backs(line, q, c).pos)
    decreases |line| - q
  {
    hide Next, Reads, Spells, Skip;
    x := job;
    SeesAt(line, q, "&");
    SkipSolid(line, q);
    if q < |line| && line[q] == '&' {
      MarkReads(line, q);
      NextSolid(line, q);
      SpellsNone(line, Next(line, q).next, []);
      Around(line, s, Toks(job), q, '&', [], Next(line, q).next);
      assert [Mark('&')] + [] == [Mark('&')];
      x := AcceptBacks(line, s, Bg(job), Next(line, q).next, Back(c));
    }
  }

  lemma {:induction false} AcceptLine(line: string, s: nat) returns (x: Syntax)
    requires Solid(line, s) && NUL !in line && Line(line, s).Ok?
    ensures WellFormed(x) && Solid(line, Line(line, s).pos) && Spells(line, s, Toks(x), Line(line, s).pos)
    decreases |line| - s, 2
  {
    hide Pipeline, Backs, Next, Reads, Spells, Skip, Line;
    LineOf(line, s);
    var head := AcceptPipeline(line, s);
    var p := Pipeline(line, s);
    x := AcceptBacks(line, s, head, p.pos, p.value);
    var q := Backs(line, p.pos, p.value).pos;
    SeesAt(line, q, ";");
    SkipSolid(line, q);
    if q < |line| && line[q] == ';' {
      MarkReads(line, q);
      NextSolid(line, q);
      var second := AcceptLine(line, Next(line, q).next);
      Around(line, s, Toks(x), q, ';', Toks(second), Line(line, s).pos);
      x := Both(x, second);
    }
  }

  /** A sentence of the shell, laid out as this line. */
  ghost predicate Sentence(line: string, x: Syntax, gaps: seq<string>) {
    WellFormed(x) && Lays(Toks(x), gaps) && line == Spread(Toks(x), gaps)
  }

  /** A line that parses is a sentence, and the parse is its meaning. */
  lemma Accepts(line: string) returns (x: Syntax, gaps: seq<string>)
    requires NUL !in line && Command(line).Ok?
    ensures Sentence(line, x, gaps) && Words(line, Command(line).value) == Meaning(x)
  {
    hide Line, Skip, Words, Spread, Spells, Lays, Toks, Blanks, Meaning;
    LineSkips(line, 0);
    var s := Skip(line, 0);
    x := AcceptLine(line, s);
    SkipSolid(line, Line(line, s).pos);
    var tight := Layout(line, s, Toks(x));
    SkippedBlanks(line, 0);
    GapFront(Toks(x), tight, line[..s]);
    LaysSize(Toks(x), tight);
    gaps := [line[..s]] + tight[1..];
    assert line[0..s] == line[..s] && line == line[..s] + line[s..];
    Parses(x, gaps);
  }

  /** The shell parses a line exactly if it is a sentence, and every reading of it means the same. */
  lemma ParsesExactly(line: string)
    requires NUL !in line
    ensures Command(line).Ok? <==> exists x, gaps :: Sentence(line, x, gaps)
    ensures forall x, gaps :: Sentence(line, x, gaps) ==>
      Command(line).Ok? && Words(line, Command(line).value) == Meaning(x)
  {
    hide Command, Words, Meaning, Spread, Lays, Toks, WellFormed;
    if Command(line).Ok? {
      var x, gaps := Accepts(line);
    }
    forall x, gaps | Sentence(line, x, gaps)
      ensures Command(line).Ok? && Words(line, Command(line).value) == Meaning(x)
    {
      Parses(x, gaps);
    }
  }
}
