/**
 Every command tree of the shell (user/sh.c) has a sentence that means it, with parentheses only
 where the grammar would group otherwise; and every layout of that sentence parses to the tree.
 */
module ShellPrint {
  import opened ShellGrammar
  import opened ShellSyntax
  import opened ShellRead
  import opened ShellAccept

  /** Words that are words, and at most nine arguments to a command. */
  predicate Good(c: Cmd<string>) {
    match c
    case Exec(args) => |args| < MAXARGS && forall k :: 0 <= k < |args| ==> GoodWord(args[k])
    case Redir(sub, _, file) => Good(sub) && GoodWord(file)
    case Pipe(left, right) => Good(left) && Good(right)
    case List(first, second) => Good(first) && Good(second)
    case Back(job) => Good(job)
  }

  function Arguments(args: seq<string>): (items: seq<Item>)
    ensures |items| == |args| && forall k :: 0 <= k < |items| ==> items[k] == Arg(args[k])
  {
    seq(|args|, k requires 0 <= k < |args| => Arg(args[k]))
  }

  /** In parentheses, unless it binds tightly enough. */
  function Bound(x: Syntax, level: nat): (y: Syntax)
    ensures Level(y) == 3 || Level(y) >= level
    ensures WellFormed(x) ==> WellFormed(y)
    ensures Meaning(y) == Meaning(x)
  {
    if Level(x) >= level then x else Group(x, [])
  }

  /** One more redirection at the end of a simple command or a group. */
  function Redirected(x: Syntax, r: Redirect<string>): Syntax {
    match Bound(x, 3)
    case Plain(items) => Plain(items + [Into(r)])
    case Group(inner, rs) => Group(inner, rs + [r])
    case y => y
  }

  function Write(c: Cmd<string>): Syntax {
    match c
    case Exec(args) => Plain(Arguments(args))
    case Redir(sub, kind, file) => Redirected(Write(sub), Redirect(kind, file))
    case Pipe(left, right) => Piped(Bound(Write(left), 3), Bound(Write(right), 2))
    case Back(job) => Bg(Bound(Write(job), 1))
    case List(first, second) => Both(Bound(Write(first), 1), Write(second))
  }

  // ---- what is written means the tree

  lemma {:induction false} OfArguments(args: seq<string>)
    ensures ArgsOf(Arguments(args)) == args && RedirsOf(Arguments(args)) == []
    decreases |args|
  {
    if args != [] {
      var items := Arguments(args);
      OfArguments(args[1..]);
      assert items[1..] == Arguments(args[1..]);
      assert args == [args[0]] + args[1..];
    }
  }

  lemma {:induction false} OfMore(items: seq<Item>, r: Redirect<string>)
    ensures ArgsOf(items + [Into(r)]) == ArgsOf(items) && RedirsOf(items + [Into(r)]) == RedirsOf(items) + [r]
    decreases |items|
  {
    var more := items + [Into(r)];
    if items == [] {
      assert more[1..] == [];
    } else {
      assert more[1..] == items[1..] + [Into(r)];
      OfMore(items[1..], r);
    }
  }

  lemma WrapMore(c: Cmd<string>, rs: seq<Redirect<string>>, r: Redirect<string>)
    ensures Wrap(c, rs + [r]) == Redir(Wrap(c, rs), r.kind, r.file)
  {
    assert (rs + [r])[..|rs|] == rs;
  }

  lemma PlainMore(items: seq<Item>, r: Redirect<string>)
    requires WellFormed(Plain(items)) && GoodWord(r.file)
    ensures WellFormed(Plain(items + [Into(r)]))
    ensures Meaning(Plain(items + [Into(r)])) == Redir(Meaning(Plain(items)), r.kind, r.file)
  {
    OfMore(items, r);
    WrapMore(Exec(ArgsOf(items)), RedirsOf(items), r);
    hide ArgsOf, RedirsOf, Wrap;
  }

  lemma GroupMore(inner: Syntax, rs: seq<Redirect<string>>, r: Redirect<string>)
    requires WellFormed(Group(inner, rs)) && GoodWord(r.file)
    ensures WellFormed(Group(inner, rs + [r]))
    ensures Meaning(Group(inner, rs + [r])) == Redir(Meaning(Group(inner, rs)), r.kind, r.file)
  {
    WrapMore(Meaning(inner), rs, r);
    hide Wrap;
  }

  lemma RedirectedMeans(x: Syntax, r: Redirect<string>)
    requires WellFormed(x) && GoodWord(r.file)
    ensures WellFormed(Redirected(x, r)) && Meaning(Redirected(x, r)) == Redir(Meaning(x), r.kind, r.file)
  {
    hide WellFormed, Meaning, Bound;
    var y := Bound(x, 3);
    if y.Plain? {
      PlainMore(y.items, r);
    } else {
      GroupMore(y.inner, y.redirs, r);
    }
  }

  lemma {:induction false} WriteMeans(c: Cmd<string>)
    requires Good(c)
    ensures WellFormed(Write(c)) && Meaning(Write(c)) == c
    decreases c
  {
    hide Bound, Redirected;
    match c
    case Exec(args) => OfArguments(args);
    case Redir(sub, kind, file) =>
      WriteMeans(sub);
      RedirectedMeans(Write(sub), Redirect(kind, file));
    case Pipe(left, right) =>
      WriteMeans(left);
      WriteMeans(right);
    case Back(job) => WriteMeans(job);
    case List(first, second) =>
      WriteMeans(first);
      WriteMeans(second);
  }

  /** However it is laid out, parsing what is written gives the tree back. */
  lemma RoundTrip(c: Cmd<string>, gaps: seq<string>)
    requires Good(c) && Lays(Toks(Write(c)), gaps)
    ensures
      var line := Spread(Toks(Write(c)), gaps);
      NUL !in line && Command(line).Ok? && Words(line, Command(line).value) == c
  {
    hide *;
    WriteMeans(c);
    Parses(Write(c), gaps);
  }

  // ---- and there is such a layout

  /** One blank around every token, and the newline at the end. */
  function Spaced(n: nat): seq<string> { seq(n, _ => " ") + ["\n"] }

  predicate GoodToks(toks: seq<Tok>) { forall k :: 0 <= k < |toks| ==> GoodTok(toks[k]) }

  lemma {:induction false} ItemsGood(items: seq<Item>)
    requires GoodItems(items)
    ensures GoodToks(ItemsToks(items))
    decreases |items|
  {
    if items != [] {
      ItemsGood(items[1..]);
    }
  }

  lemma {:induction false} FilesGood(rs: seq<Redirect<string>>)
    requires GoodFiles(rs)
    ensures GoodToks(RedirToks(rs))
    decreases |rs|
  {
    if rs != [] {
      FilesGood(rs[1..]);
    }
  }

  lemma {:induction false} SentenceGood(x: Syntax)
    requires WellFormed(x)
    ensures GoodToks(Toks(x))
    decreases x
  {
    match x
    case Plain(items) => ItemsGood(items);
    case Group(inner, rs) =>
      SentenceGood(inner);
      FilesGood(rs);
    case Piped(left, right) =>
      SentenceGood(left);
      SentenceGood(right);
    case Bg(job) => SentenceGood(job);
    case Both(first, second) =>
      SentenceGood(first);
      SentenceGood(second);
  }

  /** The shell can be given every good tree. */
  lemma Expressible(c: Cmd<string>) returns (line: string)
    requires Good(c)
    ensures NUL !in line && Command(line).Ok? && Words(line, Command(line).value) == c
  {
    hide Write, Command, Words, Spread, Toks, WellFormed, Meaning;
    WriteMeans(c);
    var toks := Toks(Write(c));
    SentenceGood(Write(c));
    var gaps := Spaced(|toks|);
    forall k | 0 <= k < |gaps| ensures Blanks(gaps[k]) {
      assert gaps[k] == " " || gaps[k] == "\n";
    }
    RoundTrip(c, gaps);
    line := Spread(toks, gaps);
  }

  /** What the parser builds is always a good tree. */
  lemma {:induction false} MeaningGood(x: Syntax)
    requires WellFormed(x)
    ensures Good(Meaning(x))
    decreases x
  {
    match x
    case Plain(items) =>
      PartsGood(items);
      WrapGood(Exec(ArgsOf(items)), RedirsOf(items));
    case Group(inner, rs) =>
      MeaningGood(inner);
      WrapGood(Meaning(inner), rs);
    case Piped(left, right) =>
      MeaningGood(left);
      MeaningGood(right);
    case Bg(job) => MeaningGood(job);
    case Both(first, second) =>
      MeaningGood(first);
      MeaningGood(second);
  }

  lemma {:induction false} PartsGood(items: seq<Item>)
    requires GoodItems(items)
    ensures GoodFiles(RedirsOf(items)) && forall k :: 0 <= k < |ArgsOf(items)| ==> GoodWord(ArgsOf(items)[k])
    decreases |items|
  {
    if items != [] {
      PartsGood(items[1..]);
    }
  }

  lemma {:induction false} WrapGood(c: Cmd<string>, rs: seq<Redirect<string>>)
    requires Good(c) && GoodFiles(rs)
    ensures Good(Wrap(c, rs))
    decreases |rs|
  {
    if rs != [] {
      WrapGood(c, rs[..|rs| - 1]);
    }
  }

  /** A tree comes out of the parser exactly if its words are words and its commands are short enough. */
  lemma ParsedTrees(c: Cmd<string>)
    ensures Good(c) <==>
      exists line: string :: NUL !in line && Command(line).Ok? && Words(line, Command(line).value) == c
  {
    hide Command, Words, Spread, Toks, WellFormed, Meaning, Lays;
    if Good(c) {
      var line := Expressible(c);
    }
    forall line: string | NUL !in line && Command(line).Ok? && Words(line, Command(line).value) == c
      ensures Good(c)
    {
      var x, gaps := Accepts(line);
      MeaningGood(x);
    }
  }
}
