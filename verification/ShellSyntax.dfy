/**
 The concrete syntax of the shell of user/sh.c: tokens with any blanks between them, commands
 with their arguments and redirections in any order, groups, pipelines, background jobs and
 lists. Parsing a line succeeds exactly if it is a sentence of this syntax, and then gives
 what the sentence means.
 */
module ShellSyntax {
  import opened ShellGrammar

  // ---- tokens and lines

  /** A word, a symbol, or >> */
  datatype Tok = Word(text: string) | Mark(c: char) | More

  /** Non-empty, without blanks, symbols or NUL. */
  predicate GoodWord(w: string) { w != "" && forall k :: 0 <= k < |w| ==> WordChar(w[k]) }

  predicate GoodTok(t: Tok) {
    match t
    case Word(w) => GoodWord(w)
    case Mark(c) => Symbol(c)
    case More => true
  }

  function Spelt(t: Tok): string {
    match t
    case Word(w) => w
    case Mark(c) => [c]
    case More => ">>"
  }

  predicate Blanks(gap: string) { forall k :: 0 <= k < |gap| ==> Blank(gap[k]) }

  /** Two tokens that would run together: two words, and > before > or >> */
  predicate Parted(a: Tok, b: Tok) {
    (a.Word? && b.Word?) || (a == Mark('>') && (b == Mark('>') || b == More))
  }

  /** The tokens with gaps[k] before token k and the last gap at the end. */
  function Spread(toks: seq<Tok>, gaps: seq<string>): string
    requires |gaps| == |toks| + 1
    decreases |toks|
  {
    if toks == [] then gaps[0] else gaps[0] + Spelt(toks[0]) + Spread(toks[1..], gaps[1..])
  }

  /** Gaps are blank, and not empty where tokens would run together. */
  predicate Lays(toks: seq<Tok>, gaps: seq<string>) {
    && |gaps| == |toks| + 1
    && (forall k :: 0 <= k < |toks| ==> GoodTok(toks[k])) && (forall k :: 0 <= k < |gaps| ==> Blanks(gaps[k]))
    && forall k :: 0 < k < |toks| && Parted(toks[k - 1], toks[k]) ==> gaps[k] != ""
  }

  // ---- commands

  datatype Item = Arg(word: string) | Into(redir: Redirect<string>)

  datatype Syntax =
    | Plain(items: seq<Item>)
    | Group(inner: Syntax, redirs: seq<Redirect<string>>)
    | Piped(left: Syntax, right: Syntax)
    | Bg(job: Syntax)
    | Both(first: Syntax, second: Syntax)

  /** How tightly it binds: lists least, then background jobs, pipelines, simple commands. */
  function Level(x: Syntax): nat {
    match x
    case Both(_, _) => 0
    case Bg(_) => 1
    case Piped(_, _) => 2
    case _ => 3
  }

  function ArgsOf(items: seq<Item>): seq<string>
    decreases |items|
  {
    if items == [] then [] else (if items[0].Arg? then [items[0].word] else []) + ArgsOf(items[1..])
  }

  function RedirsOf(items: seq<Item>): seq<Redirect<string>>
    decreases |items|
  {
    if items == [] then [] else (if items[0].Into? then [items[0].redir] else []) + RedirsOf(items[1..])
  }

  predicate GoodItem(it: Item) {
    match it
    case Arg(w) => GoodWord(w)
    case Into(r) => GoodWord(r.file)
  }

  predicate WellFormed(x: Syntax) {
    match x
    case Plain(items) => |ArgsOf(items)| < MAXARGS && forall k :: 0 <= k < |items| ==> GoodItem(items[k])
    case Group(inner, rs) => WellFormed(inner) && forall k :: 0 <= k < |rs| ==> GoodWord(rs[k].file)
    case Piped(left, right) => WellFormed(left) && WellFormed(right) && Level(left) == 3 && Level(right) >= 2
    case Bg(job) => WellFormed(job) && Level(job) >= 1
    case Both(first, second) => WellFormed(first) && WellFormed(second) && Level(first) >= 1
  }

  /** Redirections apply in the order written, whatever stands between them. */
  function Meaning(x: Syntax): Cmd<string> {
    match x
    case Plain(items) => Wrap(Exec(ArgsOf(items)), RedirsOf(items))
    case Group(inner, rs) => Wrap(Meaning(inner), rs)
    case Piped(left, right) => Pipe(Meaning(left), Meaning(right))
    case Bg(job) => Back(Meaning(job))
    case Both(first, second) => List(Meaning(first), Meaning(second))
  }

  function OpTok(kind: Kind): Tok {
    match kind
    case In => Mark('<')
    case Out => Mark('>')
    case Append => More
  }

  function ItemToks(it: Item): seq<Tok> {
    match it
    case Arg(w) => [Word(w)]
    case Into(r) => [OpTok(r.kind), Word(r.file)]
  }

  function ItemsToks(items: seq<Item>): seq<Tok>
    decreases |items|
  {
    if items == [] then [] else ItemToks(items[0]) + ItemsToks(items[1..])
  }

  function RedirToks(rs: seq<Redirect<string>>): seq<Tok>
    decreases |rs|
  {
    if rs == [] then [] else [OpTok(rs[0].kind), Word(rs[0].file)] + RedirToks(rs[1..])
  }

  function Toks(x: Syntax): seq<Tok> {
    match x
    case Plain(items) => ItemsToks(items)
    case Group(inner, rs) => [Mark('(')] + (Toks(inner) + ([Mark(')')] + RedirToks(rs)))
    case Piped(left, right) => Toks(left) + ([Mark('|')] + Toks(right))
    case Bg(job) => Toks(job) + [Mark('&')]
    case Both(first, second) => Toks(first) + ([Mark(';')] + Toks(second))
  }

  // ---- the words of a tree of spans

  function TextAt(line: string, sp: Span): string {
    if 0 <= sp.from <= sp.to <= |line| then line[sp.from..sp.to] else ""
  }

  function Texts(line: string, spans: seq<Span>): (ws: seq<string>)
    ensures |ws| == |spans| && forall k :: 0 <= k < |ws| ==> ws[k] == TextAt(line, spans[k])
  {
    seq(|spans|, k requires 0 <= k < |spans| => TextAt(line, spans[k]))
  }

  function Words(line: string, t: Cmd<Span>): Cmd<string> {
    match t
    case Exec(args) => Exec(Texts(line, args))
    case Redir(sub, kind, file) => Redir(Words(line, sub), kind, TextAt(line, file))
    case Pipe(left, right) => Pipe(Words(line, left), Words(line, right))
    case List(first, second) => List(Words(line, first), Words(line, second))
    case Back(job) => Back(Words(line, job))
  }

  function RedirTexts(line: string, rs: seq<Redirect<Span>>): (ws: seq<Redirect<string>>)
    ensures |ws| == |rs| && forall k :: 0 <= k < |ws| ==> ws[k] == Redirect(rs[k].kind, TextAt(line, rs[k].file))
  {
    seq(|rs|, k requires 0 <= k < |rs| => Redirect(rs[k].kind, TextAt(line, rs[k].file)))
  }

  lemma {:induction false} WrapWords(line: string, c: Cmd<Span>, rs: seq<Redirect<Span>>)
    ensures Words(line, Wrap(c, rs)) == Wrap(Words(line, c), RedirTexts(line, rs))
    decreases |rs|
  {
    if rs != [] {
      var front := rs[..|rs| - 1];
      WrapWords(line, c, front);
      assert RedirTexts(line, rs)[..|rs| - 1] == RedirTexts(line, front);
    }
  }

  // ---- reading tokens at a place in the line

  /** No blank at p. */
  predicate Solid(line: string, p: int) { 0 <= p <= |line| && (p < |line| ==> !Blank(line[p])) }

  /** The token gettoken finds is this one. */
  predicate Reads(line: string, t: Token, tok: Tok)
    requires t.from <= t.to <= |line|
  {
    match tok
    case Word(w) => t.kind == 'a' && line[t.from..t.to] == w
    case Mark(c) => t.kind == c && Symbol(c)
    case More => t.kind == '+'
  }

  /** From s on gettoken reads these tokens, and stands at p then. */
  predicate Spells(line: string, s: nat, toks: seq<Tok>, p: nat)
    requires s <= |line|
    decreases |toks|
  {
    if toks == [] then p == s
    else
      var t := Next(line, s);
      Reads(line, t, toks[0]) && Spells(line, t.next, toks[1..], p)
  }

  lemma {:induction false} SpellsSplit(line: string, s: nat, a: seq<Tok>, b: seq<Tok>, p: nat) returns (q: nat)
    requires s <= |line| && Spells(line, s, a + b, p) && Solid(line, s)
    ensures s <= q <= |line| && Solid(line, q) && Spells(line, s, a, q) && Spells(line, q, b, p)
    decreases |a|
  {
    hide Next;
    if a == [] {
      assert a + b == b;
      q := s;
    } else {
      var t := Next(line, s);
      assert (a + b)[1..] == a[1..] + b;
      NextSolid(line, s);
      q := SpellsSplit(line, t.next, a[1..], b, p);
    }
  }

  lemma {:induction false} SpellsJoin(line: string, s: nat, a: seq<Tok>, q: nat, b: seq<Tok>, p: nat)
    requires s <= |line| && Spells(line, s, a, q) && q <= |line| && Spells(line, q, b, p)
    ensures Spells(line, s, a + b, p)
    decreases |a|
  {
    hide Next;
    if a == [] {
      assert a + b == b;
    } else {
      assert (a + b)[1..] == a[1..] + b;
      SpellsJoin(line, Next(line, s).next, a[1..], q, b, p);
    }
  }

  lemma NextSolid(line: string, s: nat)
    requires s <= |line|
    ensures Solid(line, Next(line, s).next)
  {
  }

  lemma SkipSolid(line: string, p: nat)
    requires Solid(line, p)
    ensures Skip(line, p) == p
  {
  }

  lemma SeesAt(line: string, s: nat, toks: string)
    requires Solid(line, s) && NUL !in line
    ensures Sees(line, s, toks) <==> s < |line| && line[s] in toks
  {
    SkipSolid(line, s);
  }

  /** What stands at the place of a token. */
  lemma MarkAt(line: string, s: nat, c: char)
    requires Solid(line, s) && NUL !in line && Reads(line, Next(line, s), Mark(c))
    ensures s < |line| && line[s] == c
  {
    SkipSolid(line, s);
  }

  lemma OpAt(line: string, s: nat, kind: Kind)
    requires Solid(line, s) && NUL !in line && Reads(line, Next(line, s), OpTok(kind))
    ensures s < |line| && line[s] in "<>" && KindOf(Next(line, s).kind) == kind
  {
    SkipSolid(line, s);
  }

  lemma WordAt(line: string, s: nat, w: string)
    requires Solid(line, s) && NUL !in line && Reads(line, Next(line, s), Word(w))
    ensures s < |line| && WordChar(line[s]) && TextAt(line, Span(Next(line, s).from, Next(line, s).to)) == w
  {
    SkipSolid(line, s);
  }
}
