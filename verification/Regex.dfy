/**
 The pattern matcher of user/grep.c (from The Practice of Programming, chapter 9): which texts
 a pattern with ^ . * $ describes, and the recursive matcher that decides it. A C string is the
 sequence of its bytes before the NUL.
 */
module Regex {

  datatype Atom = Any | Only(c: char)

  /** A pattern: anything may follow, the text must end, or one or any number of an atom come first. */
  datatype Pattern = Open | End | One(a: Atom, rest: Pattern) | Star(a: Atom, rest: Pattern)

  function AtomOf(c: char): Atom { if c == '.' then Any else Only(c) }

  predicate Fits(a: Atom, c: char) { a.Any? || a.c == c }

  predicate AllFit(a: Atom, u: string) { forall k :: 0 <= k < |u| ==> Fits(a, u[k]) }

  /** A star binds the character before it, even ^ or $ or a star; a $ is special only at the end. */
  function Parse(re: string): Pattern
    decreases |re|
  {
    if re == "" then Open
    else if |re| > 1 && re[1] == '*' then Star(AtomOf(re[0]), Parse(re[2..]))
    else if re == "$" then End
    else One(AtomOf(re[0]), Parse(re[1..]))
  }

  /** The texts a pattern describes from their first character on. */
  ghost predicate In(p: Pattern, t: string)
    decreases p
  {
    match p
    case Open => true
    case End => t == ""
    case One(a, rest) => t != "" && Fits(a, t[0]) && In(rest, t[1..])
    case Star(a, rest) => exists k :: 0 <= k <= |t| && AllFit(a, t[..k]) && In(rest, t[k..])
  }

  /** The texts a pattern accepts: from the start after ^, from some place on otherwise. */
  ghost predicate Accepts(re: string, t: string) {
    if re != "" && re[0] == '^' then In(Parse(re[1..]), t)
    else exists k :: 0 <= k <= |t| && In(Parse(re), t[k..])
  }

  /** A star is nothing, or one more of its atom and the star again. */
  lemma StarUnfolds(a: Atom, rest: Pattern, t: string)
    ensures In(Star(a, rest), t) <==> In(rest, t) || (t != "" && Fits(a, t[0]) && In(Star(a, rest), t[1..]))
  {
    if In(Star(a, rest), t) {
      var k :| 0 <= k <= |t| && AllFit(a, t[..k]) && In(rest, t[k..]);
      StarTakes(a, rest, t, k);
    }
    if In(rest, t) {
      assert t[0..] == t;
      StarTakes(a, rest, t, 0);
    }
    if t != "" && Fits(a, t[0]) && In(Star(a, rest), t[1..]) {
      var u := t[1..];
      var k :| 0 <= k <= |u| && AllFit(a, u[..k]) && In(rest, u[k..]);
      StarMore(a, rest, t, k);
    }
  }

  lemma StarTakes(a: Atom, rest: Pattern, t: string, k: int)
    requires 0 <= k <= |t| && AllFit(a, t[..k]) && In(rest, t[k..])
    ensures In(Star(a, rest), t)
    ensures if k == 0 then In(rest, t) else Fits(a, t[0]) && In(Star(a, rest), t[1..])
  {
    if k == 0 {
      assert t[0..] == t;
    } else {
      var u := t[1..];
      assert t[..k][0] == t[0] && u[..k - 1] == t[..k][1..] && u[k - 1..] == t[k..];
    }
  }

  lemma StarMore(a: Atom, rest: Pattern, t: string, k: int)
    requires t != "" && Fits(a, t[0]) && 0 <= k < |t| && AllFit(a, t[1..][..k]) && In(rest, t[1..][k..])
    ensures In(Star(a, rest), t)
  {
    assert t[..k + 1] == [t[0]] + t[1..][..k] && t[k + 1..] == t[1..][k..];
  }

  // ---- how patterns are written

  function Written(a: Atom): char { if a.Any? then '.' else a.c }

  /** The pattern as the user writes it. */
  function Render(p: Pattern): string {
    match p
    case Open => ""
    case End => "$"
    case One(a, rest) => [Written(a)] + Render(rest)
    case Star(a, rest) => [Written(a), '*'] + Render(rest)
  }

  /** The first character written. */
  predicate Begins(p: Pattern, c: char) { (p.One? || p.Star?) && Written(p.a) == c }

  /** No bare dot, nothing a star after it would bind, and no dollar that would end the pattern. */
  predicate Writable(p: Pattern) {
    match p
    case Open => true
    case End => true
    case One(a, rest) => a != Only('.') && !Begins(rest, '*') && !(a == Only('$') && rest == Open) && Writable(rest)
    case Star(a, rest) => a != Only('.') && Writable(rest)
  }

  /** Every string is the one way to write its pattern. */
  lemma {:induction false} RenderParse(re: string)
    ensures Render(Parse(re)) == re && Writable(Parse(re))
    decreases |re|
  {
    if re == "" || re == "$" {
    } else if |re| > 1 && re[1] == '*' {
      RenderParse(re[2..]);
      assert re == [re[0], '*'] + re[2..];
    } else {
      RenderParse(re[1..]);
      assert re == [re[0]] + re[1..];
      Starts(re[1..], '*');
    }
  }

  lemma Starts(re: string, c: char)
    ensures Begins(Parse(re), c) ==> re != "" && re[0] == c
  {
  }

  lemma {:induction false} ParseRender(p: Pattern)
    requires Writable(p)
    ensures Parse(Render(p)) == p
    decreases p
  {
    match p
    case Open =>
    case End => assert Parse("$") == End;
    case One(a, rest) =>
      ParseRender(rest);
      var re := Render(p);
      assert re[1..] == Render(rest);
      assert Render(rest) == "" ==> rest == Open;
      if |re| > 1 {
        assert re[1] == Render(rest)[0] != '*';
      }
      assert |re| == 1 + |Render(rest)| && re[0] == Written(a);
      assert re != "$";
    case Star(a, rest) =>
      ParseRender(rest);
      var re := Render(p);
      assert re[1] == '*' && re[2..] == Render(rest);
  }

  /** A pattern can be written exactly if parsing what is written gives it back. */
  lemma ParseRenderIff(p: Pattern)
    ensures Parse(Render(p)) == p <==> Writable(p)
  {
    if Writable(p) {
      ParseRender(p);
    }
    RenderParse(Render(p));
  }

  // ---- patterns that are plain words

  /** No dot, star or dollar. */
  predicate Literal(w: string) { forall k :: 0 <= k < |w| ==> w[k] != '.' && w[k] != '*' && w[k] != '$' }

  /** The word stands in the text from k on. */
  predicate Stands(w: string, t: string, k: int) { 0 <= k && k + |w| <= |t| && t[k..k + |w|] == w }

  lemma {:induction false} LiteralIn(w: string, t: string)
    requires Literal(w)
    ensures In(Parse(w), t) <==> w <= t
    ensures In(Parse(w + "$"), t) <==> t == w
    decreases |w|
  {
    if w == "" {
      assert w + "$" == "$";
    } else {
      var re := w + "$";
      assert re[1..] == w[1..] + "$" && re[1] != '*';
      assert w == [w[0]] + w[1..];
      if t != "" {
        assert t == [t[0]] + t[1..];
        LiteralIn(w[1..], t[1..]);
      }
    }
  }

  /** A plain word is found anywhere in the text; after ^ at its start; before $ at its end. */
  lemma LiteralLaws(w: string, t: string)
    requires Literal(w)
    ensures w == "" || w[0] != '^' ==> (Accepts(w, t) <==> exists k :: Stands(w, t, k))
    ensures w == "" || w[0] != '^' ==> (Accepts(w + "$", t) <==> Stands(w, t, |t| - |w|))
    ensures Accepts("^" + w, t) <==> w <= t
    ensures Accepts("^" + w + "$", t) <==> t == w
  {
    hide In, Parse;
    LiteralIn(w, t);
    assert ("^" + w)[1..] == w && ("^" + w + "$")[1..] == w + "$";
    if w == "" || w[0] != '^' {
      forall k | 0 <= k <= |t|
        ensures In(Parse(w), t[k..]) <==> Stands(w, t, k)
        ensures In(Parse(w + "$"), t[k..]) <==> k == |t| - |w| && Stands(w, t, k)
      {
        LiteralAt(w, t, k);
      }
      assert w + "$" != "" && (w + "$")[0] != '^';
      if Stands(w, t, |t| - |w|) {
        assert In(Parse(w + "$"), t[|t| - |w|..]);
      }
    }
  }

  lemma LiteralAt(w: string, t: string, k: int)
    requires Literal(w) && 0 <= k <= |t|
    ensures In(Parse(w), t[k..]) <==> Stands(w, t, k)
    ensures In(Parse(w + "$"), t[k..]) <==> k == |t| - |w| && Stands(w, t, k)
  {
    hide In, Parse;
    var rest := t[k..];
    LiteralIn(w, rest);
    if |w| <= |rest| {
      assert rest[..|w|] == t[k..k + |w|];
    }
    if k == |t| - |w| {
      assert t[k..k + |w|] == rest;
    }
  }

  lemma EmptyAcceptsAll(t: string)
    ensures Accepts("", t)
  {
    assert In(Parse(""), t[0..]);
  }

  method Matchhere(re: string, text: string) returns (r: bool)
    ensures r <==> In(Parse(re), text)
    decreases |re|, 0, |text|
  {
    if re == "" {
      return true;
    }
    if |re| > 1 && re[1] == '*' {
      r := Matchstar(re[0], re[2..], text);
      return;
    }
    if re == "$" {
      return text == "";
    }
    if text != "" && (re[0] == '.' || re[0] == text[0]) {
      r := Matchhere(re[1..], text[1..]);
      return;
    }
    return false;
  }

  method Matchstar(c: char, re: string, text: string) returns (r: bool)
    ensures r <==> In(Star(AtomOf(c), Parse(re)), text)
    decreases |re|, 1
  {
    var k := 0;
    while true
      invariant 0 <= k <= |text| && AllFit(AtomOf(c), text[..k])
      invariant forall j :: 0 <= j < k ==> !In(Parse(re), text[j..])
      decreases |text| - k
    {
      var here := Matchhere(re, text[k..]);
      if here {
        return true;
      }
      if k == |text| || (text[k] != c && c != '.') {
        break;
      }
      k := k + 1;
    }
    NotFurther(AtomOf(c), Parse(re), text, k);
    r := false;
  }

  lemma NotFurther(a: Atom, rest: Pattern, t: string, k: int)
    requires 0 <= k <= |t| && (forall j :: 0 <= j <= k ==> !In(rest, t[j..])) && (k < |t| ==> !Fits(a, t[k]))
    ensures !In(Star(a, rest), t)
  {
    forall j | k < j <= |t| ensures !AllFit(a, t[..j]) {
      assert !Fits(a, t[..j][k]);
    }
  }

  method Match(re: string, text: string) returns (r: bool)
    ensures r <==> Accepts(re, text)
  {
    if re != "" && re[0] == '^' {
      r := Matchhere(re[1..], text);
      return;
    }
    var k := 0;
    while true
      invariant 0 <= k <= |text| && forall j :: 0 <= j < k ==> !In(Parse(re), text[j..])
      decreases |text| - k
    {
      var here := Matchhere(re, text[k..]);
      if here {
        return true;
      }
      if k == |text| {
        break;
      }
      k := k + 1;
    }
    r := false;
  }
}
