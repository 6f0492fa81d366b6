/**
 The line reader of user/grep.c: a fixed buffer refilled by read, scanned for newlines, and
 shifted down. Whatever pieces read returns, the output is the same function of the input.
 */
module Grep {
  import opened Regex

  const SIZE: int := 1024
  const NUL: char := 0 as char

  /** Where the first newline is, |s| if there is none. */
  function Newline(s: string): (k: int)
    ensures 0 <= k <= |s| && (k < |s| ==> s[k] == '\n') && forall j :: 0 <= j < k ==> s[j] != '\n'
    decreases |s|
  {
    if s == "" then 0 else if s[0] == '\n' then 0 else 1 + Newline(s[1..])
  }

  /** A line with its newline if the pattern accepts it. */
  ghost function Shown(re: string, line: string): string {
    if Accepts(re, line) then line + "\n" else ""
  }

  /** What grep prints: the accepted lines, up to the first that does not fit its buffer. */
  ghost function Printed(re: string, s: string): string
    decreases |s|
  {
    var k := Newline(s);
    if k == |s| || k >= SIZE - 1 then "" else Shown(re, s[..k]) + Printed(re, s[k + 1..])
  }

  /** All accepted newline-terminated lines, in order. */
  ghost function Matching(re: string, s: string): string
    decreases |s|
  {
    var k := Newline(s);
    if k == |s| then "" else Shown(re, s[..k]) + Matching(re, s[k + 1..])
  }

  /** Every newline-terminated line, with its newline, is at most 1023 bytes long. */
  ghost predicate ShortLines(s: string)
    decreases |s|
  {
    var k := Newline(s);
    k == |s| || (k < SIZE - 1 && ShortLines(s[k + 1..]))
  }

  /** With no line too long for the buffer, grep prints exactly the matching lines. */
  lemma {:induction false} PrintsMatching(re: string, s: string)
    requires ShortLines(s)
    ensures Printed(re, s) == Matching(re, s)
    decreases |s|
  {
    var k := Newline(s);
    if k < |s| {
      PrintsMatching(re, s[k + 1..]);
    }
  }

  /** A line too long for the buffer costs output under the empty pattern, which accepts every line. */
  lemma {:induction false} LongLineLoses(s: string)
    requires !ShortLines(s)
    ensures |Printed("", s)| < |Matching("", s)|
    decreases |s|
  {
    hide Newline;
    var k := Newline(s);
    assert Shown("", s[..k]) == s[..k] + "\n" by { EmptyAcceptsAll(s[..k]); }
    if k < SIZE - 1 {
      LongLineLoses(s[k + 1..]);
    }
  }

  /** grep prints exactly the matching lines, whatever the pattern, if and only if every line fits its buffer. */
  lemma PrintsMatchingIff(s: string)
    ensures (forall re :: Printed(re, s) == Matching(re, s)) <==> ShortLines(s)
  {
    hide Printed, Matching, ShortLines;
    if ShortLines(s) {
      forall re ensures Printed(re, s) == Matching(re, s) {
        PrintsMatching(re, s);
      }
    } else {
      LongLineLoses(s);
      assert Printed("", s) != Matching("", s);
    }
  }

  /** Whole lines, none too long for the buffer. */
  ghost predicate Lines(s: string) {
    ShortLines(s) && (s != "" ==> s[|s| - 1] == '\n')
  }

  /** What is printed for whole lines does not depend on what follows. */
  lemma {:induction false} PrintedConcat(re: string, s: string, t: string)
    requires Lines(s)
    ensures Printed(re, s + t) == Printed(re, s) + Printed(re, t)
    decreases |s|
  {
    hide Newline, Shown;
    if s == "" {
      assert s + t == t;
    } else {
      var k := Newline(s);
      NewlineOf(s, t, k);
      assert (s + t)[..k] == s[..k];
      assert (s + t)[k + 1..] == s[k + 1..] + t;
      PrintedConcat(re, s[k + 1..], t);
    }
  }

  lemma {:induction false} LinesConcat(s: string, t: string)
    requires Lines(s) && Lines(t)
    ensures Lines(s + t)
    decreases |s|
  {
    hide Newline;
    if s == "" {
      assert s + t == t;
    } else {
      var k := Newline(s);
      NewlineOf(s, t, k);
      assert (s + t)[k + 1..] == s[k + 1..] + t;
      LinesConcat(s[k + 1..], t);
    }
  }

  /** A line too long for the buffer ends the output there. */
  lemma StopsAtLongLine(re: string, s: string, t: string)
    requires Lines(s) && Newline(t) >= SIZE - 1
    ensures Printed(re, s + t) == Matching(re, s)
  {
    hide Lines, Newline, Matching;
    PrintedConcat(re, s, t);
    LinesShort(s);
    PrintsMatching(re, s);
  }

  lemma LinesShort(s: string)
    requires Lines(s)
    ensures ShortLines(s)
  {
  }

  lemma NewlineOf(s: string, t: string, k: int)
    requires 0 <= k < |s| && s[k] == '\n' && forall j :: 0 <= j < k ==> s[j] != '\n'
    ensures Newline(s + t) == k && Newline(s) == k
  {
    hide Newline;
    var n := Newline(s + t);
    assert (s + t)[k] == '\n';
    assert forall j :: 0 <= j < k ==> (s + t)[j] == s[j];
  }

  // ---- the same, line by line

  /** The lines, each with its newline. */
  function Joined(lines: seq<string>): string
    decreases |lines|
  {
    if lines == [] then "" else lines[0] + "\n" + Joined(lines[1..])
  }

  /** The lines the pattern accepts, in order. */
  ghost function Selected(re: string, lines: seq<string>): seq<string>
    decreases |lines|
  {
    if lines == [] then [] else (if Accepts(re, lines[0]) then [lines[0]] else []) + Selected(re, lines[1..])
  }

  predicate NoNewline(s: string) { forall j :: 0 <= j < |s| ==> s[j] != '\n' }

  /** The matching lines of a text are its lines that match; what follows the last newline is no line. */
  lemma {:induction false} MatchingLines(re: string, lines: seq<string>, tail: string)
    requires NoNewline(tail) && forall k :: 0 <= k < |lines| ==> NoNewline(lines[k])
    ensures Matching(re, Joined(lines) + tail) == Joined(Selected(re, lines))
    ensures ShortLines(Joined(lines) + tail) <==> forall k :: 0 <= k < |lines| ==> |lines[k]| < SIZE - 1
    decreases |lines|
  {
    hide Newline, Accepts;
    var s := Joined(lines) + tail;
    if lines == [] {
      assert s == tail && Newline(s) == |s|;
    } else {
      var more := Joined(lines[1..]) + tail;
      assert s == lines[0] + "\n" + more;
      NewlineOf(lines[0] + "\n", more, |lines[0]|);
      assert s[..|lines[0]|] == lines[0] && s[|lines[0]| + 1..] == more;
      MatchingLines(re, lines[1..], tail);
      SelectedMore(re, lines);
      assert forall k :: 0 < k < |lines| ==> lines[k] == lines[1..][k - 1];
    }
  }

  lemma SelectedMore(re: string, lines: seq<string>)
    requires lines != []
    ensures Joined(Selected(re, lines)) == Shown(re, lines[0]) + Joined(Selected(re, lines[1..]))
  {
    hide Accepts;
    var rest := Selected(re, lines[1..]);
    assert ([lines[0]] + rest)[1..] == rest;
    assert [] + rest == rest && "" + Joined(rest) == Joined(rest);
  }

  /** One line with its newline. */
  lemma PrintedLine(re: string, s: string)
    requires s != "" && s[|s| - 1] == '\n' && (forall j :: 0 <= j < |s| - 1 ==> s[j] != '\n') && |s| < SIZE
    ensures Printed(re, s) == Shown(re, s[..|s| - 1]) && Lines(s)
  {
    hide Newline, Shown;
    NewlineOf(s, "", |s| - 1);
    assert s[|s|..] == "" && ShortLines("");
  }

  /** Nothing is printed for a beginning without newline that fills the buffer or ends the input. */
  lemma PrintedNothing(re: string, s: string, m: int)
    requires 0 <= m <= |s| && (forall j :: 0 <= j < m ==> s[j] != '\n') && (m == |s| || m >= SIZE - 1)
    ensures Printed(re, s) == ""
  {
    hide Newline, Shown;
    assert Newline(s) >= m;
  }

  /** A file read in pieces of any size the caller's limit and the end of the file allow; reading may fail. */
  class File {
    const input: string
    var pos: nat

    constructor (s: string)
      ensures input == s && pos == 0
    {
      input, pos := s, 0;
    }

    method Read(max: nat) returns (n: int, chunk: string)
      requires pos <= |input|
      modifies this`pos
      ensures pos <= |input| && |chunk| <= max && pos == old(pos) + |chunk| && chunk == input[old(pos)..pos]
      ensures n == |chunk| || (n == -1 && chunk == "")
      ensures n == 0 ==> max == 0 || old(pos) == |input|
    {
      var fails: bool := *;
      if fails {
        return -1, "";
      }
      if max == 0 || pos == |input| {
        return 0, "";
      }
      n :| 0 < n <= max && pos + n <= |input|;
      chunk := input[pos..pos + n];
      pos := pos + n;
    }
  }

  /** The index of the first newline of the string at p, or -1. */
  method Strchr(buf: array<char>, p: nat, m: nat) returns (q: int)
    requires p <= m < buf.Length && buf[m] == NUL && forall j :: p <= j < m ==> buf[j] != NUL
    ensures q == -1 ==> forall j :: p <= j < m ==> buf[j] != '\n'
    ensures q != -1 ==> p <= q < m && buf[q] == '\n' && forall j :: p <= j < q ==> buf[j] != '\n'
  {
    q := p;
    while buf[q] != NUL
      invariant p <= q <= m && forall j :: p <= j < q ==> buf[j] != '\n'
      decreases m - q
    {
      if buf[q] == '\n' {
        return;
      }
      q := q + 1;
    }
    q := -1;
  }

  /** memmove down to the front of the buffer */
  method Shift(buf: array<char>, p: nat, n: nat)
    requires p + n <= buf.Length
    modifies buf
    ensures buf[..n] == old(buf[p..p + n])
  {
    var i := 0;
    while i < n
      invariant 0 <= i <= n && buf[..i] == old(buf[p..p + i])
      invariant forall j :: p + i <= j < buf.Length ==> buf[j] == old(buf[j])
    {
      buf[i] := buf[p + i];
      i := i + 1;
    }
  }

  method Fill(buf: array<char>, m: nat, chunk: string)
    requires m + |chunk| < buf.Length
    modifies buf
    ensures buf[..m] == old(buf[..m]) && buf[m..m + |chunk|] == chunk && buf[m + |chunk|] == NUL
  {
    var i := 0;
    while i < |chunk|
      invariant 0 <= i <= |chunk| && buf[..m] == old(buf[..m]) && buf[m..m + i] == chunk[..i]
    {
      buf[m + i] := chunk[i];
      i := i + 1;
    }
    buf[m + |chunk|] := NUL;
  }

  /** The line from p to the newline at q, shown if it matches; a line not shown loses its newline. */
  method ShowLine(re: string, buf: array<char>, p: nat, q: nat) returns (out: string)
    requires p <= q < buf.Length && buf[q] == '\n'
    modifies buf
    ensures out == Shown(re, old(buf[p..q])) && buf[..q] == old(buf[..q]) && buf[q + 1..] == old(buf[q + 1..])
  {
    hide Accepts;
    buf[q] := NUL;
    out := "";
    var ok := Match(re, buf[p..q]);
    assert buf[p..q] == old(buf[p..q]);
    if ok {
      buf[q] := '\n';
      assert buf[p..q + 1] == old(buf[p..q]) + "\n";
      out := buf[p..q + 1];
    }
  }

  /** From p on, the buffer holds what s holds, up to the NUL at m. */
  ghost predicate Loaded(buf: seq<char>, s: string, p: int, m: int) {
    && 0 <= p <= m <= |s| && m < |buf| == SIZE && NUL !in s
    && buf[p..m] == s[p..m] && buf[m] == NUL
  }

  lemma NoNul(buf: seq<char>, s: string, p: int, m: int)
    requires Loaded(buf, s, p, m)
    ensures forall j :: p <= j < m ==> buf[j] == s[j] && buf[j] != NUL
  {
    forall j | p <= j < m ensures buf[j] == s[j] && buf[j] != NUL {
      assert buf[p..m][j - p] == s[p..m][j - p];
    }
  }

  lemma LineStep(re: string, buf: seq<char>, s: string, p: int, q: int, m: int)
    requires Loaded(buf, s, p, m) && p <= q < m && buf[q] == '\n' && forall j :: p <= j < q ==> buf[j] != '\n'
    requires Lines(s[..p])
    ensures Printed(re, s[..q + 1]) == Printed(re, s[..p]) + Shown(re, buf[p..q]) && Lines(s[..q + 1])
  {
    hide Printed, Shown, Lines;
    NoNul(buf, s, p, m);
    var line := s[p..q + 1];
    assert line[..|line| - 1] == buf[p..q];
    assert forall j :: 0 <= j < q + 1 - p ==> line[j] == buf[p + j];
    PrintedLine(re, line);
    PrintedConcat(re, s[..p], line);
    LinesConcat(s[..p], line);
    assert s[..p] + line == s[..q + 1];
  }

  lemma LoadedNext(buf: seq<char>, buf': seq<char>, s: string, p: int, q: int, m: int)
    requires Loaded(buf, s, p, m) && p <= q < m && |buf'| == SIZE && buf'[q + 1..] == buf[q + 1..]
    ensures Loaded(buf', s, q + 1, m)
  {
    NoNul(buf, s, p, m);
    forall j | q + 1 <= j <= m ensures buf'[j] == buf[j] {
      assert buf'[q + 1..][j - q - 1] == buf[q + 1..][j - q - 1];
    }
  }

  /** The scan of the buffer, which holds the first m bytes of s: lines out, the start of the last one left. */
  method Scan(re: string, buf: array<char>, m: nat, ghost s: string) returns (out: string, p: nat)
    requires buf.Length == SIZE && Loaded(buf[..], s, 0, m)
    modifies buf
    ensures p <= m && Loaded(buf[..], s, p, m) && forall j :: p <= j < m ==> s[j] != '\n'
    ensures p <= |s| && Lines(s[..p]) && out == Printed(re, s[..p])
  {
    hide Printed, Shown, Loaded, Lines;
    out, p := "", 0;
    assert s[..0] == "";
    PrintedEmpty(re);
    LoadedRange(buf[..], s, p, m);
    var q := Strchr(buf, p, m);
    while q != -1
      invariant 0 <= p <= m < SIZE && m <= |s| && Loaded(buf[..], s, p, m)
      invariant q != -1 ==> p <= q < m && buf[q] == '\n' && forall j :: p <= j < q ==> buf[j] != '\n'
      invariant q == -1 ==> forall j :: p <= j < m ==> buf[j] != '\n'
      invariant Lines(s[..p]) && out == Printed(re, s[..p])
      decreases m - p, q
    {
      LineStep(re, buf[..], s, p, q, m);
      ghost var before := buf[..];
      var shown := ShowLine(re, buf, p, q);
      LoadedNext(before, buf[..], s, p, q, m);
      out := out + shown;
      p := q + 1;
      LoadedRange(buf[..], s, p, m);
      q := Strchr(buf, p, m);
    }
    LoadedRange(buf[..], s, p, m);
  }

  lemma PrintedEmpty(re: string)
    ensures Printed(re, "") == "" && Lines("")
  {
  }

  lemma LoadedRange(buf: seq<char>, s: string, p: int, m: int)
    requires Loaded(buf, s, p, m)
    ensures 0 <= p <= m <= |s| && m < |buf| == SIZE && buf[m] == NUL
    ensures forall j :: p <= j < m ==> buf[j] == s[j] && buf[j] != NUL
  {
    NoNul(buf, s, p, m);
  }

  /**
   After a read: `done` has been printed from, the buffer holds m bytes of s without newline,
   and what was just read follows them in s.
   */
  ghost predicate Reading(re: string, input: string, from: nat, pos: nat, done: string, s: string, m: nat,
          n: int, chunk: string, out: string)
  {
    && from <= pos <= |input| && m + |chunk| < SIZE && m + |chunk| <= |s| && NUL !in s
    && done + s == input[from..] && from + |done| + m + |chunk| == pos && chunk == s[m..m + |chunk|]
    && (forall j :: 0 <= j < m ==> s[j] != '\n')
    && (n == |chunk| || (n == -1 && chunk == "")) && (n == 0 ==> m == SIZE - 1 || pos == |input|)
    && Lines(done) && out == Printed(re, done)
  }

  /** What a read returned. */
  ghost predicate ReadFrom(input: string, pos: nat, pos': nat, max: int, n: int, chunk: string) {
    && pos <= pos' <= |input| && |chunk| <= max && pos' == pos + |chunk| && chunk == input[pos..pos']
    && (n == |chunk| || (n == -1 && chunk == "")) && (n == 0 ==> max == 0 || pos == |input|)
  }

  lemma ReadingStart(re: string, input: string, from: nat, pos: nat, n: int, chunk: string)
    requires ReadFrom(input, from, pos, SIZE - 1, n, chunk) && NUL !in input
    ensures Reading(re, input, from, pos, "", input[from..], 0, n, chunk, "")
  {
    hide Printed, Lines;
    PrintedEmpty(re);
    assert "" + input[from..] == input[from..];
  }

  /** One round: the lines of the first p bytes of s printed, the rest kept, more read. */
  lemma ReadingNext(re: string, input: string, from: nat, pos: nat, done: string, s: string, m: nat, n: int,
          chunk: string, out: string, p: nat, lines: string, pos': nat, n': int, chunk': string)
    requires Reading(re, input, from, pos, done, s, m, n, chunk, out) && p <= m + |chunk|
    requires Lines(s[..p]) && lines == Printed(re, s[..p]) && forall j :: p <= j < m + |chunk| ==> s[j] != '\n'
    requires ReadFrom(input, pos, pos', SIZE - (m + |chunk| - p) - 1, n', chunk')
    ensures Reading(re, input, from, pos', done + s[..p], s[p..], m + |chunk| - p, n', chunk', out + lines)
  {
    hide Printed, Lines;
    PrintedConcat(re, done, s[..p]);
    LinesConcat(done, s[..p]);
    assert s[..p] + s[p..] == s;
    assert input[from..][pos - from..] == input[pos..] && (done + s)[pos - from..] == s[m + |chunk|..];
    assert chunk' == input[pos..][..|chunk'|];
    assert s[m + |chunk|..][..|chunk'|] == s[p..][m + |chunk| - p..m + |chunk| - p + |chunk'|];
  }

  lemma ReadingFacts(re: string, input: string, from: nat, pos: nat, done: string, s: string, m: nat, n: int,
          chunk: string, out: string)
    requires Reading(re, input, from, pos, done, s, m, n, chunk, out)
    ensures pos <= |input| && m + |chunk| < SIZE == 1024 && m + |chunk| <= |s| && NUL !in s
    ensures chunk == s[m..m + |chunk|] && (n == |chunk| || (n == -1 && chunk == ""))
  {
  }

  /**
   However the file is read, what is printed depends only on what was read, and that only on
   the file unless a read fails.
   */
  method Run(re: string, f: File) returns (out: string, failed: bool)
    requires f.pos <= |f.input| && NUL !in f.input
    modifies f
    ensures old(f.pos) <= f.pos <= |f.input| && out == Printed(re, f.input[old(f.pos)..f.pos])
    ensures !failed ==> out == Printed(re, f.input[old(f.pos)..])
  {
    hide Printed, Shown, Loaded, Lines, Reading;
    var buf := new char[SIZE];
    var m: nat := 0;
    out := "";
    ghost var done, s := "", f.input[f.pos..];
    var n, chunk := f.Read(SIZE - m - 1);
    ReadingStart(re, f.input, old(f.pos), f.pos, n, chunk);
    ReadingFacts(re, f.input, old(f.pos), f.pos, done, s, m, n, chunk, out);
    while n > 0
      invariant Reading(re, f.input, old(f.pos), f.pos, done, s, m, n, chunk, out)
      invariant f.pos <= |f.input| && m + |chunk| < SIZE && m + |chunk| <= |s| && NUL !in s
      invariant chunk == s[m..m + |chunk|] && (n == |chunk| || (n == -1 && chunk == ""))
      invariant fresh(buf) && buf.Length == SIZE && buf[..m] == s[..m]
      decreases |f.input| - f.pos, |chunk|
    {
      Fill(buf, m, chunk);
      Filled(buf[..], s, m, chunk);
      var lines, p := Scan(re, buf, m + |chunk|, s);
      Kept(buf[..], s, p, m + |chunk|);
      var left := m + |chunk| - p;
      Shift(buf, p, left);
      ghost var pos := f.pos;
      var n1, chunk1 := f.Read(SIZE - left - 1);
      ReadingNext(re, f.input, old(f.pos), pos, done, s, m, n, chunk, out, p, lines, f.pos, n1, chunk1);
      done, s, m, n, chunk, out := done + s[..p], s[p..], left, n1, chunk1, out + lines;
      ReadingFacts(re, f.input, old(f.pos), f.pos, done, s, m, n, chunk, out);
    }
    failed := n == -1;
    ReadingDone(re, f.input, old(f.pos), f.pos, done, s, m, n, chunk, out);
  }

  lemma ReadingDone(re: string, input: string, from: nat, pos: nat, done: string, s: string, m: nat, n: int,
          chunk: string, out: string)
    requires Reading(re, input, from, pos, done, s, m, n, chunk, out) && n <= 0
    ensures from <= pos && out == Printed(re, input[from..pos]) && (n != -1 ==> out == Printed(re, input[from..]))
  {
    hide Printed, Lines;
    AllPrinted(re, input, from, pos, done, s, m);
  }

  /** At the end m bytes without newline are left over, at the end of the file unless a read failed. */
  lemma AllPrinted(re: string, input: string, from: nat, pos: nat, done: string, s: string, m: nat)
    requires from <= pos <= |input| && done + s == input[from..] && Lines(done)
    requires m <= |s| && from + |done| + m == pos && forall j :: 0 <= j < m ==> s[j] != '\n'
    ensures Printed(re, input[from..pos]) == Printed(re, done)
    ensures m == SIZE - 1 || pos == |input| ==> Printed(re, input[from..]) == Printed(re, done)
  {
    hide Printed, Lines;
    PrintedConcat(re, done, s[..m]);
    PrintedNothing(re, s[..m], m);
    assert input[from..pos] == input[from..][..|done| + m] == done + s[..m];
    if m == SIZE - 1 || pos == |input| {
      PrintedConcat(re, done, s);
      PrintedNothing(re, s, m);
    }
  }

  lemma Filled(buf: seq<char>, s: string, m: int, chunk: string)
    requires 0 <= m && m + |chunk| < |buf| == SIZE && m + |chunk| <= |s| && NUL !in s
    requires buf[..m] == s[..m] && buf[m..m + |chunk|] == chunk == s[m..m + |chunk|] && buf[m + |chunk|] == NUL
    ensures Loaded(buf, s, 0, m + |chunk|)
  {
    var n := m + |chunk|;
    assert buf[0..n] == buf[..m] + buf[m..n];
    assert s[0..n] == s[..m] + s[m..n];
  }

  lemma Kept(buf: seq<char>, s: string, p: int, m: int)
    requires Loaded(buf, s, p, m)
    ensures 0 <= p <= m <= |s| && m < |buf| && buf[p..m] == s[p..][..m - p] && s[p..][m - p..] == s[m..]
  {
  }
}
