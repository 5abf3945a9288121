/**
 The line loop of user/grep.c: a buffer of 1024 bytes, filled by reads of any size, and
 the matching lines written out.
 */
module Grep {
  import opened Regex

  const BUFSIZE: nat := 1024

  /** The position of the first newline, |s| if there is none. */
  function Newline(s: string): (e: nat)
    ensures e <= |s| && NoNewline(s, e) && (e < |s| ==> s[e] == '\n')
  {
    if s == "" || s[0] == '\n' then 0 else 1 + Newline(s[1..])
  }

  /** No newline among the first n characters. */
  predicate NoNewline(s: string, n: nat) {
    forall k :: 0 <= k < n && k < |s| ==> s[k] != '\n'
  }

  /** The terminated lines of the input that match, each with its newline. */
  ghost function Printed(re: string, input: string): string
    decreases |input|
  {
    var e := Newline(input);
    if e == |input| then "" else (if Occurs(re, input[..e]) then input[..e + 1] else "") + Printed(re, input[e + 1..])
  }

  /** grep sees the end of the line whose newline is at e: the buffer holds the line, and
      strchr meets no NUL before. */
  predicate Seen(input: string, e: nat) {
    e < |input| && e + 1 < BUFSIZE && '\0' !in input[..e]
  }

  /** The same, as far as the first line whose end grep does not see. */
  ghost function Fitting(re: string, input: string): string
    decreases |input|
  {
    var e := Newline(input);
    if !Seen(input, e) then ""
    else (if Occurs(re, input[..e]) then input[..e + 1] else "") + Fitting(re, input[e + 1..])
  }

  /** What is left from that line on; empty if there is none. */
  function Beyond(input: string): string
    decreases |input|
  {
    var e := Newline(input);
    if e == |input| then "" else if !Seen(input, e) then input else Beyond(input[e + 1..])
  }

  /** What one line contributes. */
  ghost function Piece(re: string, input: string, e: nat): string
    requires e < |input|
  {
    if Occurs(re, input[..e]) then input[..e + 1] else ""
  }

  lemma FirstLine(re: string, input: string)
    ensures var e := Newline(input);
            if e == |input| then Printed(re, input) == Fitting(re, input) == Beyond(input) == ""
            else Printed(re, input) == Piece(re, input, e) + Printed(re, input[e + 1..])
    ensures var e := Newline(input);
            if !Seen(input, e) then Fitting(re, input) == "" && (e < |input| ==> Beyond(input) == input)
            else Fitting(re, input) == Piece(re, input, e) + Fitting(re, input[e + 1..])
                 && Beyond(input) == Beyond(input[e + 1..])
  {
    hide Occurs, Newline;
  }

  /** Lines as text. */
  function Unlines(ls: seq<string>): string {
    if ls == [] then "" else ls[0] + "\n" + Unlines(ls[1..])
  }

  /** The lines in which the pattern occurs, in order. */
  ghost function Chosen(re: string, ls: seq<string>): seq<string> {
    if ls == [] then [] else (if Occurs(re, ls[0]) then [ls[0]] else []) + Chosen(re, ls[1..])
  }

  lemma PrintedLine(re: string, l: string, rest: string)
    requires '\n' !in l
    ensures Printed(re, l + "\n" + rest) == (if Occurs(re, l) then l + "\n" else "") + Printed(re, rest)
  {
    hide Occurs, Newline, Printed, Fitting, Beyond;
    var s, e := l + "\n" + rest, |l|;
    FirstLine(re, s);
    assert s[..e] == l && s[..e + 1] == l + "\n" && s[e + 1..] == rest;
    NewlineIs(s, e);
  }

  lemma PrintedNone(re: string, tail: string)
    requires '\n' !in tail
    ensures Printed(re, tail) == ""
  {
    hide Occurs;
    assert Newline(tail) == |tail|;
  }

  /** On a text given by its lines, and perhaps an unfinished last one, exactly the lines that match. */
  lemma {:induction false} PrintedIs(re: string, ls: seq<string>, tail: string)
    requires (forall i :: 0 <= i < |ls| ==> '\n' !in ls[i]) && '\n' !in tail
    ensures Printed(re, Unlines(ls) + tail) == Unlines(Chosen(re, ls))
    decreases |ls|
  {
    hide Occurs, Printed;
    if ls == [] {
      assert Unlines(ls) + tail == tail;
      PrintedNone(re, tail);
    } else {
      assert Unlines(ls) + tail == ls[0] + "\n" + (Unlines(ls[1..]) + tail);
      PrintedLine(re, ls[0], Unlines(ls[1..]) + tail);
      PrintedIs(re, ls[1..], tail);
      UnlinesMore(ls[0], Chosen(re, ls[1..]));
      assert [] + Chosen(re, ls[1..]) == Chosen(re, ls[1..]);
    }
  }

  lemma UnlinesMore(l: string, ls: seq<string>)
    ensures Unlines([l] + ls) == l + "\n" + Unlines(ls)
  {
    assert ([l] + ls)[1..] == ls;
  }

  lemma {:induction false} FittingIs(re: string, input: string)
    ensures Printed(re, input) == Fitting(re, input) + Printed(re, Beyond(input))
    decreases |input|
  {
    hide Printed, Fitting, Beyond, Newline, Piece;
    var e := Newline(input);
    FirstLine(re, input);
    FirstLine(re, "");
    if Seen(input, e) {
      FittingIs(re, input[e + 1..]);
      Regroup(Piece(re, input, e), Fitting(re, input[e + 1..]), Printed(re, Beyond(input)));
    } else {
      Regroup("", "", Printed(re, Beyond(input)));
    }
  }

  /** grep prints exactly the matching lines if and only if no matching line comes at or after
      the first line of more than 1023 bytes or with a NUL in it. */
  lemma ExactIff(re: string, input: string)
    ensures Fitting(re, input) == Printed(re, input) <==> Printed(re, Beyond(input)) == ""
  {
    FittingIs(re, input);
    var a, b := Fitting(re, input), Printed(re, Beyond(input));
    if a + b == a { assert |a + b| == |a| + |b|; }
    if b == "" { assert a + b == a; }
  }

  /** A line of BUFSIZE bytes before a matching line: grep writes nothing, not even that line. */
  lemma LongLineLost(re: string, input: string)
    requires |input| >= BUFSIZE && Newline(input) == BUFSIZE - 1 && Printed(re, input[BUFSIZE..]) != ""
    ensures Fitting(re, input) == "" != Printed(re, input)
  {
    hide Newline, Piece;
    FirstLine(re, input);
  }

  /** A NUL in the first line: grep writes nothing of it or of what follows. */
  lemma NulLineLost(re: string, input: string)
    requires Newline(input) < |input| && '\0' in input[..Newline(input)] && Printed(re, input) != ""
    ensures Fitting(re, input) != Printed(re, input)
  {
    hide Newline, Piece;
    FirstLine(re, input);
  }

  lemma EmptyOccurs(text: string)
    ensures Occurs("", text)
  {
    assert InLang(Items(""), text[..0]) && text[0..] == text;
    assert Here(Items(""), text[0..]);
  }

  /** 1023 characters and a newline, then the line x: the empty pattern matches both lines, and
      neither is written. */
  lemma LongLineExample(a: string)
    requires |a| == BUFSIZE - 1 && NoNewline(a, |a|)
    ensures Fitting("", a + "\n" + "x\n") == "" && Printed("", a + "\n" + "x\n") == a + "\n" + "x\n"
  {
    hide Printed, Fitting, Newline;
    var input := a + "\n" + "x\n";
    NewlineIs(input, |a|);
    assert input[|a| + 1..] == "x\n" && input[..|a| + 1] == a + "\n";
    FirstLine("", input);
    EmptyOccurs(input[..|a|]);
    EmptyOccurs("x\n"[..1]);
    NewlineIs("x\n", 1);
    FirstLine("", "x\n");
    assert "x\n"[2..] == "" && "x\n"[..2] == "x\n";
    FirstLine("", "");
  }

  lemma {:induction false} ShortLinesFit(input: string)
    requires AllShort(input)
    ensures Beyond(input) == ""
    decreases |input|
  {
    var e := Newline(input);
    if e < |input| { ShortLinesFit(input[e + 1..]); }
  }

  /** Every line has at most 1023 bytes, newline included, and no NUL. */
  predicate AllShort(input: string)
    decreases |input|
  {
    var e := Newline(input);
    e < |input| ==> Seen(input, e) && AllShort(input[e + 1..])
  }

  lemma NewlineIs(s: string, e: nat)
    requires e < |s| && s[e] == '\n' && NoNewline(s, e)
    ensures Newline(s) == e
  {
  }

  /** No line of s ends where grep sees it: no newline, or a NUL before. */
  predicate Stuck(s: string) {
    Newline(s) == |s| || '\0' in s[..Newline(s)]
  }

  /** A piece in which nothing ends is all there is, or fills the buffer: nothing more to print. */
  lemma NothingFits(re: string, held: string, left: string)
    requires Stuck(held) && (left == "" || |held| + 1 >= BUFSIZE)
    ensures Fitting(re, held + left) == ""
  {
    hide Occurs, Newline;
    var s, h := held + left, Newline(held);
    var e := Newline(s);
    assert forall k :: 0 <= k < |held| ==> s[k] == held[k];
    assert e < |held| ==> held[e] == '\n';
    assert h < |held| ==> s[h] == '\n';
    if '\0' in held[..h] {
      var k :| 0 <= k < h && held[k] == '\0';
      assert e >= h && s[..e][k] == '\0';
    }
  }

  /** How many bytes a read gives: at least one of what is left, at most what is asked for. */
  function ReadSize(want: nat, space: nat, left: nat): (n: nat)
    ensures n <= space && n <= left && (space > 0 && left > 0 ==> n > 0)
  {
    var n := if want == 0 then 1 else want;
    var n := if n < left then n else left;
    if n < space then n else space
  }

  /** strchr(p, '\n') in the text up to m, which a NUL follows: q is where it stops. */
  method Strchr(buf: array<char>, p: nat, m: nat) returns (q: nat)
    requires p <= m <= buf.Length
    ensures p <= q <= m && forall k :: p <= k < q ==> buf[k] != '\n' && buf[k] != '\0'
    ensures q < m ==> buf[q] == '\n' || buf[q] == '\0'
  {
    q := p;
    while q < m && buf[q] != '\n' && buf[q] != '\0'
      invariant p <= q <= m && forall k :: p <= k < q ==> buf[k] != '\n' && buf[k] != '\0'
    {
      q := q + 1;
    }
  }

  /** Where strchr stops without a newline, nothing ends. */
  lemma NoEnd(s: string, q: nat)
    requires q <= |s| && NoNewline(s, q) && (q < |s| ==> s[q] == '\0')
    ensures Stuck(s)
  {
    hide Newline;
    if q < |s| { assert Newline(s) > q ==> s[..Newline(s)][q] == '\0'; }
  }

  /** One complete line taken off the front. */
  lemma OneLine(re: string, s: string, e: nat)
    requires e < |s| && s[e] == '\n' && NoNewline(s, e) && e + 1 < BUFSIZE && '\0' !in s[..e]
    ensures Fitting(re, s) == (if Occurs(re, s[..e]) then s[..e + 1] else "") + Fitting(re, s[e + 1..])
  {
    hide Occurs;
    NewlineIs(s, e);
  }

  /** The line from p to the newline at q: matched with a NUL in its place, written if it matches. */
  method TakeLine(re: string, buf: array<char>, p: nat, q: nat, ghost b: string) returns (piece: string)
    requires p <= q < |b| <= buf.Length && b[q] == '\n' && forall k :: p <= k < |b| ==> buf[k] == b[k]
    modifies buf
    ensures piece == if Occurs(re, b[p..q]) then b[p..q + 1] else ""
    ensures forall k :: q < k < |b| ==> buf[k] == b[k]
  {
    hide Occurs;
    var text := buf[p..q];
    assert text == b[p..q];
    buf[q] := '\0';
    var found := Match(re, text);
    piece := "";
    if found {
      buf[q] := '\n';
      piece := buf[p..q + 1];
      assert piece == b[p..q + 1];
    }
  }

  /** The lines complete in the buffer; `tail` is the input still to be read. */
  method Scan(re: string, buf: array<char>, m: nat, ghost tail: string) returns (p: nat, o: string)
    requires buf.Length == BUFSIZE && m < BUFSIZE
    modifies buf
    ensures p <= m && buf[p..m] == old(buf[p..m]) && Stuck(old(buf[p..m]))
    ensures o + Fitting(re, old(buf[p..m]) + tail) == Fitting(re, old(buf[..m]) + tail)
  {
    hide Occurs, Fitting, Stuck;
    p, o := 0, "";
    ghost var b := buf[..m];
    assert b[0..] == b;
    while true
      invariant p <= m && (forall k :: p <= k < m ==> buf[k] == b[k])
      invariant o + Fitting(re, b[p..] + tail) == Fitting(re, b + tail)
      decreases m - p
    {
      var q := Strchr(buf, p, m);
      if q == m || buf[q] == '\0' {
        NoEnd(b[p..], q - p);
        break;
      }
      LineInBuffer(re, b, tail, p, q);
      var piece := TakeLine(re, buf, p, q, b);
      o := o + piece;
      p := q + 1;
    }
    assert buf[p..m] == b[p..] == old(buf[p..m]);
  }

  /** The line between p and the newline at q. */
  lemma LineInBuffer(re: string, b: string, tail: string, p: nat, q: nat)
    requires p <= q < |b| < BUFSIZE && b[q] == '\n' && forall k :: p <= k < q ==> b[k] != '\n' && b[k] != '\0'
    ensures Fitting(re, b[p..] + tail) == (if Occurs(re, b[p..q]) then b[p..q + 1] else "")
        + Fitting(re, b[q + 1..] + tail)
  {
    hide Occurs, Fitting;
    var line := b[p..] + tail;
    assert line[..q - p] == b[p..q] && line[..q - p + 1] == b[p..q + 1] && line[q - p + 1..] == b[q + 1..] + tail;
    OneLine(re, line, q - p);
  }

  /** read into the buffer at m. */
  method Fill(buf: array<char>, m: nat, data: string)
    requires m + |data| <= buf.Length
    modifies buf
    ensures buf[..m + |data|] == old(buf[..m]) + data
  {
    forall k | 0 <= k < |data| { buf[m + k] := data[k]; }
  }

  /** memmove(buf, p, m - p) */
  method Move(buf: array<char>, p: nat, m: nat)
    requires p <= m <= buf.Length
    modifies buf
    ensures buf[..m - p] == old(buf[p..m])
  {
    forall k | 0 <= k < m - p { buf[k] := buf[p + k]; }
  }

  lemma Regroup(held: string, data: string, tail: string)
    ensures held + (data + tail) == (held + data) + tail
  {
  }

  /** One turn: what was read joins what the buffer holds, complete lines are dealt with, the
      rest moves to the front. */
  method Turn(re: string, buf: array<char>, m: nat, data: string, ghost tail: string) returns (m': nat, o: string)
    requires buf.Length == BUFSIZE && m + |data| < BUFSIZE
    modifies buf
    ensures m' < BUFSIZE && Stuck(buf[..m'])
    ensures o + Fitting(re, buf[..m'] + tail) == Fitting(re, old(buf[..m]) + (data + tail))
  {
    hide Occurs, Fitting, Stuck;
    ghost var held := buf[..m];
    Fill(buf, m, data);
    Regroup(held, data, tail);
    var p;
    p, o := Scan(re, buf, m + |data|, tail);
    Move(buf, p, m + |data|);
    m' := m + |data| - p;
  }

  lemma ShortIsExact(re: string, input: string)
    requires AllShort(input)
    ensures Fitting(re, input) == Printed(re, input)
  {
    hide Fitting, AllShort, Beyond;
    ShortLinesFit(input);
    ExactIff(re, input);
  }

  /** grep: however the reads split the input, what is written is Fitting; without lines longer
      than the buffer and without NULs that is every matching line. */
  method Grep(re: string, input: string, sizes: seq<nat>) returns (out: string)
    ensures out == Fitting(re, input)
    ensures AllShort(input) ==> out == Printed(re, input)
  {
    hide Occurs, Fitting, Stuck, Printed, AllShort, Beyond;
    if AllShort(input) { ShortIsExact(re, input); }
    out := "";
    var buf := new char[BUFSIZE];
    var m, left, turn := 0, input, 0;
    assert buf[..0] + input == input;
    NoneYet(buf[..0]);
    while true
      invariant 0 <= m < BUFSIZE == buf.Length && Stuck(buf[..m])
      invariant out + Fitting(re, buf[..m] + left) == Fitting(re, input)
      decreases |left|
    {
      var n := ReadSize(if turn < |sizes| then sizes[turn] else 0, BUFSIZE - m - 1, |left|);
      turn := turn + 1;
      if n == 0 {
        NothingFits(re, buf[..m], left);
        return;
      }
      assert left == left[..n] + left[n..];
      var m', o := Turn(re, buf, m, left[..n], left[n..]);
      m, left, out := m', left[n..], out + o;
    }
  }

  lemma NoneYet(s: string)
    requires s == ""
    ensures Stuck(s)
  {
  }
}
