/**
 Writing a command tree down and parsing it again (user/sh.c). Commands are written with
 parentheses only where the precedence of |, & and ; asks for them, and with any white space.
 */
module ShellRoundTrip {
  import opened Shell
  import opened ShellGrammar

  // -------------------------------------------------------------------------- words in the text

  /** A maximal run of characters that are neither white space nor symbols. */
  ghost predicate WordRange(s: string, r: Range) {
    && r.q < r.eq <= |s| && (forall k :: r.q <= k < r.eq ==> !Ws(s[k]) && !Sym(s[k]))
    && (r.eq < |s| ==> Ws(s[r.eq]) || Sym(s[r.eq]))
  }

  ghost predicate AllWords(s: string, t: Tree<Range>) {
    match t
    case Exec(argv) => forall k :: 0 <= k < |argv| ==> WordRange(s, argv[k])
    case Redir(cmd, file, _) => AllWords(s, cmd) && WordRange(s, file)
    case Pipe(l, r) => AllWords(s, l) && AllWords(s, r)
    case List(l, r) => AllWords(s, l) && AllWords(s, r)
    case Back(cmd) => AllWords(s, cmd)
  }

  ghost predicate RedirWords(s: string, rs: seq<Redirection>) {
    forall k :: 0 <= k < |rs| ==> WordRange(s, rs[k].file)
  }

  lemma {:induction false} WrapWords(s: string, cmd: Tree<Range>, rs: seq<Redirection>)
    requires AllWords(s, cmd) && RedirWords(s, rs)
    ensures AllWords(s, Wrap(cmd, rs))
    decreases |rs|
  {
    if rs != [] {
      WrapWords(s, cmd, rs[..|rs| - 1]);
    }
  }

  lemma {:induction false} RedirsAreWords(s: string, rs: seq<Redirection>, i: nat)
    requires i <= |s| && RedirWords(s, rs)
    ensures var r := ParseRedirs(s, rs, i); r.Redirs? ==> RedirWords(s, r.rs)
    decreases |s| - i
  {
    var j := SkipWs(s, i);
    if Peek(s, j, "<>") {
      var t1 := Gettoken(s, j);
      var t2 := Gettoken(s, t1.next);
      if t2.ret == 'a' {
        RedirsAreWords(s, rs + [Redirection(Range(t2.q, t2.eq), ModeOf(t1.ret))], t2.next);
      }
    }
  }

  lemma {:induction false} ArgsAreWords(s: string, argv: seq<Range>, rs: seq<Redirection>, i: nat)
    requires i <= |s| && RedirWords(s, rs) && forall k :: 0 <= k < |argv| ==> WordRange(s, argv[k])
    ensures var r := ParseArgs(s, argv, rs, i); r.Ok? ==> AllWords(s, r.cmd)
    decreases |s| - i
  {
    WrapWords(s, Exec(argv), rs);
    var j := SkipWs(s, i);
    if !Peek(s, j, "|)&;") {
      var t := Gettoken(s, j);
      if t.ret == 'a' && |argv| + 1 < MAXARGS {
        RedirsAreWords(s, rs, t.next);
        var r := ParseRedirs(s, rs, t.next);
        if r.Redirs? {
          ArgsAreWords(s, argv + [Range(t.q, t.eq)], r.rs, r.i);
        }
      }
    }
  }

  lemma {:induction false} BacksAreWords(s: string, cmd: Tree<Range>, i: nat)
    requires i <= |s| && AllWords(s, cmd)
    ensures AllWords(s, ParseBacks(s, cmd, i).cmd)
    decreases |s| - i
  {
    var j := SkipWs(s, i);
    if Peek(s, j, "&") {
      BacksAreWords(s, Back(cmd), Gettoken(s, j).next);
    }
  }

  /** Every string the parser records is a whole word of the text. */
  lemma {:induction false} ExecIsWords(s: string, i: nat)
    requires i <= |s|
    ensures var r := ParseExec(s, i); r.Ok? ==> AllWords(s, r.cmd)
    decreases |s| - i, 1
  {
    var j := SkipWs(s, i);
    if Peek(s, j, "(") {
      BlockIsWords(s, j);
    } else {
      RedirsAreWords(s, [], j);
      var r := ParseRedirs(s, [], j);
      if r.Redirs? { ArgsAreWords(s, [], r.rs, r.i); }
    }
  }

  lemma {:induction false} BlockIsWords(s: string, i: nat)
    requires i < |s| && s[i] == '('
    ensures var r := ParseBlock(s, i); r.Ok? ==> AllWords(s, r.cmd)
    decreases |s| - i, 0
  {
    var t := Gettoken(s, i);
    LineIsWords(s, t.next);
    var l := ParseLine(s, t.next);
    if l.Ok? {
      var j := SkipWs(s, l.i);
      RedirsAreWords(s, [], Gettoken(s, j).next);
      var r := ParseRedirs(s, [], Gettoken(s, j).next);
      if r.Redirs? { WrapWords(s, l.cmd, r.rs); }
    }
  }

  lemma {:induction false} PipeIsWords(s: string, i: nat)
    requires i <= |s|
    ensures var r := ParsePipe(s, i); r.Ok? ==> AllWords(s, r.cmd)
    decreases |s| - i, 2
  {
    ExecIsWords(s, i);
    var l := ParseExec(s, i);
    if l.Ok? {
      var j := SkipWs(s, l.i);
      if Peek(s, j, "|") { PipeIsWords(s, Gettoken(s, j).next); }
    }
  }

  lemma {:induction false} LineIsWords(s: string, i: nat)
    requires i <= |s|
    ensures var r := ParseLine(s, i); r.Ok? ==> AllWords(s, r.cmd)
    decreases |s| - i, 3
  {
    PipeIsWords(s, i);
    var p := ParsePipe(s, i);
    if p.Ok? {
      BacksAreWords(s, p.cmd, p.i);
      var b := ParseBacks(s, p.cmd, p.i);
      var j := SkipWs(s, b.i);
      if Peek(s, j, ";") { LineIsWords(s, Gettoken(s, j).next); }
    }
  }

  // ---------------------------------------------------------------------------- writing

  predicate Word(w: string) {
    w != "" && forall k :: 0 <= k < |w| ==> WordChar(w[k])
  }

  /** Trees the shell can represent: words without symbols, at most MAXARGS - 1 arguments. */
  ghost predicate Printable(c: Tree<string>) {
    match c
    case Exec(argv) => |argv| < MAXARGS && forall k :: 0 <= k < |argv| ==> Word(argv[k])
    case Redir(cmd, file, _) => Printable(cmd) && Word(file)
    case Pipe(l, r) => Printable(l) && Printable(r)
    case List(l, r) => Printable(l) && Printable(r)
    case Back(cmd) => Printable(cmd)
  }

  /** A token as it is written: a word, or a symbol, '+' for >>. */
  datatype Tok = W(text: string) | S(c: char)

  function OpOf(m: Mode): char {
    match m case Read => '<' case Write => '>' case Append => '+'
  }

  /** Which of the grammar's levels makes the tree: 0 for ;, 1 for &, 2 for |, 3 for simple commands. */
  function Home(c: Tree<string>): nat {
    match c case List(_, _) => 0 case Back(_) => 1 case Pipe(_, _) => 2 case _ => 3
  }

  /** The command in tokens, where only level lv and higher may stand without parentheses. */
  function Toks(c: Tree<string>, lv: nat): seq<Tok>
    requires lv <= 3
    decreases c, (Home(c) + 4 - lv) % 4
  {
    if Home(c) != lv then (if lv == 3 then [S('(')] + Toks(c, 0) + [S(')')] else Toks(c, lv + 1))
    else
      match c
      case Exec(argv) => seq(|argv|, k requires 0 <= k < |argv| => W(argv[k]))
      case Redir(cmd, file, mode) => Toks(cmd, 3) + [S(OpOf(mode)), W(file)]
      case Pipe(l, r) => Toks(l, 3) + [S('|')] + Toks(r, 2)
      case List(l, r) => Toks(l, 1) + [S(';')] + Toks(r, 0)
      case Back(cmd) => Toks(cmd, 1) + [S('&')]
  }

  /** The words a parsed tree refers to. */
  function Slice(s: string, r: Range): string {
    if r.q <= r.eq <= |s| then s[r.q..r.eq] else ""
  }

  function Slices(s: string, rs: seq<Range>): (ws: seq<string>)
    ensures |ws| == |rs|
  {
    seq(|rs|, k requires 0 <= k < |rs| => Slice(s, rs[k]))
  }

  function Words(s: string, t: Tree<Range>): Tree<string> {
    match t
    case Exec(argv) => Exec(Slices(s, argv))
    case Redir(cmd, file, mode) => Redir(Words(s, cmd), Slice(s, file), mode)
    case Pipe(l, r) => Pipe(Words(s, l), Words(s, r))
    case List(l, r) => List(Words(s, l), Words(s, r))
    case Back(cmd) => Back(Words(s, cmd))
  }

  /** What is written at a token's place. */
  function Label(s: string, x: Lexeme): Tok {
    if x.Word? then W(Slice(s, Range(x.q, x.e))) else S(x.c)
  }

  /** The tokens xs of the text are written ts. */
  ghost predicate Written(s: string, xs: seq<Lexeme>, ts: seq<Tok>) {
    |xs| == |ts| && forall k :: 0 <= k < |xs| ==> Label(s, xs[k]) == ts[k]
  }

  lemma WrittenSplit(s: string, xs: seq<Lexeme>, a: seq<Tok>, b: seq<Tok>)
    requires Written(s, xs, a + b)
    ensures Written(s, xs[..|a|], a) && Written(s, xs[|a|..], b)
  {
    assert forall k :: 0 <= k < |a| ==> (a + b)[k] == a[k];
    assert forall k :: 0 <= k < |b| ==> (a + b)[|a| + k] == b[k];
  }

  lemma WrittenBetween(s: string, xs: seq<Lexeme>, a: seq<Tok>, x: Tok, b: seq<Tok>)
    requires Written(s, xs, a + [x] + b)
    ensures |a| < |xs| && Written(s, xs[..|a|], a) && Label(s, xs[|a|]) == x && Written(s, xs[|a| + 1..], b)
  {
    assert a + [x] + b == a + ([x] + b);
    WrittenSplit(s, xs, a, [x] + b);
    WrittenSplit(s, xs[|a|..], [x], b);
    assert xs[|a|..][0] == xs[|a|] && xs[|a|..][1..] == xs[|a| + 1..];
  }

  // ---------------------------------------------------------------------- the grammar reads it

  ghost predicate Reads(xs: seq<Lexeme>, lv: nat, t: Tree<Range>) {
    match lv case 3 => Simple(xs, t) case 2 => Pipes(xs, t) case 1 => Backs(xs, t) case _ => Line(xs, t)
  }

  lemma {:induction false} WordsItems(s: string, xs: seq<Lexeme>, argv: seq<string>)
    requires |xs| == |argv| && forall k :: 0 <= k < |xs| ==> Label(s, xs[k]) == W(argv[k])
    ensures Items(xs) && Files(xs) == [] && Slices(s, Args(xs)) == argv
    decreases |xs|
  {
    hide Items, Args, Files, Slice;
    NoItems();
    if xs != [] {
      assert Label(s, xs[0]) == W(argv[0]);
      WordItem(xs);
      WordsItems(s, xs[1..], argv[1..]);
      assert argv == [argv[0]] + argv[1..];
      var rest := Args(xs[1..]);
      assert Slices(s, [Range(xs[0].q, xs[0].e)] + rest) == [argv[0]] + Slices(s, rest);
    }
  }

  lemma AroundMore(t: Tree<Range>, c: Tree<Range>, rs: seq<Redirection>, r: Redirection)
    requires Around(t, c, rs)
    ensures Around(Redir(t, r.file, r.mode), c, rs + [r])
  {
    assert (rs + [r])[..|rs|] == rs;
  }

  lemma FilesMore(xs: seq<Lexeme>, op: Lexeme, w: Lexeme)
    requires Items(xs) && IsRedir(op) && w.Word?
    ensures Items(xs + [op, w]) && Args(xs + [op, w]) == Args(xs)
    ensures Files(xs + [op, w]) == Files(xs) + [Redirection(Range(w.q, w.e), ModeFor(op.c))]
  {
    hide Items, Args, Files;
    NoItems();
    RedirOp(op);
    FileItem([op, w]);
    assert [op, w][2..] == [];
    ItemsJoin(xs, [op, w]);
  }

  /** A redirection behind a simple command. */
  lemma RedirMore(xs: seq<Lexeme>, t: Tree<Range>, op: Lexeme, w: Lexeme)
    requires Simple(xs, t) && IsRedir(op) && w.Word?
    ensures Simple(xs + [op, w], Redir(t, Range(w.q, w.e), ModeFor(op.c)))
  {
    hide Items, Args, Files, Around, Line, IsRedir;
    RedirOp(op);
    var ys, r := xs + [op, w], Redirection(Range(w.q, w.e), ModeFor(op.c));
    if Items(xs) && |Args(xs)| < MAXARGS && Around(t, Exec(Args(xs)), Files(xs)) {
      FilesMore(xs, op, w);
      AroundMore(t, Exec(Args(xs)), Files(xs), r);
    } else {
      var n: nat, c :| ShellGrammar.Block(xs, n) && Line(xs[1..n], c) && Around(t, c, Files(xs[n + 1..]));
      FilesMore(xs[n + 1..], op, w);
      AroundMore(t, c, Files(xs[n + 1..]), r);
      assert ys[1..n] == xs[1..n] && ys[n + 1..] == xs[n + 1..] + [op, w] && ys[n] == xs[n];
      assert ShellGrammar.Block(ys, n) && Line(ys[1..n], c);
    }
  }

  lemma InParens(xs: seq<Lexeme>, t: Tree<Range>)
    requires |xs| >= 2 && Is(xs[0], '(') && Is(xs[|xs| - 1], ')') && Line(xs[1..|xs| - 1], t)
    ensures Simple(xs, t)
  {
    hide Items, Args, Files, Line;
    NoItems();
    var n := |xs| - 1;
    assert xs[n + 1..] == [];
    assert ShellGrammar.Block(xs, n) && Line(xs[1..n], t) && Around(t, t, Files(xs[n + 1..]));
  }

  /** What is written at a level is read at that level. */
  lemma {:induction false} LevelBack(s: string, xs: seq<Lexeme>, c: Tree<string>, lv: nat) returns (t: Tree<Range>)
    requires lv <= 3 && Printable(c) && Written(s, xs, Toks(c, lv))
    ensures Reads(xs, lv, t) && Words(s, t) == c
    decreases c, (Home(c) + 4 - lv) % 4, 1
  {
    hide Simple, Pipes, Backs, Line, Written, Slice, Label;
    if Home(c) != lv {
      if lv == 3 {
        t := ParensBack(s, xs, c);
      } else {
        t := LevelBack(s, xs, c, lv + 1);
        ReadsLower(xs, lv, t);
      }
    } else {
      match c
      case Exec(argv) => t := ExecBack(s, xs, argv);
      case Redir(cmd, file, mode) => t := RedirBack(s, xs, c);
      case Pipe(l, r) => t := PipeBack(s, xs, c);
      case List(l, r) => t := ListBack(s, xs, c);
      case Back(cmd) => t := BackBack(s, xs, c);
    }
  }

  lemma ReadsLower(xs: seq<Lexeme>, lv: nat, t: Tree<Range>)
    requires lv < 3 && Reads(xs, lv + 1, t)
    ensures Reads(xs, lv, t)
  {
  }

  lemma {:induction false} ParensBack(s: string, xs: seq<Lexeme>, c: Tree<string>) returns (t: Tree<Range>)
    requires Home(c) < 3 && Printable(c) && Written(s, xs, Toks(c, 3))
    ensures Simple(xs, t) && Words(s, t) == c
    decreases c, (Home(c) + 1) % 4, 0
  {
    hide Simple, Pipes, Backs, Line, Words, Printable, Slice;
    var a := Toks(c, 0);
    assert Toks(c, 3) == [] + [S('(')] + (a + [S(')')] + []);
    WrittenBetween(s, xs, [], S('('), a + [S(')')] + []);
    WrittenBetween(s, xs[1..], a, S(')'), []);
    assert xs[1..][..|a|] == xs[1..|xs| - 1] && xs[1..][|a|] == xs[|xs| - 1];
    t := LevelBack(s, xs[1..|xs| - 1], c, 0);
    InParens(xs, t);
  }

  lemma ExecBack(s: string, xs: seq<Lexeme>, argv: seq<string>) returns (t: Tree<Range>)
    requires Printable(Exec(argv)) && Written(s, xs, Toks(Exec(argv), 3))
    ensures Simple(xs, t) && Words(s, t) == Exec(argv)
  {
    hide Items, Args, Files, Line, Slice, Word;
    WordsItems(s, xs, argv);
    t := Exec(Args(xs));
    assert Around(t, t, Files(xs));
  }

  lemma {:induction false} RedirBack(s: string, xs: seq<Lexeme>, c: Tree<string>) returns (t: Tree<Range>)
    requires c.Redir? && Printable(c) && Written(s, xs, Toks(c, 3))
    ensures Simple(xs, t) && Words(s, t) == c
    decreases c, 0, 0
  {
    hide Simple, Pipes, Backs, Line, Slice, Word;
    var a := Toks(c.cmd, 3);
    var n := |a|;
    assert Toks(c, 3) == a + [S(OpOf(c.mode))] + [W(c.file)];
    WrittenBetween(s, xs, a, S(OpOf(c.mode)), [W(c.file)]);
    assert xs[n + 1..][0] == xs[n + 1] && |xs| == n + 2;
    var t0 := LevelBack(s, xs[..n], c.cmd, 3);
    RedirMore(xs[..n], t0, xs[n], xs[n + 1]);
    assert xs == xs[..n] + [xs[n], xs[n + 1]];
    t := Redir(t0, Range(xs[n + 1].q, xs[n + 1].e), c.mode);
  }

  lemma {:induction false} PipeBack(s: string, xs: seq<Lexeme>, c: Tree<string>) returns (t: Tree<Range>)
    requires c.Pipe? && Printable(c) && Written(s, xs, Toks(c, 2))
    ensures Pipes(xs, t) && Words(s, t) == c
    decreases c, 0, 0
  {
    hide Simple, Backs, Line, Slice, Written;
    var a, b := Toks(c.left, 3), Toks(c.right, 2);
    WrittenBetween(s, xs, a, S('|'), b);
    var l := LevelBack(s, xs[..|a|], c.left, 3);
    var r := LevelBack(s, xs[|a| + 1..], c.right, 2);
    t := Pipe(l, r);
    assert Is(xs[|a|], '|') && Simple(xs[..|a|], t.left) && Pipes(xs[|a| + 1..], t.right);
  }

  lemma {:induction false} ListBack(s: string, xs: seq<Lexeme>, c: Tree<string>) returns (t: Tree<Range>)
    requires c.List? && Printable(c) && Written(s, xs, Toks(c, 0))
    ensures Line(xs, t) && Words(s, t) == c
    decreases c, 0, 0
  {
    hide Simple, Pipes, Backs, Slice, Written;
    var a, b := Toks(c.left, 1), Toks(c.right, 0);
    WrittenBetween(s, xs, a, S(';'), b);
    var l := LevelBack(s, xs[..|a|], c.left, 1);
    var r := LevelBack(s, xs[|a| + 1..], c.right, 0);
    t := List(l, r);
    assert Is(xs[|a|], ';') && Backs(xs[..|a|], t.left) && Line(xs[|a| + 1..], t.right);
  }

  lemma {:induction false} BackBack(s: string, xs: seq<Lexeme>, c: Tree<string>) returns (t: Tree<Range>)
    requires c.Back? && Printable(c) && Written(s, xs, Toks(c, 1))
    ensures Backs(xs, t) && Words(s, t) == c
    decreases c, 0, 0
  {
    hide Simple, Pipes, Line, Slice, Written;
    var a := Toks(c.cmd, 1);
    assert a + [S('&')] == a + [S('&')] + [];
    WrittenBetween(s, xs, a, S('&'), []);
    assert Written(s, xs[|a| + 1..], []) ==> |xs| == |a| + 1 by { WrittenNone(s, xs[|a| + 1..]); }
    var t0 := LevelBack(s, xs[..|a|], c.cmd, 1);
    t := Back(t0);
  }

  lemma WrittenNone(s: string, xs: seq<Lexeme>)
    ensures Written(s, xs, []) <==> xs == []
  {
  }

  /** For every tree the shell can represent and every text that writes it down, with whatever white
      space, parsing gives the tree back: | binds more tightly than &, which binds more
      tightly than ;, and both | and ; group to the right. */
  lemma RoundTrip(s: string, xs: seq<Lexeme>, c: Tree<string>)
    requires Printable(c) && Cuts(s, 0, xs) && Written(s, xs, Toks(c, 0))
    ensures ParseCmd(s).Ok? && Words(s, ParseCmd(s).cmd) == c
  {
    hide ParseCmd, Printable, Words, Toks, Written;
    var t := LevelBack(s, xs, c, 0);
    ParsesExactly(s, t);
  }

  // ------------------------------------------------------------------------------ one such text

  function Spelling(x: Tok): string {
    match x case W(w) => w case S(c) => if c == '+' then ">>" else [c]
  }

  /** The tokens, each with a space behind it. */
  function Spaced(ts: seq<Tok>): string {
    if ts == [] then "" else Spelling(ts[0]) + " " + Spaced(ts[1..])
  }

  ghost predicate GoodTok(x: Tok) {
    match x case W(w) => Word(w) case S(c) => c == '+' || Sym(c)
  }

  lemma {:induction false} ToksGood(c: Tree<string>, lv: nat)
    requires lv <= 3 && Printable(c)
    ensures forall k :: 0 <= k < |Toks(c, lv)| ==> GoodTok(Toks(c, lv)[k])
    decreases c, (Home(c) + 4 - lv) % 4
  {
    hide Word;
    if Home(c) != lv {
      ToksGood(c, if lv == 3 then 0 else lv + 1);
    } else {
      match c
      case Exec(argv) =>
      case Redir(cmd, _, _) => ToksGood(cmd, 3);
      case Pipe(l, r) => ToksGood(l, 3); ToksGood(r, 2);
      case List(l, r) => ToksGood(l, 1); ToksGood(r, 0);
      case Back(cmd) => ToksGood(cmd, 1);
    }
  }

  /** The text s is ts from i on. */
  lemma {:induction false} SpacedCuts(s: string, i: nat, ts: seq<Tok>) returns (xs: seq<Lexeme>)
    requires i <= |s| && s[i..] == Spaced(ts) && forall k :: 0 <= k < |ts| ==> GoodTok(ts[k])
    ensures Cuts(s, i, xs) && Written(s, xs, ts)
    decreases |ts|
  {
    if ts == [] {
      xs := [];
    } else {
      hide Cuts, IsToken, Written, GoodTok, Label, Spaced, Spelling;
      SpacedFront(s, i, ts);
      var j := i + |Spelling(ts[0])|;
      var ys := SpacedCuts(s, j + 1, ts[1..]);
      var x := if ts[0].W? then Lexeme.Word(i, j) else Lexeme.Op(ts[0].c, i, j);
      assert GoodTok(ts[0]);
      SpelledToken(s, i, ts[0], x);
      xs := [x] + ys;
      CutsAdd(s, i, x, ys);
      WrittenAdd(s, x, ys, ts);
    }
  }

  lemma SpacedFront(s: string, i: nat, ts: seq<Tok>)
    requires i <= |s| && s[i..] == Spaced(ts) && ts != []
    ensures var w := Spelling(ts[0]); var j := i + |w|;
            j < |s| && s[i..j] == w && s[j] == ' ' && s[j + 1..] == Spaced(ts[1..])
  {
    var w, rest, t := Spelling(ts[0]), Spaced(ts[1..]), s[i..];
    assert t[..|w|] == w && t[|w|] == ' ' && t[|w| + 1..] == rest;
    assert t[|w|] == s[i + |w|] && t[..|w|] == s[i..i + |w|] && t[|w| + 1..] == s[i + |w| + 1..];
  }

  lemma SpelledToken(s: string, i: nat, t: Tok, x: Lexeme)
    requires GoodTok(t) && i + |Spelling(t)| < |s| && s[i..i + |Spelling(t)|] == Spelling(t)
    requires s[i + |Spelling(t)|] == ' '
    requires x == if t.W? then Lexeme.Word(i, i + |Spelling(t)|) else Lexeme.Op(t.c, i, i + |Spelling(t)|)
    ensures IsToken(s, x) && Label(s, x) == t
  {
    var w := Spelling(t);
    forall k | i <= k < i + |w| ensures s[k] == w[k - i] { assert s[i..i + |w|][k - i] == w[k - i]; }
  }

  lemma CutsAdd(s: string, i: nat, x: Lexeme, ys: seq<Lexeme>)
    requires x.q == i && IsToken(s, x) && x.e < |s| && s[x.e] == ' ' && Cuts(s, x.e + 1, ys)
    ensures Cuts(s, i, [x] + ys)
  {
    assert ([x] + ys)[1..] == ys;
    assert Cuts(s, x.e, ys);
  }

  lemma WrittenAdd(s: string, x: Lexeme, ys: seq<Lexeme>, ts: seq<Tok>)
    requires ts != [] && Label(s, x) == ts[0] && Written(s, ys, ts[1..])
    ensures Written(s, [x] + ys, ts)
  {
  }

  /** The command with a space behind every token. */
  function Print(c: Tree<string>): string {
    Spaced(Toks(c, 0))
  }

  lemma PrintedBack(c: Tree<string>)
    requires Printable(c)
    ensures ParseCmd(Print(c)).Ok? && Words(Print(c), ParseCmd(Print(c)).cmd) == c
  {
    hide ParseCmd, Words, Toks, Printable, Spaced;
    ToksGood(c, 0);
    var s := Print(c);
    assert s[0..] == s;
    var xs := SpacedCuts(s, 0, Toks(c, 0));
    RoundTrip(s, xs, c);
  }
}
