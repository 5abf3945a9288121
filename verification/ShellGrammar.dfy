/**
 The language of user/sh.c's parser as a grammar over tokens, with any white space around
 them, and the parser as exactly its recogniser: it accepts a text if and only if the
 grammar derives a tree from the text's tokens, and gives that tree.
 */
module ShellGrammar {
  import opened Shell

  // ----------------------------------------------------------------------------- tokens

  /** A token at a place of the text: a word, or a symbol, '+' for >>. */
  datatype Lexeme = Word(q: nat, e: nat) | Op(c: char, q: nat, e: nat)

  /** The text from x.q to x.e is this token and not part of a longer one. */
  ghost predicate IsToken(s: string, x: Lexeme) {
    && x.q < x.e <= |s|
    && match x
       case Word(q, e) =>
         (forall k :: q <= k < e ==> !Ws(s[k]) && !Sym(s[k])) && (e < |s| ==> Ws(s[e]) || Sym(s[e]))
       case Op(c, q, e) =>
         if c == '+' then s[q..e] == ">>"
         else Sym(c) && s[q..e] == [c] && (c == '>' && e < |s| ==> s[e] != '>')
  }

  ghost predicate Blank(s: string, i: nat, j: nat) {
    i <= j <= |s| && forall k :: i <= k < j ==> Ws(s[k])
  }

  /** From i on the text is these tokens, with white space or nothing around them. */
  ghost predicate Cuts(s: string, i: nat, xs: seq<Lexeme>)
    decreases |xs|
  {
    if xs == [] then Blank(s, i, |s|) else Blank(s, i, xs[0].q) && IsToken(s, xs[0]) && Cuts(s, xs[0].e, xs[1..])
  }

  predicate Is(x: Lexeme, c: char) {
    x.Op? && x.c == c
  }

  predicate IsRedir(x: Lexeme) {
    Is(x, '<') || Is(x, '>') || Is(x, '+')
  }

  // ---------------------------------------------------------------------------- grammar

  function ModeFor(c: char): Mode {
    if c == '<' then Read else if c == '>' then Write else Append
  }

  /** Words and redirections, in any order. */
  ghost predicate Items(xs: seq<Lexeme>)
    decreases |xs|
  {
    if xs == [] then true
    else if xs[0].Word? then Items(xs[1..])
    else |xs| >= 2 && IsRedir(xs[0]) && xs[1].Word? && Items(xs[2..])
  }

  /** The words that are not names of files, in order. */
  ghost function Args(xs: seq<Lexeme>): seq<Range>
    requires Items(xs)
    decreases |xs|
  {
    if xs == [] then [] else if xs[0].Word? then [Range(xs[0].q, xs[0].e)] + Args(xs[1..]) else Args(xs[2..])
  }

  /** The redirections, in order. */
  ghost function Files(xs: seq<Lexeme>): seq<Redirection>
    requires Items(xs)
    decreases |xs|
  {
    if xs == [] then []
    else if xs[0].Word? then Files(xs[1..])
    else [Redirection(Range(xs[1].q, xs[1].e), ModeFor(xs[0].c))] + Files(xs[2..])
  }

  /** t is c with these redirections around it, the last one outermost. */
  ghost predicate Around(t: Tree<Range>, c: Tree<Range>, rs: seq<Redirection>)
    decreases |rs|
  {
    if rs == [] then t == c
    else
      var r := rs[|rs| - 1];
      t.Redir? && t.file == r.file && t.mode == r.mode && Around(t.cmd, c, rs[..|rs| - 1])
  }

  /** A simple command: at most MAXARGS - 1 words, and redirections; or a line in parentheses with
      redirections behind it. */
  ghost predicate Simple(xs: seq<Lexeme>, t: Tree<Range>)
    decreases |xs|, 0
  {
    || (Items(xs) && |Args(xs)| < MAXARGS && Around(t, Exec(Args(xs)), Files(xs)))
    || (exists n: nat, c: Tree<Range> :: Block(xs, n) && Line(xs[1..n], c) && Around(t, c, Files(xs[n + 1..])))
  }

  /** A parenthesis, another at n, and redirections behind that. */
  ghost predicate Block(xs: seq<Lexeme>, n: nat) {
    0 < n < |xs| && Is(xs[0], '(') && Is(xs[n], ')') && Items(xs[n + 1..]) && Args(xs[n + 1..]) == []
  }

  /** Simple commands with | between them; | groups to the right. */
  ghost predicate Pipes(xs: seq<Lexeme>, t: Tree<Range>)
    decreases |xs|, 1
  {
    || Simple(xs, t)
    || (t.Pipe? && exists n :: 0 <= n < |xs| && Is(xs[n], '|') && Simple(xs[..n], t.left) && Pipes(xs[n + 1..], t.right))
  }

  /** A pipeline with any number of & behind it. */
  ghost predicate Backs(xs: seq<Lexeme>, t: Tree<Range>)
    decreases |xs|, 2
  {
    || Pipes(xs, t)
    || (t.Back? && xs != [] && Is(xs[|xs| - 1], '&') && Backs(xs[..|xs| - 1], t.cmd))
  }

  /** Such pipelines with ; between them; ; groups to the right. */
  ghost predicate Line(xs: seq<Lexeme>, t: Tree<Range>)
    decreases |xs|, 3
  {
    || Backs(xs, t)
    || (t.List? && exists n :: 0 <= n < |xs| && Is(xs[n], ';') && Backs(xs[..n], t.left) && Line(xs[n + 1..], t.right))
  }

  // -------------------------------------------------------------------- the parser's tokens

  lemma {:induction false} SkipIs(s: string, i: nat, j: nat)
    requires Blank(s, i, j) && (j < |s| ==> !Ws(s[j]))
    ensures SkipWs(s, i) == j
    decreases j - i
  {
    if i < j { SkipIs(s, i + 1, j); }
  }

  lemma {:induction false} WordIs(s: string, i: nat, j: nat)
    requires i <= j <= |s| && (forall k :: i <= k < j ==> !Ws(s[k]) && !Sym(s[k]))
    requires j < |s| ==> Ws(s[j]) || Sym(s[j])
    ensures WordEnd(s, i) == j
    decreases j - i
  {
    if i < j { WordIs(s, i + 1, j); }
  }

  /** The first character of a token. */
  function First(x: Lexeme): char {
    if x.Word? then 'a' else if x.c == '+' then '>' else x.c
  }

  lemma TokenFirst(s: string, x: Lexeme)
    requires IsToken(s, x)
    ensures !Ws(s[x.q]) && (x.Word? ==> !Sym(s[x.q])) && (x.Op? ==> s[x.q] == First(x) && Sym(s[x.q]))
    ensures x.Op? && x.c != '+' ==> x.e == x.q + 1
    ensures x.Op? && x.c == '+' ==> x.e == x.q + 2 && s[x.q + 1] == '>'
    ensures x.Op? && x.c == '>' ==> x.e == |s| || s[x.e] != '>'
  {
    if x.Op? {
      assert s[x.q..x.e][0] == s[x.q];
      if x.c == '+' { assert s[x.q..x.e][1] == s[x.q + 1]; }
    }
  }

  lemma CutsFrom(s: string, i: nat, xs: seq<Lexeme>)
    requires Cuts(s, i, xs)
    ensures i <= |s| && Cuts(s, SkipWs(s, i), xs) && SkipWs(s, SkipWs(s, i)) == SkipWs(s, i)
    ensures SkipWs(s, i) == if xs == [] then |s| else xs[0].q
    ensures xs != [] ==> xs[0].q < |s|
  {
    if xs == [] {
      SkipIs(s, i, |s|);
    } else {
      TokenFirst(s, xs[0]);
      SkipIs(s, i, xs[0].q);
    }
  }

  /** gettoken gives the next token. */
  lemma TokenIs(s: string, i: nat, xs: seq<Lexeme>)
    requires Cuts(s, i, xs) && xs != []
    ensures i <= |s|
    ensures var t := Gettoken(s, i);
            && t.ret == (if xs[0].Word? then 'a' else xs[0].c) && t.q == xs[0].q && t.eq == xs[0].e
            && Cuts(s, t.next, xs[1..]) && SkipWs(s, t.next) == t.next && t.next > i
  {
    CutsFrom(s, i, xs);
    TokenFirst(s, xs[0]);
    CutsFrom(s, xs[0].e, xs[1..]);
    if xs[0].Word? { WordIs(s, xs[0].q, xs[0].e); }
  }

  lemma TokenNone(s: string, i: nat)
    requires Cuts(s, i, [])
    ensures i <= |s| && Gettoken(s, i) == Token('\0', |s|, |s|, |s|)
  {
    CutsFrom(s, i, []);
  }

  /** peek looks at the first character of the next token. */
  lemma PeekIs(s: string, i: nat, xs: seq<Lexeme>, toks: string)
    requires Cuts(s, i, xs) && forall c :: c in toks ==> Sym(c)
    ensures i <= |s| && (Peek(s, SkipWs(s, i), toks) <==> xs != [] && xs[0].Op? && First(xs[0]) in toks)
  {
    CutsFrom(s, i, xs);
    if xs != [] { TokenFirst(s, xs[0]); }
  }

  lemma OpIs(s: string, i: nat, xs: seq<Lexeme>)
    requires Cuts(s, i, xs) && xs != [] && xs[0].Op?
    ensures xs[0].c == '+' || Sym(xs[0].c)
  {
  }

  /** Every text can be cut into tokens. */
  lemma {:induction false} CutAll(s: string, i: nat) returns (xs: seq<Lexeme>)
    requires i <= |s|
    ensures Cuts(s, i, xs)
    decreases |s| - i
  {
    var q := SkipWs(s, i);
    if q == |s| {
      xs := [];
    } else {
      var x := if Sym(s[q]) then
        (if s[q] == '>' && q + 1 < |s| && s[q + 1] == '>' then Op('+', q, q + 2) else Op(s[q], q, q + 1))
        else Word(q, WordEnd(s, q));
      assert x.Op? && x.c == '+' ==> s[q..q + 2] == ">>";
      var rest := CutAll(s, x.e);
      xs := [x] + rest;
      assert xs[1..] == rest;
    }
  }

  // ------------------------------------------------------------------ items and redirections

  lemma {:induction false} WrapAround(t: Tree<Range>, c: Tree<Range>, rs: seq<Redirection>)
    ensures Around(t, c, rs) <==> t == Wrap(c, rs)
    decreases |rs|
  {
    if rs != [] && t.Redir? { WrapAround(t.cmd, c, rs[..|rs| - 1]); }
  }

  // Unfoldings of Items, Args and Files at the front.
  lemma NoItems()
    ensures Items([]) && Args([]) == [] && Files([]) == []
  {
  }

  lemma WordItem(xs: seq<Lexeme>)
    requires xs != [] && xs[0].Word?
    ensures Items(xs) <==> Items(xs[1..])
    ensures Items(xs) ==> Args(xs) == [Range(xs[0].q, xs[0].e)] + Args(xs[1..]) && Files(xs) == Files(xs[1..])
  {
  }

  lemma FileItem(xs: seq<Lexeme>)
    requires xs != [] && xs[0].Op?
    ensures Items(xs) <==> |xs| >= 2 && IsRedir(xs[0]) && xs[1].Word? && Items(xs[2..])
    ensures Items(xs) ==> Args(xs) == Args(xs[2..])
    ensures Items(xs) ==> Files(xs) == [Redirection(Range(xs[1].q, xs[1].e), ModeFor(xs[0].c))] + Files(xs[2..])
  {
  }

  lemma {:induction false} ItemsJoin(xs: seq<Lexeme>, ys: seq<Lexeme>)
    requires Items(xs) && Items(ys)
    ensures Items(xs + ys) && Args(xs + ys) == Args(xs) + Args(ys) && Files(xs + ys) == Files(xs) + Files(ys)
    decreases |xs|
  {
    hide Items, Args, Files;
    NoItems();
    if xs == [] {
      assert xs + ys == ys;
    } else if xs[0].Word? {
      WordItem(xs);
      WordItem(xs + ys);
      assert (xs + ys)[1..] == xs[1..] + ys;
      ItemsJoin(xs[1..], ys);
    } else {
      FileItem(xs);
      FileItem(xs + ys);
      assert (xs + ys)[2..] == xs[2..] + ys && (xs + ys)[1] == xs[1];
      ItemsJoin(xs[2..], ys);
    }
  }

  /** How many tokens the redirections at the front take. */
  ghost function Lead(xs: seq<Lexeme>): (n: nat)
    requires Items(xs)
    ensures n <= |xs|
    decreases |xs|
  {
    if xs == [] || xs[0].Word? then 0 else 2 + Lead(xs[2..])
  }

  lemma {:induction false} LeadIs(xs: seq<Lexeme>)
    requires Items(xs)
    ensures var n := Lead(xs); Items(xs[..n]) && Items(xs[n..]) && Args(xs[..n]) == [] && Args(xs) == Args(xs[n..])
    ensures var n := Lead(xs); Files(xs) == Files(xs[..n]) + Files(xs[n..]) && (n < |xs| ==> xs[n].Word?)
    decreases |xs|
  {
    hide Items, Args, Files;
    NoItems();
    if xs == [] || xs[0].Word? {
      assert xs[0..] == xs && xs[..0] == [];
    } else {
      FileItem(xs);
      var n := Lead(xs);
      LeadIs(xs[2..]);
      assert xs[..n][2..] == xs[2..][..n - 2] && xs[n..] == xs[2..][n - 2..];
      FileItem(xs[..n]);
    }
  }

  lemma RedirFirst(s: string, i: nat, xs: seq<Lexeme>)
    requires Cuts(s, i, xs)
    ensures i <= |s| && (Peek(s, SkipWs(s, i), "<>") <==> xs != [] && IsRedir(xs[0]))
  {
    PeekIs(s, i, xs, "<>");
    if xs != [] && xs[0].Op? { OpIs(s, i, xs); }
  }

  lemma RedirStep(s: string, i: nat, xs: seq<Lexeme>, before: seq<Redirection>) returns (j: nat)
    requires Cuts(s, i, xs) && |xs| >= 2 && IsRedir(xs[0]) && xs[1].Word?
    ensures i < j <= |s| && Cuts(s, j, xs[2..])
    ensures ParseRedirs(s, before, i)
         == ParseRedirs(s, before + [Redirection(Range(xs[1].q, xs[1].e), ModeFor(xs[0].c))], j)
  {
    hide Gettoken, SkipWs, Cuts, IsToken;
    CutsFrom(s, i, xs);
    RedirFirst(s, i, xs);
    var k := SkipWs(s, i);
    TokenIs(s, k, xs);
    TokenIs(s, Gettoken(s, k).next, xs[1..]);
    assert xs[1..][1..] == xs[2..] && xs[1..][0] == xs[1];
    j := Gettoken(s, Gettoken(s, k).next).next;
    CutsFrom(s, j, xs[2..]);
  }

  lemma RedirsEnd(s: string, i: nat, rest: seq<Lexeme>, before: seq<Redirection>) returns (j: nat)
    requires Cuts(s, i, rest) && (rest != [] ==> !IsRedir(rest[0]))
    ensures i <= |s| && ParseRedirs(s, before, i) == Redirs(before, j) && Cuts(s, j, rest) && SkipWs(s, j) == j
  {
    hide Gettoken, SkipWs, Cuts, IsToken, IsRedir;
    CutsFrom(s, i, rest);
    RedirFirst(s, i, rest);
    j := SkipWs(s, i);
  }

  /** parseredirs takes exactly the redirections it finds. */
  lemma {:induction false} RedirsTake(s: string, i: nat, xs: seq<Lexeme>, rest: seq<Lexeme>, before: seq<Redirection>)
    returns (j: nat)
    requires Cuts(s, i, xs + rest) && Items(xs) && Args(xs) == [] && (rest != [] ==> !IsRedir(rest[0]))
    ensures i <= |s| && ParseRedirs(s, before, i) == Redirs(before + Files(xs), j) && Cuts(s, j, rest)
    ensures SkipWs(s, j) == j
    decreases |xs|
  {
    hide Gettoken, SkipWs, Cuts, IsToken, Items, Args, Files, IsRedir, ParseRedirs;
    NoItems();
    if xs == [] {
      assert xs + rest == rest && before + [] == before;
      j := RedirsEnd(s, i, rest, before);
    } else {
      if xs[0].Word? { WordItem(xs); } else { FileItem(xs); }
      assert (xs + rest)[2..] == xs[2..] + rest && (xs + rest)[1] == xs[1];
      var k := RedirStep(s, i, xs + rest, before);
      var r := Redirection(Range(xs[1].q, xs[1].e), ModeFor(xs[0].c));
      j := RedirsTake(s, k, xs[2..], rest, before + [r]);
      assert before + [r] + Files(xs[2..]) == before + Files(xs);
    }
  }

  /** What may follow a simple command. */
  predicate Stops(rest: seq<Lexeme>, toks: string) {
    rest == [] || (rest[0].Op? && rest[0].c in toks)
  }

  lemma PeekStop(s: string, i: nat, rest: seq<Lexeme>)
    requires Cuts(s, i, rest)
    ensures i <= |s| && (Peek(s, SkipWs(s, i), "|)&;") <==> rest != [] && Stops(rest, "|)&;"))
  {
    PeekIs(s, i, rest, "|)&;");
    if rest != [] && rest[0].Op? { OpIs(s, i, rest); }
  }

  /** The loop of parseexec takes words and redirections in any order. */
  lemma {:induction false} ArgsTake(s: string, i: nat, xs: seq<Lexeme>, rest: seq<Lexeme>, argv: seq<Range>,
      rs: seq<Redirection>) returns (j: nat)
    requires Cuts(s, i, xs + rest) && Items(xs) && (xs != [] ==> xs[0].Word?) && Stops(rest, "|)&;")
    requires |argv| + |Args(xs)| < MAXARGS
    ensures i <= |s| && ParseArgs(s, argv, rs, i) == Ok(Wrap(Exec(argv + Args(xs)), rs + Files(xs)), j)
    ensures Cuts(s, j, rest) && SkipWs(s, j) == j
    decreases |xs|
  {
    hide Gettoken, SkipWs, Cuts, IsToken, ParseRedirs, Wrap, Items, Args, Files;
    NoItems();
    CutsFrom(s, i, xs + rest);
    PeekStop(s, i, xs + rest);
    j := SkipWs(s, i);
    if xs == [] {
      assert xs + rest == rest && argv + [] == argv && rs + [] == rs;
      if rest == [] { TokenNone(s, j); }
    } else {
      WordItem(xs);
      TokenIs(s, j, xs + rest);
      var t := Gettoken(s, j);
      var ys := xs[1..];
      assert (xs + rest)[1..] == ys + rest;
      LeadIs(ys);
      var n := Lead(ys);
      assert ys + rest == ys[..n] + (ys[n..] + rest);
      var k := RedirsTake(s, t.next, ys[..n], ys[n..] + rest, rs);
      var argv', rs' := argv + [Range(t.q, t.eq)], rs + Files(ys[..n]);
      j := ArgsTake(s, k, ys[n..], rest, argv', rs');
      assert argv' + Args(ys[n..]) == argv + Args(xs);
      assert rs' + Files(ys[n..]) == rs + Files(xs);
    }
  }

  // ------------------------------------------------- what the grammar derives, the parser finds

  /** A symbol of its own is the next token. */
  lemma SymStep(s: string, i: nat, xs: seq<Lexeme>, toks: string) returns (j: nat)
    requires Cuts(s, i, xs) && |toks| == 1 && toks[0] in "|()&;"
    ensures i <= |s| && (Peek(s, SkipWs(s, i), toks) <==> xs != [] && Is(xs[0], toks[0]))
    ensures j == Gettoken(s, SkipWs(s, i)).next && i <= j <= |s|
    ensures xs != [] ==> Cuts(s, j, xs[1..]) && i < j
  {
    hide Gettoken, SkipWs, Cuts, IsToken;
    CutsFrom(s, i, xs);
    PeekIs(s, i, xs, toks);
    if xs != [] {
      TokenIs(s, SkipWs(s, i), xs);
      if xs[0].Op? { OpIs(s, i, xs); }
    }
    j := Gettoken(s, SkipWs(s, i)).next;
  }

  lemma ItemsTake(s: string, i: nat, xs: seq<Lexeme>, rest: seq<Lexeme>, t: Tree<Range>) returns (j: nat)
    requires Cuts(s, i, xs + rest) && Stops(rest, "|)&;")
    requires Items(xs) && |Args(xs)| < MAXARGS && Around(t, Exec(Args(xs)), Files(xs))
    ensures i <= |s| && ParseExec(s, i) == Ok(t, j) && Cuts(s, j, rest) && SkipWs(s, j) == j
  {
    hide Gettoken, SkipWs, Cuts, IsToken, ParseRedirs, ParseArgs, Items, Args, Files, Wrap, Around, ParseBlock;
    NoItems();
    CutsFrom(s, i, xs + rest);
    var _ := SymStep(s, i, xs + rest, "(");
    if xs == [] { assert xs + rest == rest; } else if xs[0].Op? { FileItem(xs); }
    LeadIs(xs);
    var n := Lead(xs);
    assert xs + rest == xs[..n] + (xs[n..] + rest);
    var k := RedirsTake(s, SkipWs(s, i), xs[..n], xs[n..] + rest, []);
    assert [] + Files(xs[..n]) == Files(xs[..n]);
    j := ArgsTake(s, k, xs[n..], rest, [], Files(xs[..n]));
    assert [] + Args(xs[n..]) == Args(xs);
    WrapAround(t, Exec(Args(xs)), Files(xs));
  }

  lemma {:induction false} SimpleTake(s: string, i: nat, xs: seq<Lexeme>, rest: seq<Lexeme>, t: Tree<Range>)
    returns (j: nat)
    requires Cuts(s, i, xs + rest) && Simple(xs, t) && Stops(rest, "|)&;")
    ensures i <= |s| && ParseExec(s, i) == Ok(t, j) && Cuts(s, j, rest) && SkipWs(s, j) == j
    decreases |xs|, 0
  {
    hide Gettoken, SkipWs, Cuts, IsToken, ParseRedirs, ParseArgs, Items, Args, Files, Wrap, Around, ParseBlock, ParseLine,
      ParseExec, Line;
    if Items(xs) && |Args(xs)| < MAXARGS && Around(t, Exec(Args(xs)), Files(xs)) {
      j := ItemsTake(s, i, xs, rest, t);
    } else {
      var n: nat, c :| Block(xs, n) && Line(xs[1..n], c) && Around(t, c, Files(xs[n + 1..]));
      j := BlockTake(s, i, xs, rest, n, c, t);
    }
  }

  lemma {:induction false} BlockTake(s: string, i: nat, xs: seq<Lexeme>, rest: seq<Lexeme>, n: nat, c: Tree<Range>,
      t: Tree<Range>) returns (j: nat)
    requires Cuts(s, i, xs + rest) && Stops(rest, "|)&;")
    requires Block(xs, n) && Line(xs[1..n], c) && Around(t, c, Files(xs[n + 1..]))
    ensures i <= |s| && ParseExec(s, i) == Ok(t, j) && Cuts(s, j, rest) && SkipWs(s, j) == j
    decreases |xs|, 0, 0
  {
    hide Gettoken, SkipWs, Cuts, IsToken, ParseRedirs, ParseArgs, Items, Args, Files, Wrap, Around, ParseLine, Line;
    var inner, tail, close := xs[1..n], xs[n + 1..], [xs[n]] + xs[n + 1..] + rest;
    CutsFrom(s, i, xs + rest);
    var k := SymStep(s, i, xs + rest, "(");
    assert (xs + rest)[1..] == inner + close;
    var l := LineTake(s, k, inner, close, c);
    var m := SymStep(s, l, close, ")");
    assert close[1..] == tail + rest;
    j := RedirsTake(s, m, tail, rest, []);
    assert [] + Files(tail) == Files(tail);
    WrapAround(t, c, Files(tail));
  }

  lemma {:induction false} PipesTake(s: string, i: nat, xs: seq<Lexeme>, rest: seq<Lexeme>, t: Tree<Range>)
    returns (j: nat)
    requires Cuts(s, i, xs + rest) && Pipes(xs, t) && Stops(rest, ")&;")
    ensures i <= |s| && ParsePipe(s, i) == Ok(t, j) && Cuts(s, j, rest) && SkipWs(s, j) == j
    decreases |xs|, 1
  {
    hide Gettoken, SkipWs, Cuts, IsToken, ParseExec, Simple;
    if Simple(xs, t) {
      j := SimpleTake(s, i, xs, rest, t);
      var _ := SymStep(s, j, rest, "|");
    } else {
      var n :| 0 <= n < |xs| && Is(xs[n], '|') && Simple(xs[..n], t.left) && Pipes(xs[n + 1..], t.right);
      var more := [xs[n]] + xs[n + 1..] + rest;
      assert xs + rest == xs[..n] + more && more[1..] == xs[n + 1..] + rest;
      var l := SimpleTake(s, i, xs[..n], more, t.left);
      var k := SymStep(s, l, more, "|");
      j := PipesTake(s, k, xs[n + 1..], rest, t.right);
    }
  }

  lemma {:induction false} BacksTake(s: string, i: nat, xs: seq<Lexeme>, rest: seq<Lexeme>, t: Tree<Range>)
    returns (j: nat)
    requires Cuts(s, i, xs + rest) && Backs(xs, t) && Stops(rest, ")&;")
    ensures i <= |s| && j <= |s| && ParsePipe(s, i).Ok? && Cuts(s, j, rest)
    ensures ParseBacks(s, ParsePipe(s, i).cmd, ParsePipe(s, i).i) == ParseBacks(s, t, j)
    decreases |xs|, 2
  {
    hide Gettoken, SkipWs, Cuts, IsToken, ParsePipe, Pipes;
    if Pipes(xs, t) {
      j := PipesTake(s, i, xs, rest, t);
      CutsFrom(s, j, rest);
    } else {
      var n := |xs| - 1;
      var more := [xs[n]] + rest;
      assert xs + rest == xs[..n] + more && more[1..] == rest;
      var k := BacksTake(s, i, xs[..n], more, t.cmd);
      j := SymStep(s, k, more, "&");
      CutsFrom(s, j, rest);
    }
  }

  lemma {:induction false} LineTake(s: string, i: nat, xs: seq<Lexeme>, rest: seq<Lexeme>, t: Tree<Range>)
    returns (j: nat)
    requires Cuts(s, i, xs + rest) && Line(xs, t) && Stops(rest, ")")
    ensures i <= |s| && j <= |s| && ParseLine(s, i) == Ok(t, j) && Cuts(s, j, rest)
    decreases |xs|, 3
  {
    hide Gettoken, SkipWs, Cuts, IsToken, ParsePipe, Backs;
    if Backs(xs, t) {
      var k := BacksTake(s, i, xs, rest, t);
      j := NoMoreBacks(s, k, rest, t);
      var _ := SymStep(s, j, rest, ";");
    } else {
      var n :| 0 <= n < |xs| && Is(xs[n], ';') && Backs(xs[..n], t.left) && Line(xs[n + 1..], t.right);
      var more := [xs[n]] + xs[n + 1..] + rest;
      assert xs + rest == xs[..n] + more && more[1..] == xs[n + 1..] + rest;
      var k := BacksTake(s, i, xs[..n], more, t.left);
      var l := NoMoreBacks(s, k, more, t.left);
      var m := SymStep(s, l, more, ";");
      j := LineTake(s, m, xs[n + 1..], rest, t.right);
    }
  }

  lemma NoMoreBacks(s: string, i: nat, rest: seq<Lexeme>, t: Tree<Range>) returns (j: nat)
    requires Cuts(s, i, rest) && Stops(rest, ");")
    ensures i <= |s| && j <= |s| && ParseBacks(s, t, i) == Ok(t, j) && Cuts(s, j, rest) && SkipWs(s, j) == j
  {
    hide Gettoken, SkipWs, Cuts, IsToken;
    CutsFrom(s, i, rest);
    j := SkipWs(s, i);
    var _ := SymStep(s, i, rest, "&");
  }

  // ------------------------------------------------- what the parser finds, the grammar derives

  lemma RedirBad(s: string, i: nat, xs: seq<Lexeme>, before: seq<Redirection>)
    requires Cuts(s, i, xs) && xs != [] && IsRedir(xs[0]) && (|xs| == 1 || !xs[1].Word?)
    ensures i <= |s| && ParseRedirs(s, before, i) == RedirPanic
  {
    hide Gettoken, SkipWs, Cuts, IsToken;
    CutsFrom(s, i, xs);
    RedirFirst(s, i, xs);
    var k := SkipWs(s, i);
    TokenIs(s, k, xs);
    var j := Gettoken(s, k).next;
    if |xs| == 1 {
      assert xs[1..] == [];
      TokenNone(s, j);
    } else {
      TokenIs(s, j, xs[1..]);
      OpIs(s, j, xs[1..]);
    }
  }

  lemma {:induction false} RedirsFind(s: string, i: nat, xs: seq<Lexeme>, before: seq<Redirection>) returns (n: nat)
    requires Cuts(s, i, xs)
    ensures i <= |s| && n <= |xs|
    ensures var r := ParseRedirs(s, before, i);
            r.Redirs? ==> && Items(xs[..n]) && Args(xs[..n]) == [] && r.rs == before + Files(xs[..n])
                          && Cuts(s, r.i, xs[n..]) && (n < |xs| ==> !IsRedir(xs[n]))
    decreases |xs|
  {
    hide Gettoken, SkipWs, Cuts, IsToken, Items, Args, Files, IsRedir;
    NoItems();
    CutsFrom(s, i, xs);
    RedirFirst(s, i, xs);
    n := 0;
    assert xs[..0] == [] && xs[0..] == xs && before + [] == before;
    if xs != [] && IsRedir(xs[0]) {
      hide ParseRedirs;
      if |xs| == 1 || !xs[1].Word? {
        RedirBad(s, i, xs, before);
      } else {
        RedirOp(xs[0]);
        var j := RedirStep(s, i, xs, before);
        var r := Redirection(Range(xs[1].q, xs[1].e), ModeFor(xs[0].c));
        var m := RedirsFind(s, j, xs[2..], before + [r]);
        n := m + 2;
        assert xs[..n][2..] == xs[2..][..m] && xs[n..] == xs[2..][m..];
        FileItem(xs[..n]);
        assert Items(xs[2..][..m]) ==> before + [r] + Files(xs[2..][..m]) == before + Files(xs[..n]);
      }
    }
  }

  lemma RedirOp(x: Lexeme)
    requires IsRedir(x)
    ensures x.Op?
  {
  }

  lemma {:induction false} ArgsFind(s: string, i: nat, xs: seq<Lexeme>, argv: seq<Range>, rs: seq<Redirection>)
    returns (n: nat)
    requires Cuts(s, i, xs) && |argv| < MAXARGS
    ensures i <= |s| && n <= |xs|
    ensures var r := ParseArgs(s, argv, rs, i);
            r.Ok? ==> && Items(xs[..n]) && |argv| + |Args(xs[..n])| < MAXARGS && Cuts(s, r.i, xs[n..])
                      && r.cmd == Wrap(Exec(argv + Args(xs[..n])), rs + Files(xs[..n]))
    decreases |xs|
  {
    hide Gettoken, SkipWs, Cuts, IsToken, Items, Args, Files, ParseRedirs, Wrap;
    NoItems();
    CutsFrom(s, i, xs);
    PeekStop(s, i, xs);
    n := 0;
    assert xs[..0] == [] && xs[0..] == xs && argv + [] == argv && rs + [] == rs;
    var j := SkipWs(s, i);
    if xs == [] {
      TokenNone(s, j);
      CutsEnd(s, i);
    } else if !Stops(xs, "|)&;") {
      TokenIs(s, j, xs);
      var t := Gettoken(s, j);
      if xs[0].Op? {
        OpIs(s, i, xs);
      } else if |argv| + 1 < MAXARGS {
        var m := RedirsFind(s, t.next, xs[1..], rs);
        var r := ParseRedirs(s, rs, t.next);
        if r.Redirs? {
          var ys := xs[1..][m..];
          var l := ArgsFind(s, r.i, ys, argv + [Range(t.q, t.eq)], r.rs);
          n := 1 + m + l;
          if ParseArgs(s, argv, rs, i).Ok? { ArgsJoin(xs, m, l, argv, rs); }
        }
      }
    }
  }

  lemma CutsEnd(s: string, i: nat)
    requires Cuts(s, i, [])
    ensures Cuts(s, |s|, [])
  {
  }

  /** A word, redirections, and more items. */
  lemma ArgsJoin(xs: seq<Lexeme>, m: nat, l: nat, argv: seq<Range>, rs: seq<Redirection>)
    requires 1 + m + l <= |xs| && xs[0].Word? && Items(xs[1..][..m]) && Args(xs[1..][..m]) == []
    requires Items(xs[1..][m..][..l])
    ensures xs[1..][m..][l..] == xs[1 + m + l..] && Items(xs[..1 + m + l])
    ensures argv + Args(xs[..1 + m + l]) == argv + [Range(xs[0].q, xs[0].e)] + Args(xs[1..][m..][..l])
    ensures rs + Files(xs[..1 + m + l]) == rs + Files(xs[1..][..m]) + Files(xs[1..][m..][..l])
  {
    hide Items, Args, Files;
    var a, b, all := xs[1..][..m], xs[1..][m..][..l], xs[..1 + m + l];
    assert all[1..] == a + b;
    ItemsJoin(a, b);
    WordItem(all);
  }

  lemma {:induction false} ExecFind(s: string, i: nat, xs: seq<Lexeme>) returns (n: nat)
    requires Cuts(s, i, xs)
    ensures i <= |s| && n <= |xs|
    ensures var r := ParseExec(s, i); r.Ok? ==> Simple(xs[..n], r.cmd) && Cuts(s, r.i, xs[n..])
    decreases |xs|, 0
  {
    hide Gettoken, SkipWs, Cuts, IsToken, Items, Args, Files, ParseRedirs, ParseArgs, ParseBlock, Wrap, Simple;
    CutsFrom(s, i, xs);
    var k := SkipWs(s, i);
    var _ := SymStep(s, i, xs, "(");
    if xs != [] && Is(xs[0], '(') {
      n := BlockFind(s, k, xs);
    } else {
      var m := RedirsFind(s, k, xs, []);
      n := m;
      var r := ParseRedirs(s, [], k);
      if r.Redirs? {
        var l := ArgsFind(s, r.i, xs[m..], [], r.rs);
        n := m + l;
        if ParseExec(s, i).Ok? { ItemsSimple(xs, m, l, ParseExec(s, i).cmd); }
      }
    }
  }

  lemma ItemsSimple(xs: seq<Lexeme>, m: nat, l: nat, t: Tree<Range>)
    requires m + l <= |xs| && Items(xs[..m]) && Args(xs[..m]) == [] && Items(xs[m..][..l])
    requires |Args(xs[m..][..l])| < MAXARGS
    requires t == Wrap(Exec([] + Args(xs[m..][..l])), [] + Files(xs[..m]) + Files(xs[m..][..l]))
    ensures Simple(xs[..m + l], t) && xs[m..][l..] == xs[m + l..]
  {
    hide Items, Args, Files, Wrap, Around, Line;
    var a, b := xs[..m], xs[m..][..l];
    assert xs[..m + l] == a + b;
    ItemsJoin(a, b);
    assert [] + Args(b) == Args(a + b) && [] + Files(a) + Files(b) == Files(a + b);
    WrapAround(t, Exec(Args(a + b)), Files(a + b));
  }

  lemma {:induction false} BlockFind(s: string, i: nat, xs: seq<Lexeme>) returns (n: nat)
    requires Cuts(s, i, xs) && xs != [] && Is(xs[0], '(') && SkipWs(s, i) == i
    ensures i < |s| && s[i] == '(' && n <= |xs|
    ensures var r := ParseBlock(s, i); r.Ok? ==> Simple(xs[..n], r.cmd) && Cuts(s, r.i, xs[n..])
    decreases |xs|, 0, 0
  {
    hide Gettoken, SkipWs, Cuts, IsToken, Items, Args, Files, ParseRedirs, ParseLine, Wrap, Simple, Line;
    var k := SymStep(s, i, xs, "(");
    n := 0;
    var l := ParseLine(s, k);
    var m := LineFind(s, k, xs[1..]);
    if l.Ok? {
      var ys := xs[1..][m..];
      var j := SymStep(s, l.i, ys, ")");
      if ys != [] && Is(ys[0], ')') {
        var d := RedirsFind(s, j, ys[1..], []);
        n := m + 2 + d;
        var r := ParseRedirs(s, [], j);
        if r.Redirs? { BlockSimple(xs, m, d, l.cmd, r.rs); }
      }
    }
  }

  lemma BlockSimple(xs: seq<Lexeme>, m: nat, d: nat, c: Tree<Range>, rs: seq<Redirection>)
    requires 1 + m < |xs| && Is(xs[0], '(') && Is(xs[1..][m..][0], ')') && d <= |xs[1..][m..][1..]|
    requires Line(xs[1..][..m], c) && Items(xs[1..][m..][1..][..d]) && Args(xs[1..][m..][1..][..d]) == []
    requires rs == [] + Files(xs[1..][m..][1..][..d])
    ensures Simple(xs[..m + 2 + d], Wrap(c, rs)) && xs[1..][m..][1..][d..] == xs[m + 2 + d..]
  {
    hide Items, Args, Files, Wrap, Around, Line;
    var all, n := xs[..m + 2 + d], m + 1;
    assert all[1..n] == xs[1..][..m] && all[n + 1..] == xs[1..][m..][1..][..d] && all[n] == xs[1..][m..][0];
    WrapAround(Wrap(c, rs), c, rs);
    assert [] + Files(all[n + 1..]) == Files(all[n + 1..]);
    assert Block(all, n) && Line(all[1..n], c) && Around(Wrap(c, rs), c, Files(all[n + 1..]));
  }

  lemma {:induction false} PipeFind(s: string, i: nat, xs: seq<Lexeme>) returns (n: nat)
    requires Cuts(s, i, xs)
    ensures i <= |s| && n <= |xs|
    ensures var r := ParsePipe(s, i); r.Ok? ==> Pipes(xs[..n], r.cmd) && Cuts(s, r.i, xs[n..])
    decreases |xs|, 1
  {
    hide Gettoken, SkipWs, Cuts, IsToken, ParseExec, Simple;
    n := ExecFind(s, i, xs);
    var l := ParseExec(s, i);
    if l.Ok? {
      var ys := xs[n..];
      CutsFrom(s, l.i, ys);
      var k := SymStep(s, l.i, ys, "|");
      if ys != [] && Is(ys[0], '|') {
        var m := PipeFind(s, k, ys[1..]);
        var r := ParsePipe(s, k);
        if r.Ok? {
          var all := xs[..n + 1 + m];
          assert all[..n] == xs[..n] && all[n + 1..] == ys[1..][..m] && all[n] == ys[0];
          assert ys[1..][m..] == xs[n + 1 + m..];
          n := n + 1 + m;
        }
      }
    }
  }

  lemma BackMore(pre: seq<Lexeme>, x: Lexeme, cmd: Tree<Range>)
    requires Backs(pre, cmd) && Is(x, '&')
    ensures Backs(pre + [x], Back(cmd))
  {
    hide Pipes;
    assert (pre + [x])[..|pre|] == pre;
  }

  lemma {:induction false} BacksFind(s: string, i: nat, pre: seq<Lexeme>, xs: seq<Lexeme>, cmd: Tree<Range>)
    returns (n: nat)
    requires Cuts(s, i, xs) && Backs(pre, cmd)
    ensures i <= |s| && n <= |xs|
    ensures var r := ParseBacks(s, cmd, i); Backs(pre + xs[..n], r.cmd) && Cuts(s, r.i, xs[n..]) && SkipWs(s, r.i) == r.i
    decreases |xs|
  {
    hide Gettoken, SkipWs, Cuts, IsToken, Backs;
    CutsFrom(s, i, xs);
    var k := SymStep(s, i, xs, "&");
    n := 0;
    if xs != [] && Is(xs[0], '&') {
      var pre' := pre + [xs[0]];
      BackMore(pre, xs[0], cmd);
      var m := BacksFind(s, k, pre', xs[1..], Back(cmd));
      n := m + 1;
      assert pre' + xs[1..][..m] == pre + xs[..n] && xs[1..][m..] == xs[n..];
    } else {
      assert pre + xs[..0] == pre && xs[0..] == xs;
    }
  }

  lemma {:induction false} LineFind(s: string, i: nat, xs: seq<Lexeme>) returns (n: nat)
    requires Cuts(s, i, xs)
    ensures i <= |s| && n <= |xs|
    ensures var r := ParseLine(s, i); r.Ok? ==> Line(xs[..n], r.cmd) && Cuts(s, r.i, xs[n..])
    decreases |xs|, 3
  {
    hide Gettoken, SkipWs, Cuts, IsToken, ParsePipe, Pipes, ParseBacks;
    n := PipeFind(s, i, xs);
    var p := ParsePipe(s, i);
    if p.Ok? {
      var b := BacksFind(s, p.i, xs[..n], xs[n..], p.cmd);
      assert xs[..n] + xs[n..][..b] == xs[..n + b] && xs[n..][b..] == xs[n + b..];
      n := n + b;
      var l := ParseBacks(s, p.cmd, p.i);
      var ys := xs[n..];
      var k := SymStep(s, l.i, ys, ";");
      if ys != [] && Is(ys[0], ';') {
        var m := LineFind(s, k, ys[1..]);
        var r := ParseLine(s, k);
        if r.Ok? {
          var all := xs[..n + 1 + m];
          assert all[..n] == xs[..n] && all[n + 1..] == ys[1..][..m] && all[n] == ys[0];
          assert ys[1..][m..] == xs[n + 1 + m..];
          n := n + 1 + m;
        }
      }
    }
  }

  // --------------------------------------------------------------------------- the parser

  /** The grammar derives tree t from the whole text. */
  ghost predicate Derives(s: string, t: Tree<Range>) {
    exists xs :: Cuts(s, 0, xs) && Line(xs, t)
  }

  /** The parser accepts exactly the texts from which the grammar derives a tree, and gives that
      tree; so there is never more than one. */
  lemma ParsesExactly(s: string, t: Tree<Range>)
    ensures ParseCmd(s).Ok? && ParseCmd(s).cmd == t <==> Derives(s, t)
  {
    hide ParseLine, Line, SkipWs;
    if xs :| Cuts(s, 0, xs) && Line(xs, t) {
      assert xs + [] == xs;
      var j := LineTake(s, 0, xs, [], t);
      CutsFrom(s, j, []);
    }
    if ParseCmd(s).Ok? {
      var xs := CutAll(s, 0);
      var n := LineFind(s, 0, xs);
      var r := ParseLine(s, 0);
      AllTaken(s, r.i, xs[n..]);
      assert xs[..n] == xs;
    }
  }

  lemma AllTaken(s: string, i: nat, xs: seq<Lexeme>)
    requires Cuts(s, i, xs) && i <= |s| && SkipWs(s, i) == |s|
    ensures xs == []
  {
    CutsFrom(s, i, xs);
  }
}
