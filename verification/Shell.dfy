/**
 The parser of user/sh.c. The functions give the meaning of each routine on a text and a
 cursor; ShellParser runs them with a shared cursor and a buffer.
 */
module Shell {
  const MAXARGS: nat := 10

  predicate Ws(c: char) {
    c == ' ' || c == '\t' || c == '\r' || c == '\n' || c == '\U{000B}'
  }

  predicate Sym(c: char) {
    c == '<' || c == '|' || c == '>' || c == '&' || c == ';' || c == '(' || c == ')'
  }

  predicate WordChar(c: char) {
    !Ws(c) && !Sym(c) && c != '\0'
  }

  /** Where a word lies in the text: argv[i] and eargv[i], file and efile. */
  datatype Range = Range(q: nat, eq: nat)

  /** <, > and >>: which descriptor, and how the file is opened. */
  datatype Mode = Read | Write | Append

  datatype Tree<W> =
    | Exec(argv: seq<W>)
    | Redir(cmd: Tree<W>, file: W, mode: Mode)
    | Pipe(left: Tree<W>, right: Tree<W>)
    | List(left: Tree<W>, right: Tree<W>)
    | Back(cmd: Tree<W>)

  datatype Result = Ok(cmd: Tree<Range>, i: nat) | Panic

  // ---------------------------------------------------------------------------- tokens

  function SkipWs(s: string, i: nat): (r: nat)
    requires i <= |s|
    ensures i <= r <= |s| && (r < |s| ==> !Ws(s[r])) && (forall k :: i <= k < r ==> Ws(s[k]))
    decreases |s| - i
  {
    if i < |s| && Ws(s[i]) then SkipWs(s, i + 1) else i
  }

  function WordEnd(s: string, i: nat): (r: nat)
    requires i <= |s|
    ensures i <= r <= |s| && (r < |s| ==> Ws(s[r]) || Sym(s[r])) && (forall k :: i <= k < r ==> !Ws(s[k]) && !Sym(s[k]))
    decreases |s| - i
  {
    if i < |s| && !Ws(s[i]) && !Sym(s[i]) then WordEnd(s, i + 1) else i
  }

  /** ret: 'a' for a word, '+' for >>, NUL at the end, else the symbol itself. */
  datatype Token = Token(ret: char, q: nat, eq: nat, next: nat)

  function Gettoken(s: string, i: nat): (t: Token)
    requires i <= |s|
    ensures i <= t.q <= t.eq <= t.next <= |s| && (t.ret == '\0' <==> t.q == |s|) && (t.ret != '\0' ==> t.q < t.eq)
    ensures t.ret == 'a' ==> (forall k :: t.q <= k < t.eq ==> !Ws(s[k]) && !Sym(s[k]))
    ensures t.ret == 'a' ==> (t.eq < |s| ==> Ws(s[t.eq]) || Sym(s[t.eq]))
  {
    var q := SkipWs(s, i);
    if q == |s| then Token('\0', q, q, q)
    else if Sym(s[q]) then
      if s[q] == '>' && q + 1 < |s| && s[q + 1] == '>' then Token('+', q, q + 2, SkipWs(s, q + 2))
      else Token(s[q], q, q + 1, SkipWs(s, q + 1))
    else Token('a', q, WordEnd(s, q), SkipWs(s, WordEnd(s, q)))
  }

  /** peek: the cursor has been moved over white space to i. */
  predicate Peek(s: string, i: nat, toks: string) {
    i < |s| && s[i] in toks
  }

  // ---------------------------------------------------------------------------- parsing

  datatype Redirection = Redirection(file: Range, mode: Mode)

  datatype Redirs = Redirs(rs: seq<Redirection>, i: nat) | RedirPanic

  function ModeOf(tok: char): Mode {
    if tok == '<' then Read else if tok == '+' then Append else Write
  }

  /** parseredirs, as the list of redirections it finds. */
  function ParseRedirs(s: string, rs: seq<Redirection>, i: nat): (r: Redirs)
    requires i <= |s|
    ensures r.Redirs? ==> i <= r.i <= |s|
    decreases |s| - i
  {
    var j := SkipWs(s, i);
    if Peek(s, j, "<>") then
      var t1 := Gettoken(s, j);
      var t2 := Gettoken(s, t1.next);
      if t2.ret != 'a' then RedirPanic
      else ParseRedirs(s, rs + [Redirection(Range(t2.q, t2.eq), ModeOf(t1.ret))], t2.next)
    else Redirs(rs, j)
  }

  /** The redirections around a command, the first one innermost. */
  function Wrap(cmd: Tree<Range>, rs: seq<Redirection>): Tree<Range>
    decreases |rs|
  {
    if rs == [] then cmd else Redir(Wrap(cmd, rs[..|rs| - 1]), rs[|rs| - 1].file, rs[|rs| - 1].mode)
  }

  /** The loop of parseexec. */
  function ParseArgs(s: string, argv: seq<Range>, rs: seq<Redirection>, i: nat): (r: Result)
    requires i <= |s|
    ensures r.Ok? ==> i <= r.i <= |s|
    decreases |s| - i
  {
    var j := SkipWs(s, i);
    if Peek(s, j, "|)&;") then Ok(Wrap(Exec(argv), rs), j)
    else
      var t := Gettoken(s, j);
      if t.ret == '\0' then Ok(Wrap(Exec(argv), rs), t.next)
      else if t.ret != 'a' || |argv| + 1 >= MAXARGS then Panic
      else
        var r := ParseRedirs(s, rs, t.next);
        if r.RedirPanic? then Panic else ParseArgs(s, argv + [Range(t.q, t.eq)], r.rs, r.i)
  }

  function ParseExec(s: string, i: nat): (r: Result)
    requires i <= |s|
    ensures r.Ok? ==> i <= r.i <= |s|
    decreases |s| - i, 1
  {
    var j := SkipWs(s, i);
    if Peek(s, j, "(") then ParseBlock(s, j)
    else
      var r := ParseRedirs(s, [], j);
      if r.RedirPanic? then Panic else ParseArgs(s, [], r.rs, r.i)
  }

  function ParseBlock(s: string, i: nat): (r: Result)
    requires i < |s| && s[i] == '('
    ensures r.Ok? ==> i <= r.i <= |s|
    decreases |s| - i, 0
  {
    var t := Gettoken(s, i);
    var l := ParseLine(s, t.next);
    if l.Panic? then Panic
    else
      var j := SkipWs(s, l.i);
      if !Peek(s, j, ")") then Panic
      else
        var r := ParseRedirs(s, [], Gettoken(s, j).next);
        if r.RedirPanic? then Panic else Ok(Wrap(l.cmd, r.rs), r.i)
  }

  function ParsePipe(s: string, i: nat): (r: Result)
    requires i <= |s|
    ensures r.Ok? ==> i <= r.i <= |s|
    decreases |s| - i, 2
  {
    var l := ParseExec(s, i);
    if l.Panic? then Panic
    else
      var j := SkipWs(s, l.i);
      if !Peek(s, j, "|") then Ok(l.cmd, j)
      else
        var r := ParsePipe(s, Gettoken(s, j).next);
        if r.Panic? then Panic else Ok(Pipe(l.cmd, r.cmd), r.i)
  }

  /** The loop of parseline over &. */
  function ParseBacks(s: string, cmd: Tree<Range>, i: nat): (r: Result)
    requires i <= |s|
    ensures r.Ok? && i <= r.i <= |s|
    decreases |s| - i
  {
    var j := SkipWs(s, i);
    if Peek(s, j, "&") then ParseBacks(s, Back(cmd), Gettoken(s, j).next) else Ok(cmd, j)
  }

  function ParseLine(s: string, i: nat): (r: Result)
    requires i <= |s|
    ensures r.Ok? ==> i <= r.i <= |s|
    decreases |s| - i, 3
  {
    var p := ParsePipe(s, i);
    if p.Panic? then Panic
    else
      var b := ParseBacks(s, p.cmd, p.i);
      var j := SkipWs(s, b.i);
      if !Peek(s, j, ";") then Ok(b.cmd, j)
      else
        var r := ParseLine(s, Gettoken(s, j).next);
        if r.Panic? then Panic else Ok(List(b.cmd, r.cmd), r.i)
  }

  /** parsecmd before nulterminate: the whole text, or a syntax panic. */
  function ParseCmd(s: string): (r: Result) {
    var r := ParseLine(s, 0);
    if r.Ok? && SkipWs(s, r.i) == |s| then r else Panic
  }
}
