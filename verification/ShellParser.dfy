/**
 The shell's parser as it runs (user/sh.c): a cursor that every routine advances, and a
 buffer into which nulterminate writes. `ok` is false where the shell panics.
 */
module ShellParser {
  import opened Shell
  import opened ShellGrammar
  import opened ShellRoundTrip

  class Parser {
    const s: string
    var ps: nat

    constructor (s: string)
      ensures this.s == s && ps == 0
    {
      this.s := s;
      ps := 0;
    }

    /** Skip white space. */
    method Skip()
      requires ps <= |s|
      modifies this
      ensures ps == SkipWs(s, old(ps))
    {
      while ps < |s| && Ws(s[ps])
        invariant ps <= |s| && SkipWs(s, ps) == SkipWs(s, old(ps))
      {
        ps := ps + 1;
      }
    }

    /** gettoken */
    method Token() returns (ret: char, q: nat, eq: nat)
      requires ps <= |s|
      modifies this
      ensures Gettoken(s, old(ps)) == Shell.Token(ret, q, eq, ps)
    {
      Skip();
      q := ps;
      if ps == |s| {
        ret := '\0';
      } else if Sym(s[ps]) {
        ret := s[ps];
        ps := ps + 1;
        if ret == '>' && ps < |s| && s[ps] == '>' {
          ret := '+';
          ps := ps + 1;
        }
      } else {
        ret := 'a';
        while ps < |s| && !Ws(s[ps]) && !Sym(s[ps])
          invariant q <= ps <= |s| && WordEnd(s, ps) == WordEnd(s, q)
        {
          ps := ps + 1;
        }
      }
      eq := ps;
      Skip();
    }

    /** peek */
    method Sees(toks: string) returns (b: bool)
      requires ps <= |s|
      modifies this
      ensures ps == SkipWs(s, old(ps)) && b == Peek(s, ps, toks)
    {
      Skip();
      b := ps < |s| && s[ps] in toks;
    }

    /** The routine leaves what the function says, or panics when it does. */
    ghost predicate Did(r: Result, ok: bool, cmd: Tree<Range>)
      reads this
    {
      if ok then r == Ok(cmd, ps) && ps <= |s| else r == Panic
    }

    method Redirs() returns (ok: bool, rs: seq<Redirection>)
      requires ps <= |s|
      modifies this
      ensures if ok then ParseRedirs(s, [], old(ps)) == Shell.Redirs(rs, ps) && ps <= |s|
          else ParseRedirs(s, [], old(ps)) == RedirPanic
    {
      ok, rs := MoreRedirs([]);
    }

    /** parseredirs, after some redirections have been found. */
    method MoreRedirs(before: seq<Redirection>) returns (ok: bool, rs: seq<Redirection>)
      requires ps <= |s|
      modifies this
      ensures if ok then ParseRedirs(s, before, old(ps)) == Shell.Redirs(rs, ps) && ps <= |s|
          else ParseRedirs(s, before, old(ps)) == RedirPanic
    {
      rs := before;
      var more := Sees("<>");
      while more
        invariant ps <= |s| && SkipWs(s, ps) == ps && more == Peek(s, ps, "<>")
        invariant ParseRedirs(s, rs, ps) == ParseRedirs(s, before, old(ps))
        decreases |s| - ps, more
      {
        ghost var i := ps;
        var tok, _, _ := Token();
        var a, q, eq := Token();
        if a != 'a' {
          return false, [];
        }
        rs := rs + [Redirection(Range(q, eq), ModeOf(tok))];
        more := Sees("<>");
      }
      ok := true;
    }

    /** parseexec of a simple command. */
    method Args() returns (ok: bool, cmd: Tree<Range>)
      requires ps <= |s|
      modifies this
      ensures Did(match ParseRedirs(s, [], old(ps)) case Redirs(rs, i) => ParseArgs(s, [], rs,
          i) case RedirPanic => Panic, ok, cmd)
    {
      cmd := Exec([]);
      var argv: seq<Range> := [];
      var rs;
      ok, rs := Redirs();
      if !ok {
        return;
      }
      ghost var r := ParseArgs(s, [], rs, ps);
      var done := Sees("|)&;");
      while !done
        invariant ps <= |s| && SkipWs(s, ps) == ps && done == Peek(s, ps, "|)&;") && ParseArgs(s, argv, rs, ps) == r
        decreases |s| - ps, !done
      {
        var tok, q, eq := Token();
        if tok == '\0' {
          break;
        }
        if tok != 'a' {
          return false, cmd;
        }
        argv := argv + [Range(q, eq)];
        if |argv| >= MAXARGS {
          return false, cmd;
        }
        ok, rs := MoreRedirs(rs);
        if !ok {
          return;
        }
        done := Sees("|)&;");
      }
      ok, cmd := true, Wrap(Exec(argv), rs);
    }

    /** parseexec */
    method Simple() returns (ok: bool, cmd: Tree<Range>)
      requires ps <= |s|
      modifies this
      ensures Did(ParseExec(s, old(ps)), ok, cmd)
      decreases |s| - ps, 1
    {
      var open := Sees("(");
      if open {
        ok, cmd := Block();
      } else {
        ok, cmd := Args();
      }
    }

    /** parseblock */
    method Block() returns (ok: bool, cmd: Tree<Range>)
      requires ps < |s| && s[ps] == '('
      modifies this
      ensures Did(ParseBlock(s, old(ps)), ok, cmd)
      decreases |s| - ps, 0
    {
      hide ParseLine, ParseRedirs;
      var _, _, _ := Token();
      ok, cmd := Line();
      if !ok {
        return;
      }
      var close := Sees(")");
      if !close {
        return false, cmd;
      }
      var _, _, _ := Token();
      var rs;
      ok, rs := Redirs();
      cmd := Wrap(cmd, rs);
    }

    /** parsepipe */
    method Pipeline() returns (ok: bool, cmd: Tree<Range>)
      requires ps <= |s|
      modifies this
      ensures Did(ParsePipe(s, old(ps)), ok, cmd)
      decreases |s| - ps, 2
    {
      hide ParseExec;
      ok, cmd := Simple();
      if !ok {
        return;
      }
      var more := Sees("|");
      if more {
        var _, _, _ := Token();
        var right;
        ok, right := Pipeline();
        cmd := Pipe(cmd, right);
      }
    }

    /** parseline */
    method Line() returns (ok: bool, cmd: Tree<Range>)
      requires ps <= |s|
      modifies this
      ensures Did(ParseLine(s, old(ps)), ok, cmd)
      decreases |s| - ps, 3
    {
      hide ParsePipe;
      ok, cmd := Pipeline();
      if !ok {
        return;
      }
      cmd := Backs(cmd);
      var more := Sees(";");
      if more {
        var _, _, _ := Token();
        var right;
        ok, right := Line();
        cmd := List(cmd, right);
      }
    }

    /** The loop of parseline over &. */
    method Backs(c: Tree<Range>) returns (cmd: Tree<Range>)
      requires ps <= |s|
      modifies this
      ensures ParseBacks(s, c, old(ps)) == Ok(cmd, ps) && ps <= |s|
    {
      cmd := c;
      var more := Sees("&");
      while more
        invariant ps <= |s| && SkipWs(s, ps) == ps && more == Peek(s, ps, "&")
        invariant ParseBacks(s, cmd, ps) == ParseBacks(s, c, old(ps))
        decreases |s| - ps, more
      {
        var _, _, _ := Token();
        cmd := Back(cmd);
        more := Sees("&");
      }
    }
  }

  // ---------------------------------------------------------------------- nulterminate

  /** Where nulterminate writes. */
  ghost function Ends(t: Tree<Range>): set<nat> {
    match t
    case Exec(argv) => set k | 0 <= k < |argv| :: argv[k].eq
    case Redir(cmd, file, _) => Ends(cmd) + {file.eq}
    case Pipe(l, r) => Ends(l) + Ends(r)
    case List(l, r) => Ends(l) + Ends(r)
    case Back(cmd) => Ends(cmd)
  }

  ghost predicate Mentions(t: Tree<Range>, w: Range) {
    match t
    case Exec(argv) => w in argv
    case Redir(cmd, file, _) => Mentions(cmd, w) || w == file
    case Pipe(l, r) => Mentions(l, w) || Mentions(r, w)
    case List(l, r) => Mentions(l, w) || Mentions(r, w)
    case Back(cmd) => Mentions(cmd, w)
  }

  /** nulterminate: a NUL at the end of every recorded string. */
  method Nulterminate(buf: array<char>, t: Tree<Range>)
    requires forall e :: e in Ends(t) ==> e < buf.Length
    modifies buf
    ensures forall k :: 0 <= k < buf.Length ==> buf[k] == if k in Ends(t) then '\0' else old(buf[k])
    decreases t
  {
    match t {
      case Exec(argv) =>
        for i := 0 to |argv|
          invariant forall k :: 0 <= k < buf.Length ==> buf[k] == if exists j :: 0 <= j < i && argv[j].eq == k then '\0' else old(buf[k])
        {
          assert argv[i].eq in Ends(t);
          buf[argv[i].eq] := '\0';
        }
      case Redir(cmd, file, _) =>
        assert Ends(t) == Ends(cmd) + {file.eq};
        Nulterminate(buf, cmd);
        buf[file.eq] := '\0';
      case Pipe(l, r) =>
        assert Ends(t) == Ends(l) + Ends(r);
        Nulterminate(buf, l);
        Nulterminate(buf, r);
      case List(l, r) =>
        assert Ends(t) == Ends(l) + Ends(r);
        Nulterminate(buf, l);
        Nulterminate(buf, r);
      case Back(cmd) =>
        assert Ends(t) == Ends(cmd);
        Nulterminate(buf, cmd);
    }
  }

  /** The C string that starts at i. */
  function CString(b: seq<char>, i: nat): string
    decreases |b| - i
  {
    if i >= |b| || b[i] == '\0' then "" else [b[i]] + CString(b, i + 1)
  }

  lemma {:induction false} CStringIs(b: seq<char>, i: nat, e: nat)
    requires i <= e < |b| && b[e] == '\0' && forall k :: i <= k < e ==> b[k] != '\0'
    ensures CString(b, i) == b[i..e]
    decreases e - i
  {
    if i < e {
      CStringIs(b, i + 1, e);
      assert b[i..e] == [b[i]] + b[i + 1..e];
    }
  }

  /** Writes of nulterminate fall on characters that are not part of any word. */
  lemma {:induction false} EndsOutside(s: string, t: Tree<Range>, e: nat)
    requires AllWords(s, t) && e in Ends(t)
    ensures e <= |s| && (e < |s| ==> Ws(s[e]) || Sym(s[e]))
  {
    match t {
      case Exec(argv) =>
      case Redir(cmd, file, _) => if e in Ends(cmd) { EndsOutside(s, cmd, e); }
      case Pipe(l, r) => if e in Ends(l) { EndsOutside(s, l, e); } else { EndsOutside(s, r, e); }
      case List(l, r) => if e in Ends(l) { EndsOutside(s, l, e); } else { EndsOutside(s, r, e); }
      case Back(cmd) => EndsOutside(s, cmd, e);
    }
  }

  lemma {:induction false} MentionedIs(s: string, t: Tree<Range>, w: Range)
    requires AllWords(s, t) && Mentions(t, w)
    ensures WordRange(s, w) && w.eq in Ends(t)
  {
    match t {
      case Exec(argv) =>
        var k :| 0 <= k < |argv| && argv[k] == w;
      case Redir(cmd, file, _) => if Mentions(cmd, w) { MentionedIs(s, cmd, w); }
      case Pipe(l, r) => if Mentions(l, w) { MentionedIs(s, l, w); } else { MentionedIs(s, r, w); }
      case List(l, r) => if Mentions(l, w) { MentionedIs(s, l, w); } else { MentionedIs(s, r, w); }
      case Back(cmd) => MentionedIs(s, cmd, w);
    }
  }

  /** After nulterminate each recorded pointer is a C string equal to its word. */
  lemma StringsAreWords(s: string, t: Tree<Range>, b: seq<char>, w: Range)
    requires AllWords(s, t) && Mentions(t, w) && '\0' !in s && |b| == |s| + 1
    requires forall k :: 0 <= k < |b| ==> b[k] == if k in Ends(t) || k == |s| then '\0' else s[k]
    ensures CString(b, w.q) == Slice(s, w)
  {
    MentionedIs(s, t, w);
    forall k | w.q <= k < w.eq ensures b[k] == s[k] != '\0' {
      if k in Ends(t) { EndsOutside(s, t, k); }
    }
    CStringIs(b, w.q, w.eq);
    assert b[w.q..w.eq] == s[w.q..w.eq];
  }

  /** parsecmd on a NUL-terminated buffer. */
  method Parsecmd(buf: array<char>, s: string) returns (ok: bool, cmd: Tree<Range>)
    requires '\0' !in s && buf.Length == |s| + 1 && buf[..] == s + ['\0']
    modifies buf
    ensures ok <==> exists t :: Derives(s, t)
    ensures !ok ==> buf[..] == old(buf[..])
    ensures ok ==> Derives(s, cmd) && forall w :: Mentions(cmd, w) ==> CString(buf[..], w.q) == Slice(s, w)
  {
    hide ParseLine, CString, Derives;
    forall t ensures Derives(s, t) <==> ParseCmd(s).Ok? && ParseCmd(s).cmd == t { ParsesExactly(s, t); }
    assert ParseCmd(s).Ok? ==> Derives(s, ParseCmd(s).cmd);
    var p := new Parser(s);
    ok, cmd := p.Line();
    if !ok {
      return;
    }
    p.Skip();
    if p.ps != |s| {
      return false, cmd;
    }
    LineIsWords(s, 0);
    forall e | e in Ends(cmd) ensures e < buf.Length { EndsOutside(s, cmd, e); }
    Nulterminate(buf, cmd);
    forall w | Mentions(cmd, w) ensures CString(buf[..], w.q) == Slice(s, w) {
      StringsAreWords(s, cmd, buf[..], w);
    }
  }
}
