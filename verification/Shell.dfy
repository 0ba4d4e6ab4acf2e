/** The shell's parser (user/sh.c): recursive descent with a cursor, words as slices of the line, and the
    pass that ends every word with a NUL in place. */
module Shell {
  import opened ShellTokens
  import G = ShellGrammar
  import ShellGist

  /** `argv` and `eargv`, or `file` and `efile`: where a word begins and ends in the line. */
  datatype Slice = Slice(q: nat, eq: nat)

  datatype Cmd =
    | Exec(args: seq<Slice>)
    | Redir(cmd: Cmd, file: Slice, mode: int, fd: int)
    | Pipe(left: Cmd, right: Cmd)
    | List(left: Cmd, right: Cmd)
    | Back(cmd: Cmd)

  datatype RedirNode = RedirNode(file: Slice, mode: int, fd: int)

  datatype Parsed = Done(cmd: Cmd, next: nat) | Failed(error: G.Error)

  // ----- Slices

  function Str(line: string, s: Slice): string {
    if s.q <= s.eq <= |line| then line[s.q..s.eq] else ""
  }

  function Strs(line: string, ss: seq<Slice>): seq<string> {
    if ss == [] then [] else Strs(line, ss[..|ss| - 1]) + [Str(line, ss[|ss| - 1])]
  }

  /** The command that the slices spell. */
  function Text(line: string, c: Cmd): G.Tree {
    match c
    case Exec(args) => G.Exec(Strs(line, args))
    case Redir(d, file, mode, fd) => G.Redir(Text(line, d), Str(line, file), mode, fd)
    case Pipe(l, r) => G.Pipe(Text(line, l), Text(line, r))
    case List(l, r) => G.List(Text(line, l), Text(line, r))
    case Back(d) => G.Back(Text(line, d))
  }

  /** A maximal run of word characters. */
  ghost predicate IsRun(line: string, s: Slice) {
    && s.q < s.eq <= |line| && Boundary(line, s.q) && (s.eq < |line| ==> !IsWordChar(line[s.eq]))
    && forall i | s.q <= i < s.eq :: IsWordChar(line[i])
  }

  function Slices(c: Cmd): set<Slice> {
    match c
    case Exec(args) => set s | s in args
    case Redir(d, file, _, _) => Slices(d) + {file}
    case Pipe(l, r) => Slices(l) + Slices(r)
    case List(l, r) => Slices(l) + Slices(r)
    case Back(d) => Slices(d)
  }

  ghost predicate Cut(line: string, c: Cmd) {
    forall s | s in Slices(c) :: IsRun(line, s)
  }

  lemma InsideRun(line: string, s: Slice, i: nat)
    requires IsRun(line, s)
    ensures s.q < i < s.eq ==> !Boundary(line, i)
    ensures s.q <= i < s.eq ==> i < |line| && IsWordChar(line[i])
  {}

  /** Two words of a command are the same or apart. */
  lemma RunsApart(line: string, s: Slice, t: Slice)
    requires IsRun(line, s) && IsRun(line, t)
    ensures s == t || s.eq <= t.q || t.eq <= s.q
  {
    InsideRun(line, s, t.q);
    InsideRun(line, t, s.q);
    InsideRun(line, s, t.eq);
    InsideRun(line, t, s.eq);
  }

  // ----- The code

  /** The parser agrees with the grammar: the same command up to the same place, or the same error. */
  ghost predicate Matches(line: string, pos: nat, p: Parsed, r: G.Result<G.Tree>) {
    match p
    case Done(cmd, next) =>
      && r.Ok? && pos <= next <= |line| && Boundary(line, next) && Cut(line, cmd)
      && Text(line, cmd) == r.value && Toks(line, next) == r.rest
    case Failed(e) => r == G.Fail(e)
  }

  function WrapNodes(c: Cmd, rds: seq<RedirNode>): Cmd
    decreases |rds|
  {
    if rds == [] then c else WrapNodes(Redir(c, rds[0].file, rds[0].mode, rds[0].fd), rds[1..])
  }

  ghost predicate SameRedirs(line: string, nodes: seq<RedirNode>, rds: seq<G.Rd>) {
    && |nodes| == |rds|
    && forall i | 0 <= i < |nodes| ::
         IsRun(line, nodes[i].file) && Str(line, nodes[i].file) == rds[i].file &&
         nodes[i].mode == G.Mode(rds[i].kind) && nodes[i].fd == G.Fd(rds[i].kind)
  }

  lemma {:induction false} WrapText(line: string, c: Cmd, nodes: seq<RedirNode>, rds: seq<G.Rd>)
    requires SameRedirs(line, nodes, rds) && Cut(line, c)
    ensures Text(line, WrapNodes(c, nodes)) == G.Wrap(Text(line, c), rds) && Cut(line, WrapNodes(c, nodes))
    decreases |nodes|
  {
    if nodes != [] {
      assert IsRun(line, nodes[0].file);
      WrapText(line, Redir(c, nodes[0].file, nodes[0].mode, nodes[0].fd), nodes[1..], rds[1..]);
    }
  }

  lemma WordRun(line: string, q: nat)
    requires q < |line| && !IsSpace(line[q]) && TokAt(line, q).Word? && Boundary(line, q)
    ensures IsRun(line, Slice(q, TokEnd(line, q))) && Str(line, Slice(q, TokEnd(line, q))) == TokAt(line, q).text
  {}

  /** What the loop of parseredirs has still to do. */
  ghost predicate RedirsLeft(ts: seq<Tok>, done: seq<G.Rd>, now: seq<Tok>) {
    match G.Redirs(now)
    case Ok(more, rest) => G.Redirs(ts) == G.Ok(done + more, rest)
    case Fail(e) => G.Redirs(ts) == G.Fail(e)
  }

  lemma RedirsStep(ts: seq<Tok>, done: seq<G.Rd>, now: seq<Tok>)
    requires RedirsLeft(ts, done, now) && G.AtRedir(now) && |now| >= 2 && now[1].Word?
    ensures RedirsLeft(ts, done + [G.Rd(now[0].c, now[1].text)], now[2..])
  {
    var rd := G.Rd(now[0].c, now[1].text);
    match G.Redirs(now[2..])
    case Ok(more, rest) => assert done + ([rd] + more) == done + [rd] + more;
    case Fail(e) =>
  }

  /** parseredirs: the redirections that it puts around the command, innermost first */
  method ParseRedirs(line: string, pos: nat)
      returns (nodes: seq<RedirNode>, next: nat, failed: bool, ghost rds: seq<G.Rd>)
    requires IsLine(line) && pos <= |line| && Boundary(line, pos)
    ensures failed ==> G.Redirs(Toks(line, pos)) == G.Fail(G.MissingFile)
    ensures !failed ==> pos <= next <= |line| && Boundary(line, next) &&
                        G.Redirs(Toks(line, pos)) == G.Ok(rds, Toks(line, next)) && SameRedirs(line, nodes, rds)
    ensures !failed ==> ShellGist.TokGist(Toks(line, pos))
                        == ShellGist.Plus(NodesGist(line, nodes), ShellGist.TokGist(Toks(line, next)))
  {
    hide Toks;
    hide RedirsLeft;
    hide TokAt;
    hide IsRun;
    hide Str;
    hide Boundary;
    nodes, rds, failed := [], [], false;
    RedirsStart(Toks(line, pos));
    next := pos;
    var found;
    found, next := Peek(line, next, "<>");
    while found
      invariant pos <= next <= |line| && Boundary(line, next) && found == G.AtRedir(Toks(line, next))
      invariant RedirsLeft(Toks(line, pos), rds, Toks(line, next)) && SameRedirs(line, nodes, rds)
      decreases |line| - next
    {
      ghost var now := Toks(line, next);
      var tok, a, b, second, q, eq;
      tok, a, b, next := GetToken(line, next);
      ghost var mid := Toks(line, next);
      second, q, eq, next := GetToken(line, next);
      if second != 'a' {
        RedirsMissing(Toks(line, pos), rds, now);
        failed := true;
        return;
      }
      WordRun(line, q);
      assert now == [TokAt(line, a)] + mid && mid == [TokAt(line, q)] + Toks(line, next);
      assert now[2..] == Toks(line, next);
      RedirsStep(Toks(line, pos), rds, now);
      var file := Slice(q, eq);
      if tok == '<' {
        nodes := nodes + [RedirNode(file, G.O_RDONLY, 0)];
      } else if tok == '>' {
        nodes := nodes + [RedirNode(file, G.O_WRONLY + G.O_CREATE + G.O_TRUNC, 1)];
      } else {
        nodes := nodes + [RedirNode(file, G.O_WRONLY + G.O_CREATE, 1)];
      }
      rds := rds + [G.Rd(now[0].c, now[1].text)];
      found, next := Peek(line, next, "<>");
    }
    RedirsDone(Toks(line, pos), rds, Toks(line, next));
    ShellGist.RedirsGist(Toks(line, pos));
    NodesAre(line, nodes, rds);
  }

  /** What the redirections tell open and close. */
  function NodesGist(line: string, nodes: seq<RedirNode>): ShellGist.Gist {
    if nodes == [] then ShellGist.NONE
    else ShellGist.Plus(ShellGist.OneTarget(Str(line, nodes[0].file), nodes[0].mode, nodes[0].fd),
        NodesGist(line, nodes[1..]))
  }

  lemma {:induction false} NodesAre(line: string, nodes: seq<RedirNode>, rds: seq<G.Rd>)
    requires SameRedirs(line, nodes, rds)
    ensures NodesGist(line, nodes) == ShellGist.RdGist(rds)
  {
    hide IsRun;
    if nodes != [] {
      NodesAre(line, nodes[1..], rds[1..]);
    }
  }

  lemma RedirsStart(ts: seq<Tok>)
    ensures RedirsLeft(ts, [], ts)
  {
    if G.Redirs(ts).Ok? {
      assert [] + G.Redirs(ts).value == G.Redirs(ts).value;
    }
  }

  lemma RedirsMissing(ts: seq<Tok>, done: seq<G.Rd>, now: seq<Tok>)
    requires RedirsLeft(ts, done, now) && G.AtRedir(now) && (|now| < 2 || now[1].Sym?)
    ensures G.Redirs(ts) == G.Fail(G.MissingFile)
  {}

  lemma RedirsDone(ts: seq<Tok>, done: seq<G.Rd>, now: seq<Tok>)
    requires RedirsLeft(ts, done, now) && !G.AtRedir(now)
    ensures G.Redirs(ts) == G.Ok(done, now)
  {
    assert done + [] == done;
  }

  // ----- Simple commands and blocks

  ghost predicate AllRuns(line: string, args: seq<Slice>) {
    forall i | 0 <= i < |args| :: IsRun(line, args[i])
  }

  lemma ExecText(line: string, args: seq<Slice>, nodes: seq<RedirNode>, rds: seq<G.Rd>)
    requires AllRuns(line, args) && SameRedirs(line, nodes, rds)
    ensures var c := WrapNodes(Exec(args), nodes);
            Cut(line, c) && Text(line, c) == G.Wrap(G.Exec(Strs(line, args)), rds)
  {
    assert Cut(line, Exec(args));
    WrapText(line, Exec(args), nodes, rds);
  }

  lemma {:induction false} StrsLength(line: string, args: seq<Slice>)
    ensures |Strs(line, args)| == |args|
  {
    if args != [] {
      StrsLength(line, args[..|args| - 1]);
    }
  }

  lemma StrsMore(line: string, args: seq<Slice>, s: Slice)
    ensures Strs(line, args + [s]) == Strs(line, args) + [Str(line, s)] && |Strs(line, args)| == |args|
  {
    assert (args + [s])[..|args|] == args;
    StrsLength(line, args);
  }

  lemma SameRedirsJoin(line: string, a: seq<RedirNode>, x: seq<G.Rd>, b: seq<RedirNode>, y: seq<G.Rd>)
    requires SameRedirs(line, a, x) && SameRedirs(line, b, y)
    ensures SameRedirs(line, a + b, x + y)
  {}

  /** parseexec */
  method ParseExec(line: string, pos: nat) returns (p: Parsed)
    requires IsLine(line) && pos <= |line| && Boundary(line, pos)
    ensures Matches(line, pos, p, G.ParseExec(Toks(line, pos)))
    decreases |line| - pos, 1
  {
    hide Toks;
    hide Strs;
    hide Str;
    hide IsRun;
    hide SameRedirs;
    hide Boundary;
    hide WrapNodes;
    hide G.Redirs;
    hide G.ParseLine;
    hide TokAt;
    ghost var ts := Toks(line, pos);
    var found, next := Peek(line, pos, "(");
    if found {
      p := ParseBlock(line, next);
      MatchesEarlier(line, pos, next, p, G.ParseExec(ts));
      return;
    }
    var args: seq<Slice> := [];
    ghost var rds;
    var nodes, failed;
    nodes, next, failed, rds := ParseRedirs(line, next);
    if failed {
      return Failed(G.MissingFile);
    }
    var atEnd;
    atEnd, next := Peek(line, next, "|)&;");
    NoStrs(line);
    while !atEnd
      invariant pos <= next <= |line| && Boundary(line, next) && atEnd == G.AtEnd(Toks(line, next))
      invariant |args| < G.MAXARGS && AllRuns(line, args) && SameRedirs(line, nodes, rds)
      invariant G.ParseExec(ts) == G.Args(Toks(line, next), Strs(line, args), rds)
      decreases |line| - next
    {
      ghost var now := Toks(line, next);
      var tok, q, eq;
      tok, q, eq, next := GetToken(line, next);
      StrsMore(line, args, Slice(q, eq));
      if tok == '\0' {
        break;
      }
      assert now[0] == TokAt(line, q) && now[1..] == Toks(line, next);
      if tok != 'a' {
        return Failed(G.Syntax);
      }
      WordRun(line, q);
      args := args + [Slice(q, eq)];
      if |args| >= G.MAXARGS {
        return Failed(G.TooManyArgs);
      }
      ghost var moreRds;
      var more;
      more, next, failed, moreRds := ParseRedirs(line, next);
      if failed {
        return Failed(G.MissingFile);
      }
      SameRedirsJoin(line, nodes, rds, more, moreRds);
      nodes, rds := nodes + more, rds + moreRds;
      atEnd, next := Peek(line, next, "|)&;");
    }
    ExecText(line, args, nodes, rds);
    p := Done(WrapNodes(Exec(args), nodes), next);
  }

  lemma NoStrs(line: string)
    ensures Strs(line, []) == []
  {}

  lemma MatchesEarlier(line: string, pos: nat, next: nat, p: Parsed, r: G.Result<G.Tree>)
    requires Matches(line, next, p, r) && pos <= next
    ensures Matches(line, pos, p, r)
  {}

  /** parseblock */
  method ParseBlock(line: string, pos: nat) returns (p: Parsed)
    requires IsLine(line) && pos <= |line| && Boundary(line, pos) && Look(Toks(line, pos)) == '('
    ensures Matches(line, pos, p, G.ParseExec(Toks(line, pos)))
    decreases |line| - pos, 0
  {
    hide Toks;
    hide SameRedirs;
    hide Boundary;
    hide WrapNodes;
    hide Cut;
    hide Text;
    hide TokAt;
    hide G.Redirs;
    hide G.Args;
    ghost var ts := Toks(line, pos);
    var found, next := Peek(line, pos, "(");
    assert found;
    var tok, q, eq;
    tok, q, eq, next := GetToken(line, next);
    assert ts[1..] == Toks(line, next);
    p := ParseLine(line, next);
    if p.Failed? {
      return;
    }
    var cmd := p.cmd;
    found, next := Peek(line, p.next, ")");
    if !found {
      return Failed(G.MissingParen);
    }
    ghost var now := Toks(line, next);
    tok, q, eq, next := GetToken(line, next);
    assert now[1..] == Toks(line, next);
    ghost var rds;
    var nodes, failed;
    nodes, next, failed, rds := ParseRedirs(line, next);
    if failed {
      return Failed(G.MissingFile);
    }
    WrapText(line, cmd, nodes, rds);
    p := Done(WrapNodes(cmd, nodes), next);
  }

  /** parsepipe */
  method ParsePipe(line: string, pos: nat) returns (p: Parsed)
    requires IsLine(line) && pos <= |line| && Boundary(line, pos)
    ensures Matches(line, pos, p, G.ParsePipe(Toks(line, pos)))
    decreases |line| - pos, 2
  {
    hide Toks;
    hide Boundary;
    hide TokAt;
    hide IsRun;
    hide G.ParseExec;
    p := ParseExec(line, pos);
    if p.Failed? {
      return;
    }
    var cmd := p.cmd;
    var found, next := Peek(line, p.next, "|");
    if found {
      ghost var now := Toks(line, next);
      var tok, q, eq;
      tok, q, eq, next := GetToken(line, next);
      assert now[1..] == Toks(line, next);
      var r := ParsePipe(line, next);
      if r.Failed? {
        return r;
      }
      return Done(Pipe(cmd, r.cmd), r.next);
    }
    p := Done(cmd, next);
  }

  /** parseline */
  method ParseLine(line: string, pos: nat) returns (p: Parsed)
    requires IsLine(line) && pos <= |line| && Boundary(line, pos)
    ensures Matches(line, pos, p, G.ParseLine(Toks(line, pos)))
    decreases |line| - pos, 3
  {
    hide Toks;
    hide Boundary;
    hide TokAt;
    hide IsRun;
    hide G.ParsePipe;
    p := ParsePipe(line, pos);
    if p.Failed? {
      return;
    }
    var cmd := p.cmd;
    ghost var ts, piped := Toks(line, pos), G.ParsePipe(Toks(line, pos));
    var found, next := Peek(line, p.next, "&");
    while found
      invariant pos <= next <= |line| && Boundary(line, next) && found == (Look(Toks(line, next)) == '&')
      invariant Cut(line, cmd) && G.Backs(piped.rest, piped.value) == G.Backs(Toks(line, next), Text(line, cmd))
      decreases |line| - next
    {
      ghost var now := Toks(line, next);
      var tok, q, eq;
      tok, q, eq, next := GetToken(line, next);
      assert now[1..] == Toks(line, next);
      cmd := Back(cmd);
      found, next := Peek(line, next, "&");
    }
    found, next := Peek(line, next, ";");
    if found {
      ghost var now := Toks(line, next);
      var tok, q, eq;
      tok, q, eq, next := GetToken(line, next);
      assert now[1..] == Toks(line, next);
      var r := ParseLine(line, next);
      if r.Failed? {
        return r;
      }
      return Done(List(cmd, r.cmd), r.next);
    }
    p := Done(cmd, next);
  }

  // ----- nulterminate

  /** Where words end. */
  function Ends(c: Cmd): set<nat> {
    match c
    case Exec(args) => set s | s in args :: s.eq
    case Redir(d, file, _, _) => Ends(d) + {file.eq}
    case Pipe(l, r) => Ends(l) + Ends(r)
    case List(l, r) => Ends(l) + Ends(r)
    case Back(d) => Ends(d)
  }

  lemma {:induction false} EndsOfSlices(c: Cmd, e: nat)
    ensures e in Ends(c) <==> exists s :: s in Slices(c) && s.eq == e
  {
    match c
    case Exec(args) =>
    case Redir(d, file, _, _) => EndsOfSlices(d, e);
    case Pipe(l, r) =>
      EndsOfSlices(l, e);
      EndsOfSlices(r, e);
    case List(l, r) =>
      EndsOfSlices(l, e);
      EndsOfSlices(r, e);
    case Back(d) => EndsOfSlices(d, e);
  }

  function Nulled(buf: string, ends: set<nat>): (r: string)
    ensures |r| == |buf|
  {
    seq(|buf|, i requires 0 <= i < |buf| => if i in ends then '\0' else buf[i])
  }

  lemma NulledTwice(buf: string, a: set<nat>, b: set<nat>)
    ensures Nulled(Nulled(buf, a), b) == Nulled(buf, a + b)
  {}

  /** nulterminate writes a NUL at the end of every word, and nothing else. */
  method NulTerminate(c: Cmd, buf: array<char>)
    requires forall e | e in Ends(c) :: e < buf.Length
    modifies buf
    ensures buf[..] == Nulled(old(buf[..]), Ends(c))
    decreases c
  {
    match c
    case Exec(args) =>
      var i := 0;
      while i < |args|
        invariant 0 <= i <= |args| && buf[..] == Nulled(old(buf[..]), set s | s in args[..i] :: s.eq)
      {
        assert args[i].eq in Ends(c);
        buf[args[i].eq] := '\0';
        EndsMore(args, i);
        i := i + 1;
      }
      assert args[..i] == args;
    case Redir(d, file, _, _) =>
      assert Ends(c) == Ends(d) + {file.eq};
      NulTerminate(d, buf);
      buf[file.eq] := '\0';
    case Pipe(l, r) =>
      assert Ends(c) == Ends(l) + Ends(r);
      ghost var was := buf[..];
      NulTerminate(l, buf);
      NulTerminate(r, buf);
      NulledTwice(was, Ends(l), Ends(r));
    case List(l, r) =>
      assert Ends(c) == Ends(l) + Ends(r);
      ghost var was := buf[..];
      NulTerminate(l, buf);
      NulTerminate(r, buf);
      NulledTwice(was, Ends(l), Ends(r));
    case Back(d) =>
      assert Ends(c) == Ends(d);
      NulTerminate(d, buf);
  }

  lemma EndsMore(args: seq<Slice>, i: nat)
    requires i < |args|
    ensures (set s | s in args[..i + 1] :: s.eq) == (set s | s in args[..i] :: s.eq) + {args[i].eq}
  {
    assert args[..i + 1] == args[..i] + [args[i]];
  }

  /** The C string at `i`. */
  function CString(buf: string, i: nat): string
    decreases |buf| - i
  {
    if i < |buf| && buf[i] != '\0' then [buf[i]] + CString(buf, i + 1) else ""
  }

  lemma {:induction false} CStringIs(buf: string, i: nat, j: nat)
    requires i <= j < |buf| && buf[j] == '\0' && forall k | i <= k < j :: buf[k] != '\0'
    ensures CString(buf, i) == buf[i..j]
    decreases j - i
  {
    if i < j {
      CStringIs(buf, i + 1, j);
      assert buf[i..j] == [buf[i]] + buf[i + 1..j];
    }
  }

  /** Read as C strings, the words are what they were as slices: no NUL lands inside a word. */
  lemma WordsSurvive(line: string, c: Cmd, s: Slice)
    requires IsLine(line) && Cut(line, c) && s in Slices(c)
    ensures CString(Nulled(line + ['\0'], Ends(c)), s.q) == Str(line, s)
  {
    var buf := Nulled(line + ['\0'], Ends(c));
    EndsOfSlices(c, s.eq);
    forall k | s.q <= k < s.eq ensures buf[k] == line[k] {
      NoEndInside(line, c, s, k);
    }
    CStringIs(buf, s.q, s.eq);
    assert buf[s.q..s.eq] == line[s.q..s.eq];
  }

  /** No word ends inside another. */
  lemma NoEndInside(line: string, c: Cmd, s: Slice, k: nat)
    requires Cut(line, c) && s in Slices(c) && s.q <= k < s.eq
    ensures k !in Ends(c)
  {
    EndsOfSlices(c, k);
    forall t | t in Slices(c) ensures t.eq != k {
      InsideRun(line, s, k);
      assert IsRun(line, t);
    }
  }

  // ----- parsecmd

  /** What runcmd gets to see: the command with its words as C strings. */
  function CText(buf: string, c: Cmd): G.Tree {
    match c
    case Exec(args) => G.Exec(CStrs(buf, args))
    case Redir(d, file, mode, fd) => G.Redir(CText(buf, d), CString(buf, file.q), mode, fd)
    case Pipe(l, r) => G.Pipe(CText(buf, l), CText(buf, r))
    case List(l, r) => G.List(CText(buf, l), CText(buf, r))
    case Back(d) => G.Back(CText(buf, d))
  }

  function CStrs(buf: string, ss: seq<Slice>): seq<string> {
    if ss == [] then [] else CStrs(buf, ss[..|ss| - 1]) + [CString(buf, ss[|ss| - 1].q)]
  }

  lemma {:induction false} CStrsAre(line: string, buf: string, ss: seq<Slice>)
    requires forall s | s in ss :: CString(buf, s.q) == Str(line, s)
    ensures CStrs(buf, ss) == Strs(line, ss)
  {
    if ss != [] {
      CStrsAre(line, buf, ss[..|ss| - 1]);
    }
  }

  lemma {:induction false} CTextIs(line: string, buf: string, c: Cmd)
    requires forall s | s in Slices(c) :: CString(buf, s.q) == Str(line, s)
    ensures CText(buf, c) == Text(line, c)
  {
    match c
    case Exec(args) => CStrsAre(line, buf, args);
    case Redir(d, file, _, _) => CTextIs(line, buf, d);
    case Pipe(l, r) =>
      CTextIs(line, buf, l);
      CTextIs(line, buf, r);
    case List(l, r) =>
      CTextIs(line, buf, l);
      CTextIs(line, buf, r);
    case Back(d) => CTextIs(line, buf, d);
  }

  /** parsecmd on the C string of `buf`: the whole line is one command of the grammar, with its words ended by
      NULs in place, or there is an error and the buffer is as it was. */
  method ParseCmd(buf: array<char>, ghost line: string) returns (p: Parsed)
    requires IsLine(line) && |line| < buf.Length && buf[..|line| + 1] == line + ['\0']
    modifies buf
    ensures match G.Parse(Toks(line, 0))
            case Ok(t, _) => p.Done? && Cut(line, p.cmd) && CText(buf[..|line| + 1], p.cmd) == t
            case Fail(e) => p == Failed(e) && buf[..] == old(buf[..])
    ensures p.Done? ==> ShellGist.TreeGist(CText(buf[..|line| + 1], p.cmd)) == ShellGist.TokGist(Toks(line, 0))
    ensures buf[|line| + 1..] == old(buf[|line| + 1..])
  {
    hide Toks;
    hide G.ParseLine;
    hide IsRun;
    hide Text;
    hide CText;
    hide Nulled;
    hide CString;
    var es := 0;
    while buf[es] != '\0'
      invariant es <= |line|
      decreases |line| - es
    {
      assert buf[..|line| + 1][es] == buf[es];
      es := es + 1;
    }
    assert buf[..|line| + 1][es] == buf[es];
    assert es == |line|;
    var text := buf[..es];
    assert text == line;
    p := ParseLine(text, 0);
    if p.Failed? {
      return;
    }
    var left, next := Peek(text, p.next, "");
    if next != es {
      return Failed(G.Leftovers);
    }
    EndsBounded(line, p.cmd);
    ghost var was := buf[..];
    NulTerminate(p.cmd, buf);
    Terminated(line, p.cmd, was, buf[..]);
    ShellGist.ParseGist(Toks(line, 0));
  }

  lemma EndsBounded(line: string, c: Cmd)
    requires Cut(line, c)
    ensures forall e | e in Ends(c) :: e <= |line|
  {
    forall e | e in Ends(c) ensures e <= |line| {
      EndsOfSlices(c, e);
    }
  }

  lemma Terminated(line: string, c: Cmd, was: string, now: string)
    requires IsLine(line) && Cut(line, c) && |line| < |was| && was[..|line| + 1] == line + ['\0']
             && now == Nulled(was, Ends(c))
    ensures CText(now[..|line| + 1], c) == Text(line, c) && now[|line| + 1..] == was[|line| + 1..]
  {
    var n := |line| + 1;
    EndsBounded(line, c);
    assert now[..n] == Nulled(line + ['\0'], Ends(c)) by {
      assert forall i | 0 <= i < n :: was[..n][i] == was[i];
    }
    forall s | s in Slices(c) ensures CString(now[..n], s.q) == Str(line, s) {
      WordsSurvive(line, c, s);
    }
    CTextIs(line, now[..n], c);
  }
}
