/** The grammar of shell commands (user/sh.c) on tokens, and writing a command out so that it is parsed
    back. */
module ShellGrammar {
  import opened ShellTokens

  const MAXARGS := 10

  /** The modes of user/include/fcntl.h. */
  const O_RDONLY := 0x000
  const O_WRONLY := 0x001
  const O_CREATE := 0x200
  const O_TRUNC := 0x400

  datatype Tree =
    | Exec(args: seq<string>)
    | Redir(cmd: Tree, file: string, mode: int, fd: int)
    | Pipe(left: Tree, right: Tree)
    | List(left: Tree, right: Tree)
    | Back(cmd: Tree)

  datatype Error = Syntax | MissingFile | TooManyArgs | MissingParen | Leftovers
  datatype Result<T> = Ok(value: T, rest: seq<Tok>) | Fail(error: Error)

  /** A redirection: its symbol and its file. */
  datatype Rd = Rd(kind: char, file: string) {
    predicate IsForm() {
      kind == '<' || kind == '>' || kind == '+'
    }
  }

  function Mode(kind: char): int {
    if kind == '<' then O_RDONLY else if kind == '>' then O_WRONLY + O_CREATE + O_TRUNC else O_WRONLY + O_CREATE
  }

  function Fd(kind: char): int {
    if kind == '<' then 0 else 1
  }

  /** The first redirection is innermost. */
  function Wrap(t: Tree, rds: seq<Rd>): Tree
    decreases |rds|
  {
    if rds == [] then t else Wrap(Redir(t, rds[0].file, Mode(rds[0].kind), Fd(rds[0].kind)), rds[1..])
  }

  // ----- Parsing tokens

  predicate AtRedir(ts: seq<Tok>) {
    Look(ts) == '<' || Look(ts) == '>'
  }

  /** What ends a simple command, besides the end of the line. */
  predicate AtEnd(ts: seq<Tok>) {
    Look(ts) == '|' || Look(ts) == ')' || Look(ts) == '&' || Look(ts) == ';'
  }

  function Redirs(ts: seq<Tok>): (r: Result<seq<Rd>>)
    ensures r.Ok? ==> |r.rest| <= |ts|
  {
    if !AtRedir(ts) then Ok([], ts)
    else if |ts| < 2 || ts[1].Sym? then Fail(MissingFile)
    else match Redirs(ts[2..])
      case Ok(rds, rest) => Ok([Rd(ts[0].c, ts[1].text)] + rds, rest)
      case Fail(e) => Fail(e)
  }

  /** The arguments and redirections of a simple command, after `args` and `rds`. */
  function Args(ts: seq<Tok>, args: seq<string>, rds: seq<Rd>): (r: Result<Tree>)
    ensures r.Ok? ==> |r.rest| <= |ts|
    decreases |ts|
  {
    if ts == [] || AtEnd(ts) then Ok(Wrap(Exec(args), rds), ts)
    else if ts[0].Sym? then Fail(Syntax)
    else if |args| + 1 >= MAXARGS then Fail(TooManyArgs)
    else match Redirs(ts[1..])
      case Ok(more, rest) => Args(rest, args + [ts[0].text], rds + more)
      case Fail(e) => Fail(e)
  }

  function ParseExec(ts: seq<Tok>): (r: Result<Tree>)
    ensures r.Ok? ==> |r.rest| <= |ts|
    decreases |ts|, 0
  {
    if Look(ts) == '(' then
      match ParseLine(ts[1..])
      case Ok(t, rest) =>
        if Look(rest) != ')' then Fail(MissingParen)
        else (match Redirs(rest[1..])
              case Ok(rds, rest2) => Ok(Wrap(t, rds), rest2)
              case Fail(e) => Fail(e))
      case Fail(e) => Fail(e)
    else match Redirs(ts)
      case Ok(rds, rest) => Args(rest, [], rds)
      case Fail(e) => Fail(e)
  }

  function ParsePipe(ts: seq<Tok>): (r: Result<Tree>)
    ensures r.Ok? ==> |r.rest| <= |ts|
    decreases |ts|, 1
  {
    match ParseExec(ts)
    case Ok(t, rest) =>
      if Look(rest) != '|' then Ok(t, rest)
      else (match ParsePipe(rest[1..])
            case Ok(u, rest2) => Ok(Pipe(t, u), rest2)
            case Fail(e) => Fail(e))
    case Fail(e) => Fail(e)
  }

  /** The loop over "&". */
  function Backs(ts: seq<Tok>, t: Tree): (r: Result<Tree>)
    ensures r.Ok? && |r.rest| <= |ts|
    decreases |ts|
  {
    if Look(ts) == '&' then Backs(ts[1..], Back(t)) else Ok(t, ts)
  }

  function ParseLine(ts: seq<Tok>): (r: Result<Tree>)
    ensures r.Ok? ==> |r.rest| <= |ts|
    decreases |ts|, 2
  {
    match ParsePipe(ts)
    case Ok(t, rest) => AfterPipe(rest, t, |ts|)
    case Fail(e) => Fail(e)
  }

  /** parseline after its first call; `n` bounds the tokens. */
  function AfterPipe(ts: seq<Tok>, t: Tree, n: nat): (r: Result<Tree>)
    requires |ts| <= n
    ensures r.Ok? ==> |r.rest| <= n
    decreases n, 1, |ts|
  {
    var b := Backs(ts, t);
    if Look(b.rest) != ';' then b
    else match ParseLine(b.rest[1..])
      case Ok(u, rest) => Ok(List(b.value, u), rest)
      case Fail(e) => Fail(e)
  }

  function Parse(ts: seq<Tok>): Result<Tree> {
    match ParseLine(ts)
    case Ok(t, rest) => if rest == [] then Ok(t, []) else Fail(Leftovers)
    case Fail(e) => Fail(e)
  }

  // ----- Writing a command out

  /** 0: a line; 1: without ";"; 2: without "&" as well; 3: a simple or a parenthesized command. */
  function Level(t: Tree): nat {
    match t
    case List(_, _) => 0
    case Back(_) => 1
    case Pipe(_, _) => 2
    case _ => 3
  }

  function Words(args: seq<string>): seq<Tok> {
    if args == [] then [] else [Word(args[0])] + Words(args[1..])
  }

  /** One of the three forms of redirection. */
  function Kind(mode: int, fd: int): char {
    if fd == 0 then '<' else if mode == Mode('>') then '>' else '+'
  }

  function RedirToks(rds: seq<Rd>): seq<Tok> {
    if rds == [] then [] else [Sym(rds[0].kind), Word(rds[0].file)] + RedirToks(rds[1..])
  }

  /** The redirections around a command, innermost first, and what they are around. */
  function Around(t: Tree): seq<Rd> {
    if t.Redir? then Around(t.cmd) + [Rd(Kind(t.mode, t.fd), t.file)] else []
  }

  function Bare(t: Tree): (b: Tree)
    ensures !b.Redir? && (!t.Redir? ==> b == t)
  {
    if t.Redir? then Bare(t.cmd) else t
  }

  function Print(t: Tree): seq<Tok>
    decreases t, 1
  {
    match t
    case Exec(args) => Words(args)
    case Redir(_, _, _, _) => PrintRedir(t)
    case Pipe(l, r) => PrintAt(l, 3) + [Sym('|')] + PrintAt(r, 2)
    case List(l, r) => PrintAt(l, 1) + [Sym(';')] + PrintAt(r, 0)
    case Back(c) => PrintAt(c, 1) + [Sym('&')]
  }

  /** Parentheses where the grammar needs them. */
  function PrintAt(t: Tree, level: nat): seq<Tok>
    decreases t, 2
  {
    if Level(t) >= level then Print(t) else [Sym('(')] + Print(t) + [Sym(')')]
  }

  lemma {:induction false} BareSmaller(t: Tree)
    requires t.Redir?
    ensures Bare(t) < t
  {
    if t.cmd.Redir? {
      BareSmaller(t.cmd);
    }
  }

  function PrintRedir(t: Tree): seq<Tok>
    requires t.Redir?
    decreases t, 0
  {
    BareSmaller(t);
    var b := Bare(t);
    (if b.Exec? then Words(b.args) else [Sym('(')] + Print(b) + [Sym(')')]) + RedirToks(Around(t))
  }

  // ----- Which commands can be written

  predicate GoodWord(w: string) {
    Good(Word(w))
  }

  predicate Printable(t: Tree) {
    match t
    case Exec(args) => |args| < MAXARGS && forall i | 0 <= i < |args| :: GoodWord(args[i])
    case Redir(c, file, mode, fd) =>
      Printable(c) && GoodWord(file) && mode == Mode(Kind(mode, fd)) && fd == Fd(Kind(mode, fd))
    case Pipe(l, r) => Printable(l) && Printable(r)
    case List(l, r) => Printable(l) && Printable(r)
    case Back(c) => Printable(c)
  }

  lemma {:induction false} WrapAround(t: Tree)
    requires Printable(t)
    ensures Wrap(Bare(t), Around(t)) == t && Printable(Bare(t))
    ensures forall i | 0 <= i < |Around(t)| :: Around(t)[i].IsForm() && GoodWord(Around(t)[i].file)
  {
    if t.Redir? {
      WrapAround(t.cmd);
      WrapMore(Bare(t), Around(t.cmd), Rd(Kind(t.mode, t.fd), t.file));
    }
  }

  lemma {:induction false} WrapMore(t: Tree, rds: seq<Rd>, rd: Rd)
    ensures Wrap(t, rds + [rd]) == Redir(Wrap(t, rds), rd.file, Mode(rd.kind), Fd(rd.kind))
    decreases |rds|
  {
    if rds == [] {
      assert rds + [rd] == [rd];
      assert [rd][1..] == [];
    } else {
      WrapMore(Redir(t, rds[0].file, Mode(rds[0].kind), Fd(rds[0].kind)), rds[1..], rd);
      assert (rds + [rd])[1..] == rds[1..] + [rd];
    }
  }

  // ----- Round trip

  lemma RedirToksCons(rds: seq<Rd>, rest: seq<Tok>)
    requires rds != []
    ensures var ts := RedirToks(rds) + rest;
      |ts| >= 2 && ts[0] == Sym(rds[0].kind) && ts[1] == Word(rds[0].file) && ts[2..] == RedirToks(rds[1..]) + rest
  {
    FirstPart([Sym(rds[0].kind), Word(rds[0].file)], RedirToks(rds[1..]), rest);
  }

  lemma FirstPart(a: seq<Tok>, b: seq<Tok>, c: seq<Tok>)
    ensures var s := (a + b) + c; |s| >= |a| && s[|a|..] == b + c && forall i | 0 <= i < |a| :: s[i] == a[i]
  {}

  lemma {:induction false} RedirsBack(rds: seq<Rd>, rest: seq<Tok>)
    requires (rest == [] || AtEnd(rest)) && forall i | 0 <= i < |rds| :: rds[i].IsForm()
    ensures Redirs(RedirToks(rds) + rest) == Ok(rds, rest)
  {
    if rds == [] {
      assert RedirToks(rds) + rest == rest;
    } else {
      RedirToksCons(rds, rest);
      RedirsBack(rds[1..], rest);
      RedirsStep(RedirToks(rds) + rest, rds, rest);
    }
  }

  lemma RedirsStep(ts: seq<Tok>, rds: seq<Rd>, rest: seq<Tok>)
    requires rds != [] && rds[0].IsForm() && |ts| >= 2 && ts[0] == Sym(rds[0].kind) && ts[1] == Word(rds[0].file)
    requires Redirs(ts[2..]) == Ok(rds[1..], rest)
    ensures Redirs(ts) == Ok(rds, rest)
  {
    assert AtRedir(ts);
    assert [Rd(ts[0].c, ts[1].text)] + rds[1..] == rds;
  }

  lemma WordsCons(args: seq<string>, tail: seq<Tok>)
    requires args != []
    ensures var ts := Words(args) + tail; ts != [] && ts[0] == Word(args[0]) && ts[1..] == Words(args[1..]) + tail
  {
    FirstPart([Word(args[0])], Words(args[1..]), tail);
  }

  lemma ArgsStep(ts: seq<Tok>, args: seq<string>, rds: seq<Rd>, more: seq<Rd>, rest: seq<Tok>)
    requires ts != [] && ts[0].Word? && |args| + 1 < MAXARGS && Redirs(ts[1..]) == Ok(more, rest)
    ensures Args(ts, args, rds) == Args(rest, args + [ts[0].text], rds + more)
  {}

  /** Words first, then redirections. */
  lemma {:induction false} ArgsBack(done: seq<string>, args: seq<string>, rds: seq<Rd>, rest: seq<Tok>)
    requires |done| + |args| < MAXARGS && args != [] && (rest == [] || AtEnd(rest))
             && forall i | 0 <= i < |rds| :: rds[i].IsForm()
    ensures Args(Words(args) + (RedirToks(rds) + rest), done, []) == Ok(Wrap(Exec(done + args), rds), rest)
    decreases |args|
  {
    hide Args;
    hide Redirs;
    hide Wrap;
    hide Words;
    hide RedirToks;
    var tail := RedirToks(rds) + rest;
    var ts, more := Words(args) + tail, done + [args[0]];
    WordsCons(args, tail);
    var none: seq<Rd> := [];
    if |args| == 1 {
      NoWords(args[1..], tail);
      RedirsBack(rds, rest);
      ArgsStep(ts, done, none, rds, rest);
      assert none + rds == rds;
      assert more == done + args;
      ArgsEnd(rest, more, rds);
    } else {
      WordsCons(args[1..], tail);
      NoRedirs(ts[1..]);
      ArgsStep(ts, done, none, none, ts[1..]);
      assert none + none == none;
      ArgsBack(more, args[1..], rds, rest);
      assert more + args[1..] == done + args;
    }
  }

  lemma NoWords(args: seq<string>, tail: seq<Tok>)
    requires args == []
    ensures Words(args) + tail == tail
  {}

  lemma ExecBack(args: seq<string>, rds: seq<Rd>, rest: seq<Tok>)
    requires |args| < MAXARGS && (rest == [] || AtEnd(rest)) && forall i | 0 <= i < |rds| :: rds[i].IsForm()
    ensures ParseExec(Words(args) + RedirToks(rds) + rest) == Ok(Wrap(Exec(args), rds), rest)
  {
    hide Args;
    hide Redirs;
    hide Wrap;
    hide ParseLine;
    hide Words;
    hide RedirToks;
    var ts := Words(args) + RedirToks(rds) + rest;
    if args == [] {
      NoWords(args, RedirToks(rds));
      RedirsBack(rds, rest);
      if rds != [] {
        RedirToksCons(rds, rest);
      } else {
        NoRedirToks(rds, rest);
      }
      ArgsEnd(rest, [], rds);
    } else {
      assert ts == Words(args) + (RedirToks(rds) + rest);
      WordsCons(args, RedirToks(rds) + rest);
      NoRedirs(ts);
      ArgsBack([], args, rds, rest);
      assert [] + args == args;
    }
  }

  lemma NoRedirToks(rds: seq<Rd>, rest: seq<Tok>)
    requires rds == []
    ensures RedirToks(rds) + rest == rest
  {}

  lemma ArgsEnd(rest: seq<Tok>, args: seq<string>, rds: seq<Rd>)
    requires rest == [] || AtEnd(rest)
    ensures Args(rest, args, rds) == Ok(Wrap(Exec(args), rds), rest)
  {}

  lemma NoRedirs(ts: seq<Tok>)
    requires !AtRedir(ts)
    ensures Redirs(ts) == Ok([], ts)
  {}

  /** What ends a pipeline, and what ends a line within parentheses. */
  predicate PipeEnds(rest: seq<Tok>) {
    rest == [] || Look(rest) == ')' || Look(rest) == '&' || Look(rest) == ';'
  }

  predicate LineEnds(rest: seq<Tok>) {
    rest == [] || Look(rest) == ')'
  }

  lemma InBlock(b: Tree, rds: seq<Rd>, rest: seq<Tok>)
    requires rest == [] || AtEnd(rest)
    requires forall i | 0 <= i < |rds| :: rds[i].IsForm()
    requires ParseLine(Print(b) + ([Sym(')')] + RedirToks(rds) + rest)) == Ok(b, [Sym(')')] + RedirToks(rds) + rest)
    ensures ParseExec([Sym('(')] + Print(b) + [Sym(')')] + RedirToks(rds) + rest) == Ok(Wrap(b, rds), rest)
  {
    hide ParseLine;
    hide Print;
    hide Redirs;
    hide Args;
    hide Wrap;
    var ts, after := [Sym('(')] + Print(b) + [Sym(')')] + RedirToks(rds) + rest, [Sym(')')] + RedirToks(rds) + rest;
    assert ts[1..] == Print(b) + after;
    assert Look(ts) == '(' && Look(after) == ')';
    assert after[1..] == RedirToks(rds) + rest;
    RedirsBack(rds, rest);
  }

  lemma {:induction false} AtExec(t: Tree, rest: seq<Tok>)
    requires Printable(t) && Level(t) == 3 && (rest == [] || AtEnd(rest))
    ensures ParseExec(Print(t) + rest) == Ok(t, rest)
    decreases t, 1
  {
    hide ParseExec;
    hide ParseLine;
    hide Wrap;
    if t.Exec? {
      assert Words(t.args) + RedirToks([]) + rest == Print(t) + rest;
      ExecBack(t.args, [], rest);
      WrapNone(t);
    } else {
      var b, rds := Bare(t), Around(t);
      WrapAround(t);
      if b.Exec? {
        ExecBack(b.args, rds, rest);
      } else {
        BareSmaller(t);
        AtLine(b, [Sym(')')] + RedirToks(rds) + rest);
        InBlock(b, rds, rest);
        assert [Sym('(')] + Print(b) + [Sym(')')] + RedirToks(rds) + rest == Print(t) + rest;
      }
    }
  }

  lemma WrapNone(t: Tree)
    ensures Wrap(t, []) == t
  {}

  lemma {:induction false} AnyExec(t: Tree, rest: seq<Tok>)
    requires Printable(t) && (rest == [] || AtEnd(rest))
    ensures ParseExec(PrintAt(t, 3) + rest) == Ok(t, rest)
    decreases t, 5
  {
    hide ParseExec;
    hide ParseLine;
    hide Print;
    if Level(t) >= 3 {
      AtExec(t, rest);
    } else {
      var after := [Sym(')')] + RedirToks([]) + rest;
      AtLine(t, after);
      InBlock(t, [], rest);
      WrapNone(t);
      assert [Sym('(')] + Print(t) + [Sym(')')] + RedirToks([]) + rest == PrintAt(t, 3) + rest;
    }
  }

  lemma {:induction false} AtPipe(t: Tree, rest: seq<Tok>)
    requires Printable(t) && Level(t) >= 2 && PipeEnds(rest)
    ensures ParsePipe(Print(t) + rest) == Ok(t, rest)
    decreases t, 2
  {
    hide ParseExec;
    hide PrintAt;
    if t.Pipe? {
      var after := [Sym('|')] + PrintAt(t.right, 2) + rest;
      AnyExec(t.left, after);
      AnyPipe(t.right, rest);
      assert Print(t) + rest == PrintAt(t.left, 3) + after;
      assert after[1..] == PrintAt(t.right, 2) + rest;
    } else {
      AtExec(t, rest);
    }
  }

  lemma {:induction false} AnyPipe(t: Tree, rest: seq<Tok>)
    requires Printable(t) && PipeEnds(rest)
    ensures ParsePipe(PrintAt(t, 2) + rest) == Ok(t, rest)
    decreases t, 6
  {
    hide ParseExec;
    hide Print;
    if Level(t) >= 2 {
      AtPipe(t, rest);
    } else {
      AnyExec(t, rest);
      assert PrintAt(t, 3) == PrintAt(t, 2);
    }
  }

  /** After a pipeline, all that is left to do is the loop over "&". */
  predicate Backed(ts: seq<Tok>, t: Tree, rest: seq<Tok>) {
    ParsePipe(ts).Ok? && Backs(ParsePipe(ts).rest, ParsePipe(ts).value) == Backs(rest, t)
  }

  lemma {:induction false} AtBack(t: Tree, rest: seq<Tok>)
    requires Printable(t) && Level(t) >= 1 && PipeEnds(rest)
    ensures Backed(Print(t) + rest, t, rest)
    decreases t, 3
  {
    hide ParsePipe;
    hide PrintAt;
    if t.Back? {
      var after := [Sym('&')] + rest;
      AnyBack(t.cmd, after);
      assert Print(t) + rest == PrintAt(t.cmd, 1) + after;
      assert after[1..] == rest;
    } else {
      AtPipe(t, rest);
    }
  }

  lemma {:induction false} AnyBack(t: Tree, rest: seq<Tok>)
    requires Printable(t) && PipeEnds(rest)
    ensures Backed(PrintAt(t, 1) + rest, t, rest)
    decreases t, 7
  {
    hide ParseExec;
    hide Print;
    hide Backs;
    if Level(t) >= 1 {
      AtBack(t, rest);
    } else {
      AnyExec(t, rest);
      assert PrintAt(t, 3) == PrintAt(t, 1);
    }
  }

  lemma {:induction false} AtLine(t: Tree, rest: seq<Tok>)
    requires Printable(t) && LineEnds(rest)
    ensures ParseLine(Print(t) + rest) == Ok(t, rest)
    decreases t, 4
  {
    hide ParsePipe;
    if t.List? {
      var after := [Sym(';')] + Print(t.right) + rest;
      AnyBack(t.left, after);
      AtLine(t.right, rest);
      assert Print(t) + rest == PrintAt(t.left, 1) + after;
      assert after[1..] == Print(t.right) + rest;
    } else {
      AtBack(t, rest);
    }
  }

  /** Writing a command out and parsing it gives the command back. */
  lemma PrintParse(t: Tree)
    requires Printable(t)
    ensures Parse(Print(t)) == Ok(t, [])
  {
    hide ParseLine;
    AtLine(t, []);
    assert Print(t) + [] == Print(t);
  }

  // ----- What is parsed can be written

  ghost predicate AllGood(ts: seq<Tok>) {
    forall i | 0 <= i < |ts| :: Good(ts[i])
  }

  lemma {:induction false} RedirsGood(ts: seq<Tok>)
    requires AllGood(ts) && Redirs(ts).Ok?
    ensures AllGood(Redirs(ts).rest) &&
            forall i | 0 <= i < |Redirs(ts).value| :: Redirs(ts).value[i].IsForm() && GoodWord(Redirs(ts).value[i].file)
  {
    if AtRedir(ts) {
      assert Good(ts[1]);
      RedirsGood(ts[2..]);
    }
  }

  lemma {:induction false} WrapPrintable(t: Tree, rds: seq<Rd>)
    requires Printable(t) && forall i | 0 <= i < |rds| :: rds[i].IsForm() && GoodWord(rds[i].file)
    ensures Printable(Wrap(t, rds))
    decreases |rds|
  {
    if rds != [] {
      assert rds[0].IsForm() && GoodWord(rds[0].file);
      WrapPrintable(Redir(t, rds[0].file, Mode(rds[0].kind), Fd(rds[0].kind)), rds[1..]);
    }
  }

  lemma {:induction false} ArgsGood(ts: seq<Tok>, args: seq<string>, rds: seq<Rd>)
    requires AllGood(ts) && Printable(Exec(args)) && Args(ts, args, rds).Ok?
    requires forall i | 0 <= i < |rds| :: rds[i].IsForm() && GoodWord(rds[i].file)
    ensures AllGood(Args(ts, args, rds).rest) && Printable(Args(ts, args, rds).value)
    decreases |ts|
  {
    if ts == [] || AtEnd(ts) {
      WrapPrintable(Exec(args), rds);
    } else {
      assert Good(ts[0]);
      RedirsGood(ts[1..]);
      var r := Redirs(ts[1..]);
      ArgsGood(r.rest, args + [ts[0].text], rds + r.value);
    }
  }

  lemma {:induction false} ExecGood(ts: seq<Tok>)
    requires AllGood(ts) && ParseExec(ts).Ok?
    ensures AllGood(ParseExec(ts).rest) && Printable(ParseExec(ts).value)
    decreases |ts|, 0
  {
    hide Wrap;
    hide Args;
    hide Redirs;
    hide Good;
    if Look(ts) == '(' {
      LineGood(ts[1..]);
      var r := ParseLine(ts[1..]);
      RedirsGood(r.rest[1..]);
      WrapPrintable(r.value, Redirs(r.rest[1..]).value);
    } else {
      RedirsGood(ts);
      ArgsGood(Redirs(ts).rest, [], Redirs(ts).value);
    }
  }

  lemma {:induction false} PipeGood(ts: seq<Tok>)
    requires AllGood(ts) && ParsePipe(ts).Ok?
    ensures AllGood(ParsePipe(ts).rest) && Printable(ParsePipe(ts).value)
    decreases |ts|, 1
  {
    hide ParseExec;
    hide Good;
    ExecGood(ts);
    var r := ParseExec(ts);
    if Look(r.rest) == '|' {
      PipeGood(r.rest[1..]);
    }
  }

  lemma {:induction false} BacksGood(ts: seq<Tok>, t: Tree)
    requires AllGood(ts) && Printable(t)
    ensures AllGood(Backs(ts, t).rest) && Printable(Backs(ts, t).value)
    decreases |ts|
  {
    if Look(ts) == '&' {
      BacksGood(ts[1..], Back(t));
    }
  }

  lemma {:induction false} LineGood(ts: seq<Tok>)
    requires AllGood(ts) && ParseLine(ts).Ok?
    ensures AllGood(ParseLine(ts).rest) && Printable(ParseLine(ts).value)
    decreases |ts|, 2
  {
    hide ParsePipe;
    hide Backs;
    hide Good;
    PipeGood(ts);
    var r := ParsePipe(ts);
    BacksGood(r.rest, r.value);
    var b := Backs(r.rest, r.value);
    if Look(b.rest) == ';' {
      LineGood(b.rest[1..]);
    }
  }

  // ----- What is written is good

  lemma {:induction false} WordsGood(args: seq<string>)
    requires forall i | 0 <= i < |args| :: GoodWord(args[i])
    ensures AllGood(Words(args))
  {
    if args != [] {
      WordsGood(args[1..]);
    }
  }

  lemma {:induction false} RedirToksGood(rds: seq<Rd>)
    requires forall i | 0 <= i < |rds| :: rds[i].IsForm() && GoodWord(rds[i].file)
    ensures AllGood(RedirToks(rds))
  {
    if rds != [] {
      RedirToksGood(rds[1..]);
      assert rds[0].IsForm() && GoodWord(rds[0].file);
    }
  }

  lemma {:induction false} PrintGood(t: Tree)
    requires Printable(t)
    ensures AllGood(Print(t))
    decreases t
  {
    match t
    case Exec(args) => WordsGood(args);
    case Redir(_, _, _, _) =>
      WrapAround(t);
      RedirToksGood(Around(t));
      BareSmaller(t);
      PrintGood(Bare(t));
    case Pipe(l, r) =>
      PrintGood(l);
      PrintGood(r);
    case List(l, r) =>
      PrintGood(l);
      PrintGood(r);
    case Back(c) => PrintGood(c);
  }

  /** A line that parses can be written out again, and then parses to the same command. */
  lemma ParsePrintParse(line: string)
    requires IsLine(line) && Parse(Toks(line, 0)).Ok?
    ensures var t := Parse(Toks(line, 0)).value;
      Printable(t) && IsLine(Spell(Print(t))) && Parse(Toks(Spell(Print(t)), 0)) == Ok(t, [])
  {
    ToksGood(line, 0);
    LineGood(Toks(line, 0));
    RoundTrip(Parse(Toks(line, 0)).value);
  }

  /** Every command of the grammar with at most nine arguments to a simple command and sound words comes back
      from the line it is written as. */
  lemma RoundTrip(t: Tree)
    requires Printable(t)
    ensures IsLine(Spell(Print(t))) && Parse(Toks(Spell(Print(t)), 0)) == Ok(t, [])
  {
    PrintGood(t);
    SpellIsLine(Print(t));
    SpellToks("", Print(t));
    assert "" + Spell(Print(t)) == Spell(Print(t));
    PrintParse(t);
  }
}
