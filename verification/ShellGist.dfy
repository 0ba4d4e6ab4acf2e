/** What a command is made of, in the order of the line: its words, its redirections with the numbers that open
    and close get (user/sh.c, user/include/fcntl.h), and what joins its parts. */
module ShellGist {
  import opened ShellTokens
  import opened ShellGrammar

  datatype Target = Target(file: string, mode: int, fd: int)
  datatype Gist = Gist(words: seq<string>, targets: seq<Target>, joints: string)

  const NONE := Gist([], [], [])

  function Plus(a: Gist, b: Gist): Gist {
    Gist(a.words + b.words, a.targets + b.targets, a.joints + b.joints)
  }

  function OneWord(w: string): Gist {
    Gist([w], [], [])
  }

  function OneTarget(file: string, mode: int, fd: int): Gist {
    Gist([], [Target(file, mode, fd)], [])
  }

  function OneJoint(c: char): Gist {
    Gist([], [], [c])
  }

  /** On tokens: "<" opens for reading as 0; ">" for writing, created and truncated (1 + 0x200 + 0x400), as 1;
      ">>" for writing, created and not truncated, as 1. A word that follows one of them is a file. */
  function TokGist(ts: seq<Tok>): Gist {
    if ts == [] then NONE
    else if ts[0].Word? then Plus(OneWord(ts[0].text), TokGist(ts[1..]))
    else if ts[0].c in "<>+" && |ts| > 1 && ts[1].Word? then
      var file := ts[1].text;
      Plus(if ts[0].c == '<' then OneTarget(file, 0, 0)
           else if ts[0].c == '>' then OneTarget(file, 0x601, 1)
           else OneTarget(file, 0x201, 1), TokGist(ts[2..]))
    else if ts[0].c in "|;&" then Plus(OneJoint(ts[0].c), TokGist(ts[1..]))
    else TokGist(ts[1..])
  }

  /** On commands: a redirection comes behind what it is around. */
  function TreeGist(t: Tree): Gist {
    match t
    case Exec(args) => Gist(args, [], [])
    case Redir(c, file, mode, fd) => Plus(TreeGist(c), OneTarget(file, mode, fd))
    case Pipe(l, r) => Plus(TreeGist(l), Plus(OneJoint('|'), TreeGist(r)))
    case List(l, r) => Plus(TreeGist(l), Plus(OneJoint(';'), TreeGist(r)))
    case Back(c) => Plus(TreeGist(c), OneJoint('&'))
  }

  function RdGist(rds: seq<Rd>): (g: Gist)
    ensures g.words == [] && g.joints == [] && |g.targets| == |rds|
  {
    if rds == [] then NONE else Plus(OneTarget(rds[0].file, Mode(rds[0].kind), Fd(rds[0].kind)), RdGist(rds[1..]))
  }

  lemma PlusParts(a: Gist, b: Gist, c: Gist)
    ensures Plus(Plus(a, b), c) == Plus(a, Plus(b, c)) && Plus(a, NONE) == a == Plus(NONE, a)
  {}

  lemma {:induction false} RdMore(a: seq<Rd>, b: seq<Rd>)
    ensures RdGist(a + b) == Plus(RdGist(a), RdGist(b))
  {
    if a == [] {
      assert a + b == b;
      PlusParts(RdGist(b), NONE, NONE);
    } else {
      RdMore(a[1..], b);
      assert (a + b)[1..] == a[1..] + b;
      PlusParts(OneTarget(a[0].file, Mode(a[0].kind), Fd(a[0].kind)), RdGist(a[1..]), RdGist(b));
    }
  }

  lemma {:induction false} WrapGist(t: Tree, rds: seq<Rd>)
    ensures TreeGist(Wrap(t, rds)) == Plus(TreeGist(t), RdGist(rds))
    decreases |rds|
  {
    if rds == [] {
      PlusParts(TreeGist(t), NONE, NONE);
    } else {
      var u := Redir(t, rds[0].file, Mode(rds[0].kind), Fd(rds[0].kind));
      WrapGist(u, rds[1..]);
      PlusParts(TreeGist(t), OneTarget(rds[0].file, Mode(rds[0].kind), Fd(rds[0].kind)), RdGist(rds[1..]));
    }
  }

  /** parseredirs */
  lemma {:induction false} RedirsGist(ts: seq<Tok>)
    ensures Redirs(ts).Ok? ==> TokGist(ts) == Plus(RdGist(Redirs(ts).value), TokGist(Redirs(ts).rest))
  {
    if !AtRedir(ts) {
      PlusParts(TokGist(ts), NONE, NONE);
    } else if |ts| >= 2 && ts[1].Word? && Redirs(ts[2..]).Ok? {
      var more := Redirs(ts[2..]);
      var rd := Rd(ts[0].c, ts[1].text);
      RedirsGist(ts[2..]);
      PlusParts(OneTarget(rd.file, Mode(rd.kind), Fd(rd.kind)), RdGist(more.value), TokGist(more.rest));
      assert ([rd] + more.value)[1..] == more.value;
    }
  }

  /** parseexec from a word on */
  lemma {:induction false} ArgsGist(ts: seq<Tok>, args: seq<string>, rds: seq<Rd>)
    requires Args(ts, args, rds).Ok?
    ensures var r := Args(ts, args, rds);
      Plus(Plus(Gist(args, [], []), RdGist(rds)), TokGist(ts)) == Plus(TreeGist(r.value), TokGist(r.rest))
    decreases |ts|
  {
    if ts == [] || AtEnd(ts) {
      WrapGist(Exec(args), rds);
    } else {
      var more := Redirs(ts[1..]);
      RedirsGist(ts[1..]);
      ArgsGist(more.rest, args + [ts[0].text], rds + more.value);
      RdMore(rds, more.value);
      ArgsOrder(args, ts[0].text, RdGist(rds), RdGist(more.value), TokGist(more.rest));
    }
  }

  /** Words and redirections are counted apart, so that their order on the line does not matter. */
  lemma ArgsOrder(args: seq<string>, w: string, a: Gist, b: Gist, rest: Gist)
    requires a.words == [] && a.joints == []
    ensures Plus(Plus(Gist(args, [], []), a), Plus(OneWord(w), Plus(b, rest)))
            == Plus(Plus(Gist(args + [w], [], []), Plus(a, b)), rest)
  {}

  lemma SymGist(ts: seq<Tok>, c: char)
    requires Look(ts) == c && c in "()|;&"
    ensures ts != [] && TokGist(ts) == if c in "|;&" then Plus(OneJoint(c), TokGist(ts[1..])) else TokGist(ts[1..])
  {}

  lemma {:induction false} ExecGist(ts: seq<Tok>)
    requires ParseExec(ts).Ok?
    ensures var r := ParseExec(ts); TokGist(ts) == Plus(TreeGist(r.value), TokGist(r.rest))
    decreases |ts|, 0
  {
    hide TokGist;
    hide Plus;
    hide Wrap;
    if Look(ts) == '(' {
      var inner := ParseLine(ts[1..]);
      SymGist(ts, '(');
      LineGist(ts[1..]);
      SymGist(inner.rest, ')');
      var rds := Redirs(inner.rest[1..]);
      RedirsGist(inner.rest[1..]);
      WrapGist(inner.value, rds.value);
      PlusParts(TreeGist(inner.value), RdGist(rds.value), TokGist(rds.rest));
    } else {
      var rds := Redirs(ts);
      RedirsGist(ts);
      ArgsGist(rds.rest, [], rds.value);
      PlusParts(NONE, RdGist(rds.value), NONE);
      PlusParts(RdGist(rds.value), NONE, NONE);
    }
  }

  lemma {:induction false} PipeGist(ts: seq<Tok>)
    requires ParsePipe(ts).Ok?
    ensures var r := ParsePipe(ts); TokGist(ts) == Plus(TreeGist(r.value), TokGist(r.rest))
    decreases |ts|, 1
  {
    hide TokGist;
    hide Plus;
    hide ParseExec;
    var left := ParseExec(ts);
    ExecGist(ts);
    if Look(left.rest) == '|' {
      var right := ParsePipe(left.rest[1..]);
      SymGist(left.rest, '|');
      PipeGist(left.rest[1..]);
      PlusParts(OneJoint('|'), TreeGist(right.value), TokGist(right.rest));
      PlusParts(TreeGist(left.value), Plus(OneJoint('|'), TreeGist(right.value)), TokGist(right.rest));
    }
  }

  lemma {:induction false} BacksGist(ts: seq<Tok>, t: Tree)
    ensures var r := Backs(ts, t); Plus(TreeGist(t), TokGist(ts)) == Plus(TreeGist(r.value), TokGist(r.rest))
    decreases |ts|
  {
    hide TokGist;
    hide Plus;
    if Look(ts) == '&' {
      SymGist(ts, '&');
      BacksGist(ts[1..], Back(t));
      PlusParts(TreeGist(t), OneJoint('&'), TokGist(ts[1..]));
    }
  }

  lemma {:induction false} LineGist(ts: seq<Tok>)
    requires ParseLine(ts).Ok?
    ensures var r := ParseLine(ts); TokGist(ts) == Plus(TreeGist(r.value), TokGist(r.rest))
    decreases |ts|, 2
  {
    hide TokGist;
    hide Plus;
    hide ParsePipe;
    var p := ParsePipe(ts);
    PipeGist(ts);
    AfterGist(p.rest, p.value, |ts|);
  }

  lemma {:induction false} AfterGist(ts: seq<Tok>, t: Tree, n: nat)
    requires |ts| <= n && AfterPipe(ts, t, n).Ok?
    ensures var r := AfterPipe(ts, t, n);
      Plus(TreeGist(t), TokGist(ts)) == Plus(TreeGist(r.value), TokGist(r.rest))
    decreases n, 1, |ts|
  {
    hide TokGist;
    hide Plus;
    hide ParseLine;
    var b := Backs(ts, t);
    BacksGist(ts, t);
    if Look(b.rest) == ';' {
      var more := ParseLine(b.rest[1..]);
      SymGist(b.rest, ';');
      LineGist(b.rest[1..]);
      PlusParts(OneJoint(';'), TreeGist(more.value), TokGist(more.rest));
      PlusParts(TreeGist(b.value), Plus(OneJoint(';'), TreeGist(more.value)), TokGist(more.rest));
    }
  }

  /** A line that is parsed becomes a command with the line's words, redirections and joints, all in the order
      of the line. */
  lemma ParseGist(ts: seq<Tok>)
    ensures Parse(ts).Ok? ==> TreeGist(Parse(ts).value) == TokGist(ts)
  {
    hide Plus;
    hide ParseLine;
    if Parse(ts).Ok? {
      LineGist(ts);
      PlusParts(TreeGist(Parse(ts).value), NONE, NONE);
    }
  }

  /** In characters: the token is ">>" where two of them stand. */
  lemma TokenIs(line: string, s: nat)
    requires s < |line| && !IsSpace(line[s])
    ensures TokAt(line, s) == Sym('<') <==> line[s] == '<'
    ensures TokAt(line, s) == Sym('+') <==> s + 1 < |line| && line[s..s + 2] == ">>"
    ensures TokAt(line, s) == Sym('>') <==> line[s] == '>' && !(s + 1 < |line| && line[s + 1] == '>')
  {}

  // ----- The limit on words

  lemma {:induction false} ArgsLimit(args: seq<string>, done: seq<string>)
    requires |done| < 10
    ensures Args(Words(args), done, []) ==
            if |done| + |args| < 10 then Ok(Exec(done + args), []) else Fail(TooManyArgs)
    decreases |args|
  {
    hide Args;
    hide Redirs;
    hide Words;
    WordsAre(args);
    var none: seq<Rd> := [];
    if args == [] {
      ArgsEnd([], done, none);
      WrapNone(Exec(done));
      assert done + args == done;
    } else {
      var ts := Words(args);
      WordsAre(args[1..]);
      NoRedirs(ts[1..]);
      assert none + none == none;
      if |done| + 1 < 10 {
        ArgsStep(ts, done, none, none, ts[1..]);
        ArgsLimit(args[1..], done + [args[0]]);
        assert done + [args[0]] + args[1..] == done + args;
      } else {
        Tenth(ts, done);
      }
    }
  }

  lemma WordsAre(args: seq<string>)
    ensures args == [] ==> Words(args) == []
    ensures args != [] ==> Words(args) != [] && Words(args)[0] == Word(args[0]) && Words(args)[1..] == Words(args[1..])
    ensures !AtRedir(Words(args)) && Look(Words(args)) != '('
  {}

  lemma Tenth(ts: seq<Tok>, done: seq<string>)
    requires ts != [] && ts[0].Word? && |done| == 9
    ensures Args(ts, done, []) == Fail(TooManyArgs)
  {}

  /** A line of words alone is a command with up to nine of them; with ten there is an error. */
  lemma NineWords(args: seq<string>)
    ensures Parse(Words(args)) == if |args| < 10 then Ok(Exec(args), []) else Fail(TooManyArgs)
  {
    hide Args;
    hide Redirs;
    hide Words;
    hide ParseLine;
    hide ParseExec;
    hide Parse;
    WordsAre(args);
    ArgsLimit(args, []);
    var none: seq<string> := [];
    assert none + args == args;
    ExecStart(Words(args));
    ExecAlone(Words(args));
  }

  lemma ExecStart(ts: seq<Tok>)
    requires Look(ts) != '(' && !AtRedir(ts)
    ensures ParseExec(ts) == Args(ts, [], [])
  {
    hide Args;
    NoRedirs(ts);
  }

  lemma ExecAlone(ts: seq<Tok>)
    requires ParseExec(ts).Ok? ==> ParseExec(ts).rest == []
    ensures Parse(ts) == ParseExec(ts)
  {
    hide ParseExec;
    hide ParseLine;
    assert ParsePipe(ts) == ParseExec(ts);
    LineAlone(ts);
  }

  lemma LineAlone(ts: seq<Tok>)
    requires ParsePipe(ts).Ok? ==> ParsePipe(ts).rest == []
    ensures ParseLine(ts) == ParsePipe(ts)
  {
    hide ParsePipe;
    if ParsePipe(ts).Ok? {
      EndAlone(ParsePipe(ts).value, |ts|);
    }
  }

  lemma EndAlone(t: Tree, n: nat)
    ensures AfterPipe([], t, n) == Ok(t, [])
  {}
}
