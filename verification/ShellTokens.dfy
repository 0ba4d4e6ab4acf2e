/** The tokens of a shell command line (gettoken and peek in user/sh.c). */
module ShellTokens {

  /** A word, or a symbol; '+' stands for ">>". */
  datatype Tok = Word(text: string) | Sym(c: char)

  predicate IsSpace(c: char) {
    c == ' ' || c == '\t' || c == '\r' || c == '\n' || c == 11 as char
  }

  predicate IsSymbol(c: char) {
    c == '<' || c == '|' || c == '>' || c == '&' || c == ';' || c == '(' || c == ')'
  }

  predicate IsWordChar(c: char) {
    !IsSpace(c) && !IsSymbol(c)
  }

  /** A C string: the terminating NUL is not part of the sequence. */
  ghost predicate IsLine(line: string) {
    forall i | 0 <= i < |line| :: line[i] != '\0'
  }

  function SkipSpace(line: string, i: nat): (j: nat)
    requires i <= |line|
    ensures i <= j <= |line| && (j < |line| ==> !IsSpace(line[j]))
    decreases |line| - i
  {
    if i < |line| && IsSpace(line[i]) then SkipSpace(line, i + 1) else i
  }

  function WordEnd(line: string, i: nat): (j: nat)
    requires i <= |line|
    ensures i <= j <= |line| && (j < |line| ==> !IsWordChar(line[j])) && forall k | i <= k < j :: IsWordChar(line[k])
    decreases |line| - i
  {
    if i < |line| && IsWordChar(line[i]) then WordEnd(line, i + 1) else i
  }

  /** Where the token that starts at `s` ends. */
  function TokEnd(line: string, s: nat): (e: nat)
    requires s < |line| && !IsSpace(line[s])
    ensures s < e <= |line|
  {
    if line[s] == '>' && s + 1 < |line| && line[s + 1] == '>' then s + 2
    else if IsSymbol(line[s]) then s + 1
    else WordEnd(line, s)
  }

  function TokAt(line: string, s: nat): Tok
    requires s < |line| && !IsSpace(line[s])
  {
    if line[s] == '>' && s + 1 < |line| && line[s + 1] == '>' then Sym('+')
    else if IsSymbol(line[s]) then Sym(line[s])
    else Word(line[s..WordEnd(line, s)])
  }

  /** All tokens from position `i` on. */
  function Toks(line: string, i: nat): (ts: seq<Tok>)
    requires i <= |line|
    decreases |line| - i
  {
    var s := SkipSpace(line, i);
    if s == |line| then [] else [TokAt(line, s)] + Toks(line, TokEnd(line, s))
  }

  lemma {:induction false} SkipTwice(line: string, i: nat)
    requires i <= |line|
    ensures SkipSpace(line, SkipSpace(line, i)) == SkipSpace(line, i)
    ensures Toks(line, SkipSpace(line, i)) == Toks(line, i)
  {}

  /** What gettoken returns for a token. */
  function Code(t: Tok): char {
    if t.Word? then 'a' else t.c
  }

  /** What peek sees of the next token: the character of a symbol, '+' being a '>' to it; 'a' for a word. */
  function Look(ts: seq<Tok>): char {
    if ts == [] then '\0' else if ts[0].Word? then 'a' else if ts[0].c == '+' then '>' else ts[0].c
  }

  /** The position is not in the middle of a word. */
  predicate Boundary(line: string, i: nat) {
    0 < i < |line| ==> !IsWordChar(line[i - 1]) || !IsWordChar(line[i])
  }

  lemma {:induction false} SkipBoundary(line: string, i: nat)
    requires i <= |line| && Boundary(line, i)
    ensures Boundary(line, SkipSpace(line, i))
    decreases |line| - i
  {
    if i < |line| && IsSpace(line[i]) {
      SkipBoundary(line, i + 1);
    }
  }

  // ----- The code

  lemma TokenRead(line: string, pos: nat, q: nat, eq: nat, next: nat)
    requires IsLine(line) && pos <= |line| && Boundary(line, pos) && q == SkipSpace(line, pos) < |line|
    requires eq == TokEnd(line, q) && next == SkipSpace(line, eq)
    ensures Toks(line, pos) == [TokAt(line, q)] + Toks(line, next)
    ensures Boundary(line, q) && Boundary(line, next) && (Code(TokAt(line, q)) == 'a' <==> TokAt(line, q).Word?)
    ensures Code(TokAt(line, q)) != '\0'
  {
    SkipTwice(line, eq);
    SkipBoundary(line, pos);
    assert Boundary(line, eq);
    SkipBoundary(line, eq);
  }

  lemma NothingRead(line: string, pos: nat)
    requires pos <= |line| == SkipSpace(line, pos)
    ensures Toks(line, pos) == Toks(line, |line|) == [] && Boundary(line, |line|)
  {}

  lemma SomethingThere(line: string, pos: nat)
    requires pos <= |line| && SkipSpace(line, pos) < |line|
    ensures Toks(line, pos) != []
  {}

  /** gettoken: what it returns, the bounds of the token, and the new position. */
  method GetToken(line: string, pos: nat) returns (ret: char, q: nat, eq: nat, next: nat)
    requires IsLine(line) && pos <= |line| && Boundary(line, pos)
    ensures pos <= q <= eq <= next <= |line| && Boundary(line, next) && Boundary(line, q)
    ensures ret == '\0' <==> Toks(line, pos) == []
    ensures ret == '\0' ==> Toks(line, next) == []
    ensures ret != '\0' ==>
              q == SkipSpace(line, pos) < |line| && eq == TokEnd(line, q) > pos
                  && Toks(line, pos) == [TokAt(line, q)] + Toks(line, next)
              && ret == Code(TokAt(line, q)) && (ret == 'a' <==> TokAt(line, q).Word?)
  {
    hide Toks;
    hide Boundary;
    var s := pos;
    while s < |line| && IsSpace(line[s])
      invariant pos <= s <= |line| && SkipSpace(line, s) == SkipSpace(line, pos)
    {
      s := s + 1;
    }
    q := s;
    if s == |line| {
      ret := '\0';
      NothingRead(line, pos);
    } else {
      var c := line[s];
      ret := c;
      if c == '|' || c == '(' || c == ')' || c == ';' || c == '&' || c == '<' {
        s := s + 1;
      } else if c == '>' {
        s := s + 1;
        if s < |line| && line[s] == '>' {
          ret := '+';
          s := s + 1;
        }
      } else {
        ret := 'a';
        while s < |line| && !IsSpace(line[s]) && !IsSymbol(line[s])
          invariant q <= s <= |line| && WordEnd(line, s) == WordEnd(line, q)
        {
          s := s + 1;
        }
      }
    }
    eq := s;
    while s < |line| && IsSpace(line[s])
      invariant eq <= s <= |line| && SkipSpace(line, s) == SkipSpace(line, eq)
    {
      s := s + 1;
    }
    next := s;
    if q < |line| {
      TokenRead(line, pos, q, eq, next);
      SomethingThere(line, pos);
    }
  }

  /** peek */
  method Peek(line: string, pos: nat, toks: string) returns (found: bool, next: nat)
    requires IsLine(line) && pos <= |line| && Boundary(line, pos) && forall c | c in toks :: IsSymbol(c)
    ensures pos <= next <= |line| && Boundary(line, next) && Toks(line, next) == Toks(line, pos)
    ensures next == |line| <==> Toks(line, pos) == []
    ensures found <==> Look(Toks(line, pos)) in toks
  {
    var s := pos;
    while s < |line| && IsSpace(line[s])
      invariant pos <= s <= |line| && SkipSpace(line, s) == SkipSpace(line, pos)
    {
      s := s + 1;
    }
    next := s;
    SkipTwice(line, pos);
    SkipBoundary(line, pos);
    found := s < |line| && line[s] in toks;
  }

  // ----- Writing tokens out

  function Spelling(t: Tok): string {
    match t
    case Word(w) => w
    case Sym(c) => if c == '+' then ">>" else [c]
  }

  /** A nonempty word without NUL, white space and symbols, or a symbol of the shell. */
  predicate Good(t: Tok) {
    match t
    case Word(w) => w != [] && forall i | 0 <= i < |w| :: IsWordChar(w[i]) && w[i] != '\0'
    case Sym(c) => c == '+' || IsSymbol(c)
  }

  /** The tokens, each followed by a blank. */
  function Spell(ts: seq<Tok>): string {
    if ts == [] then "" else Spelling(ts[0]) + " " + Spell(ts[1..])
  }

  lemma {:induction false} WordEndIs(line: string, i: nat, j: nat)
    requires i <= j < |line| && !IsWordChar(line[j]) && forall k | i <= k < j :: IsWordChar(line[k])
    ensures WordEnd(line, i) == j
    decreases j - i
  {
    if i < j {
      WordEndIs(line, i + 1, j);
    }
  }

  lemma SpelledTok(pre: string, t: Tok, rest: string)
    requires Good(t)
    ensures var line, s := pre + Spelling(t) + " " + rest, |pre|;
      !IsSpace(line[s]) && TokAt(line, s) == t && TokEnd(line, s) == s + |Spelling(t)|
  {
    var line, s, e := pre + Spelling(t) + " " + rest, |pre|, |pre| + |Spelling(t)|;
    assert line[s..e] == Spelling(t);
    assert line[e] == ' ';
    match t
    case Word(w) =>
      assert forall k | s <= k < e :: line[k] == w[k - s];
      WordEndIs(line, s, e);
    case Sym(c) =>
      assert line[s] == Spelling(t)[0];
      if c == '+' {
        assert line[s + 1] == '>';
      }
  }

  /** What is written out is read back. */
  lemma {:induction false} SpellToks(pre: string, ts: seq<Tok>)
    requires forall i | 0 <= i < |ts| :: Good(ts[i])
    ensures Toks(pre + Spell(ts), |pre|) == ts
    decreases |ts|
  {
    hide Toks;
    hide TokAt;
    hide TokEnd;
    hide Good;
    var line := pre + Spell(ts);
    if ts == [] {
      NothingRead(line, |pre|);
    } else {
      var t, rest := ts[0], Spell(ts[1..]);
      var e := |pre| + |Spelling(t)|;
      SpelledTok(pre, t, rest);
      assert line == pre + Spelling(t) + " " + rest;
      assert line == (pre + Spelling(t) + " ") + rest;
      SpellToks(pre + Spelling(t) + " ", ts[1..]);
      assert line[e] == ' ';
      ToksStep(line, |pre|, e);
      assert [t] + ts[1..] == ts;
    }
  }

  lemma ToksStep(line: string, s: nat, e: nat)
    requires s < |line| && !IsSpace(line[s]) && e == TokEnd(line, s) < |line| && line[e] == ' '
    ensures Toks(line, s) == [TokAt(line, s)] + Toks(line, e + 1)
  {
    assert SkipSpace(line, e) == SkipSpace(line, e + 1);
  }

  lemma {:induction false} SpellIsLine(ts: seq<Tok>)
    requires forall i | 0 <= i < |ts| :: Good(ts[i])
    ensures IsLine(Spell(ts))
  {
    if ts != [] {
      SpellIsLine(ts[1..]);
      assert forall i | 0 <= i < |Spelling(ts[0])| :: Spelling(ts[0])[i] != '\0';
    }
  }

  /** Every token of a line is good. */
  lemma {:induction false} ToksGood(line: string, i: nat)
    requires IsLine(line) && i <= |line|
    ensures forall k | 0 <= k < |Toks(line, i)| :: Good(Toks(line, i)[k])
    decreases |line| - i
  {
    var s := SkipSpace(line, i);
    if s < |line| {
      ToksGood(line, TokEnd(line, s));
      assert Good(TokAt(line, s));
    }
  }
}
