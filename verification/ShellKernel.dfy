/** The parser of sh.c on characters, and nulterminate on the line buffer. */
module ShellKernel {
  import opened ShellGrammar
  import opened ShellParse
  import opened ShellTree
  import opened ShellLex

  /** The next token: its kind ('\0' at the end), its place, and the position after it. */
  method Gettoken(s: string, pos: int) returns (tok: char, q: int, eq: int, next: int)
    requires NulFree(s) && 0 <= pos <= |s|
    ensures pos <= next <= |s|
    ensures tok == '\0' <==> Tokens(s, pos) == []
    ensures Tokens(s, pos) == [] ==> Tokens(s, next) == []
    ensures Tokens(s, pos) != [] ==> Token(tok, q, eq) == Tokens(s, pos)[0] && pos < next
                                     && Tokens(s, next) == Tokens(s, pos)[1..]
  {
    var i := SkipSpace(s, pos);
    q := i;
    tok := At(s, i);
    if tok != '\0' {
      KindChar(s, i);
      if tok == '|' || tok == '(' || tok == ')' || tok == ';' || tok == '&' || tok == '<' {
        i := i + 1;
      } else if tok == '>' {
        i := i + 1;
        if At(s, i) == '>' {
          tok := '+';
          i := i + 1;
        }
      } else {
        tok := 'a';
        while i < |s| && !IsSpace(s[i]) && !IsSymbol(s[i])
          invariant q <= i <= |s| && WordEnd(s, i) == WordEnd(s, q)
        {
          i := i + 1;
        }
      }
      assert Token(tok, q, i) == TokenAt(s, q);
    }
    eq := i;
    next := SkipSpace(s, i);
    SkipSkip(s, i);
  }

  method SkipSpace(s: string, pos: int) returns (i: int)
    requires 0 <= pos <= |s|
    ensures i == Skip(s, pos)
  {
    i := pos;
    while i < |s| && IsSpace(s[i])
      invariant pos <= i <= |s| && Skip(s, i) == Skip(s, pos)
    {
      i := i + 1;
    }
  }

  /** Whether the next token starts with one of toks. */
  method Peek(s: string, pos: int, toks: string) returns (found: bool, next: int)
    requires NulFree(s) && 0 <= pos <= |s|
    ensures next == Skip(s, pos) && Tokens(s, next) == Tokens(s, pos)
    ensures found <==> next < |s| && s[next] in toks
    ensures next < |s| <==> Tokens(s, pos) != []
    ensures next < |s| ==> Tokens(s, pos)[0] == TokenAt(s, next)
  {
    next := SkipSpace(s, pos);
    SkipSkip(s, pos);
    found := At(s, next) != '\0' && At(s, next) in toks;
  }

  // ------------------------------------------- what the parsers promise

  /** Parsing from pos gave r and stopped at next, just as PRedirs does on tokens. */
  predicate RedirsParsed(cmd: Cmd, s: string, pos: int, r: Option<Cmd>, next: int)
    requires 0 <= pos <= next <= |s|
  {
    match PRedirs(Tokens(s, pos))
    case Fail => r.None?
    case Got(rs, rest) => r == Some(Wrap(cmd, rs)) && Tokens(s, next) == rest
  }

  predicate ItemsParsed(s: string, pos: int, r: Option<Cmd>, next: int)
    requires 0 <= pos <= next <= |s|
  {
    match PItems(Tokens(s, pos), 0)
    case Fail => r.None?
    case Got(items, rest) => r == Some(Built(items)) && Tokens(s, next) == rest
  }

  predicate ExecParsed(s: string, pos: int, r: Option<Cmd>, next: int)
    requires 0 <= pos <= next <= |s|
  {
    match PExec(Tokens(s, pos))
    case Fail => r.None?
    case Got(e, rest) => r == Some(ExecutedCmd(e)) && Tokens(s, next) == rest
  }

  predicate PipeParsed(s: string, pos: int, r: Option<Cmd>, next: int)
    requires 0 <= pos <= next <= |s|
  {
    match PPipe(Tokens(s, pos))
    case Fail => r.None?
    case Got(p, rest) => r == Some(PipelineCmd(p)) && Tokens(s, next) == rest
  }

  predicate LineParsed(s: string, pos: int, r: Option<Cmd>, next: int)
    requires 0 <= pos <= next <= |s|
  {
    match PLine(Tokens(s, pos))
    case Fail => r.None?
    case Got(l, rest) => r == Some(LineCmd(l)) && Tokens(s, next) == rest
  }

  /** The whole line, which must be used up. */
  predicate CmdParsed(s: string, r: Option<Cmd>)
  {
    match Parse(Tokens(s, 0))
    case None => r.None?
    case Some(l) => r == Some(LineCmd(l))
  }

  /** The tree is the one that the tokens used up give when split at their operators. */
  ghost predicate SingleRead(s: string, pos: int, r: Option<Cmd>, next: int)
    requires 0 <= pos <= next <= |s|
  {
    r.Some? ==> exists ts :: Tokens(s, pos) == ts + Tokens(s, next) && r.value == SingleTree(ts)
  }

  ghost predicate PipeRead(s: string, pos: int, r: Option<Cmd>, next: int)
    requires 0 <= pos <= next <= |s|
  {
    r.Some? ==> exists ts :: Tokens(s, pos) == ts + Tokens(s, next) && r.value == PipeTree(ts)
  }

  ghost predicate LineRead(s: string, pos: int, r: Option<Cmd>, next: int)
    requires 0 <= pos <= next <= |s|
  {
    r.Some? ==> exists ts :: Tokens(s, pos) == ts + Tokens(s, next) && r.value == Tree(ts)
  }

  lemma SingleParsed(s: string, pos: int, r: Option<Cmd>, next: int)
    requires 0 <= pos <= next <= |s| && ExecParsed(s, pos, r, next)
    ensures SingleRead(s, pos, r, next)
  {
    if r.Some? {
      ExecSound(Tokens(s, pos));
      CommandTree(PExec(Tokens(s, pos)).value);
    }
  }

  lemma PipelineParsed(s: string, pos: int, r: Option<Cmd>, next: int)
    requires 0 <= pos <= next <= |s| && PipeParsed(s, pos, r, next)
    ensures PipeRead(s, pos, r, next)
  {
    if r.Some? {
      PipeSound(Tokens(s, pos));
      PipelineTree(PPipe(Tokens(s, pos)).value);
    }
  }

  lemma WholeParsed(s: string, pos: int, r: Option<Cmd>, next: int)
    requires 0 <= pos <= next <= |s| && LineParsed(s, pos, r, next)
    ensures LineRead(s, pos, r, next)
  {
    if r.Some? {
      LineSound(Tokens(s, pos));
      LineTree(PLine(Tokens(s, pos)).value);
    }
  }

  // ------------------------------------------------------ redirections

  function Joined<T>(done: seq<T>, r: Parsed<seq<T>>): Parsed<seq<T>>
  {
    if r.Fail? then Fail else Got(done + r.value, r.rest)
  }

  lemma JoinedNone<T>(r: Parsed<seq<T>>)
    ensures Joined([], r) == r
  {
    if r.Got? {
      assert [] + r.value == r.value;
    }
  }

  lemma JoinedMore<T>(done: seq<T>, x: T, r: Parsed<seq<T>>)
    ensures Joined(done, Joined([x], r)) == Joined(done + [x], r)
  {
    if r.Got? {
      assert done + ([x] + r.value) == done + [x] + r.value;
    }
  }

  method Parseredirs(cmd: Cmd, s: string, pos: int) returns (r: Option<Cmd>, next: int)
    requires NulFree(s) && 0 <= pos <= |s|
    ensures pos <= next <= |s|
    ensures RedirsParsed(cmd, s, pos, r, next)
  {
    var c := cmd;
    ghost var done: seq<Redir> := [];
    ghost var all := PRedirs(Tokens(s, pos));
    var more;
    more, next := PeekOp(s, pos);
    JoinedNone(all);
    while more
      invariant pos <= next <= |s| && c == Wrap(cmd, done) && all == Joined(done, PRedirs(Tokens(s, next)))
      invariant more <==> Tokens(s, next) != [] && IsOp(Tokens(s, next)[0])
      decreases |s| - next
    {
      ghost var ts := Tokens(s, next);
      var op, q0, e0, file, q, eq;
      op, q0, e0, next := Gettoken(s, next);
      file, q, eq, next := Gettoken(s, next);
      if file != 'a' {
        return None, next;
      }
      ghost var x := Redir(Token(op, q0, e0), Token(file, q, eq));
      assert ts[0] == x.op && ts[1] == x.file && Tokens(s, next) == ts[2..];
      JoinedMore(done, x, PRedirs(ts[2..]));
      WrapSnoc(cmd, done, x);
      c := if op == '<' then RedirCmd(c, Word(q, eq), O_RDONLY, 0)
        else RedirCmd(c, Word(q, eq), O_WRONLY + O_CREATE, 1);
      done := done + [x];
      more, next := PeekOp(s, next);
    }
    assert done + [] == done;
    r := Some(c);
  }

  method PeekOp(s: string, pos: int) returns (found: bool, next: int)
    requires NulFree(s) && 0 <= pos <= |s|
    ensures pos <= next <= |s| && Tokens(s, next) == Tokens(s, pos)
    ensures found <==> Tokens(s, pos) != [] && IsOp(Tokens(s, pos)[0])
  {
    found, next := Peek(s, pos, "<>");
    if next < |s| {
      KindChar(s, next);
    }
  }

  // -------------------------------------------------- simple commands

  /** Arguments and redirections may be read in one go or by turns. */
  lemma {:induction false} ItemsRedirs(ts: seq<Token>, argc: int)
    ensures var r := PRedirs(ts);
            if r.Fail? then PItems(ts, argc).Fail?
            else
              && PItems(ts, argc) == Joined(RedItems(r.value), PItems(r.rest, argc))
              && (r.rest == [] || !IsOp(r.rest[0]))
    decreases |ts|
  {
    if ts == [] || !IsOp(ts[0]) {
      JoinedNone(PItems(ts, argc));
      assert RedItems([]) == [];
    } else if |ts| >= 2 && ts[1].kind == 'a' {
      ItemsRedirs(ts[2..], argc);
      var r := PRedirs(ts[2..]);
      if r.Got? {
        var x := Redir(ts[0], ts[1]);
        assert RedItems([x] + r.value) == [Red(x)] + RedItems(r.value);
        JoinedCat([Red(x)], RedItems(r.value), PItems(r.rest, argc));
      }
    }
  }

  lemma JoinedCat<T>(a: seq<T>, b: seq<T>, r: Parsed<seq<T>>)
    ensures Joined(a, Joined(b, r)) == Joined(a + b, r)
  {
    if r.Got? {
      assert a + (b + r.value) == a + b + r.value;
    }
  }

  method PeekEnd(s: string, pos: int) returns (found: bool, next: int)
    requires NulFree(s) && 0 <= pos <= |s|
    ensures pos <= next <= |s| && Tokens(s, next) == Tokens(s, pos)
    ensures found <==> Tokens(s, pos) != [] && Ends(Tokens(s, pos)[0])
  {
    found, next := Peek(s, pos, "|)&;");
    if next < |s| {
      KindChar(s, next);
    }
  }

  /** In the middle of a simple command: items have been read and ts is to come. */
  ghost predicate Reading(all: Parsed<seq<Item>>, items: seq<Item>, c: Cmd, argv: seq<Word>, ts: seq<Token>)
  {
    && c == Built(items) && argv == Args(items) && |argv| < MAXARGS
    && all == Joined(items, PItems(ts, |argv|)) && (ts == [] || !IsOp(ts[0]))
  }

  lemma {:induction false} ReadingStart(ts: seq<Token>)
    requires PRedirs(ts).Got?
    ensures var r := PRedirs(ts);
            Reading(PItems(ts, 0), RedItems(r.value), Wrap(ExecCmd([]), r.value), [], r.rest)
  {
    ItemsRedirs(ts, 0);
    ArgsOfReds(PRedirs(ts).value);
  }

  /** An argument and the redirections behind it. */
  lemma {:induction false} ReadingArg(all: Parsed<seq<Item>>, items: seq<Item>, c: Cmd, argv: seq<Word>, ts: seq<Token>)
    requires Reading(all, items, c, argv, ts) && ts != [] && ts[0].kind == 'a'
    ensures var argv' := argv + [WordOf(ts[0])];
            if |argv'| >= MAXARGS || PRedirs(ts[1..]).Fail? then all.Fail?
            else var r := PRedirs(ts[1..]);
                 Reading(all, items + [Arg(ts[0])] + RedItems(r.value), Wrap(Fill(c, argv'), r.value), argv', r.rest)
  {
    var argv' := argv + [WordOf(ts[0])];
    var items' := items + [Arg(ts[0])];
    BuiltArg(items, ts[0]);
    if |argv'| < MAXARGS {
      JoinedMore(items, Arg(ts[0]), PItems(ts[1..], |argv'|));
      ItemsRedirs(ts[1..], |argv'|);
      var r := PRedirs(ts[1..]);
      if r.Got? {
        BuiltRedirs(items', r.value);
        JoinedCat(items', RedItems(r.value), PItems(r.rest, |argv'|));
      }
    }
  }

  /** parseexec when there is no block. */
  method Parsesimple(s: string, pos: int) returns (r: Option<Cmd>, next: int)
    requires NulFree(s) && 0 <= pos <= |s|
    ensures pos <= next <= |s|
    ensures ItemsParsed(s, pos, r, next)
  {
    ghost var all, ts := PItems(Tokens(s, pos), 0), Tokens(s, pos);
    ItemsRedirs(ts, 0);
    r, next := Parseredirs(ExecCmd([]), s, pos);
    if r.None? {
      return;
    }
    ReadingStart(ts);
    ghost var items := RedItems(PRedirs(ts).value);
    var argv: seq<Word> := [];
    var stop;
    stop, next := PeekEnd(s, next);
    while !stop
      invariant pos <= next <= |s| && r.Some? && Reading(all, items, r.value, argv, Tokens(s, next))
      invariant stop <==> Tokens(s, next) != [] && Ends(Tokens(s, next)[0])
      decreases |s| - next
    {
      ts := Tokens(s, next);
      var tok, q, eq;
      tok, q, eq, next := Gettoken(s, next);
      if tok == '\0' {
        break;
      }
      if tok != 'a' {
        return None, next;
      }
      ReadingArg(all, items, r.value, argv, ts);
      argv := argv + [Word(q, eq)];
      if |argv| >= MAXARGS {
        return None, next;
      }
      r, next := Parseredirs(Fill(r.value, argv), s, next);
      if r.None? {
        return;
      }
      items := items + [Arg(ts[0])] + RedItems(PRedirs(ts[1..]).value);
      stop, next := PeekEnd(s, next);
    }
    assert items + [] == items;
  }

  // ----------------------------------------------- the recursive parser

  method PeekKind(s: string, pos: int, kind: char) returns (found: bool, next: int)
    requires NulFree(s) && 0 <= pos <= |s| && kind in "|();&"
    ensures pos <= next <= |s| && Tokens(s, next) == Tokens(s, pos)
    ensures found <==> Tokens(s, pos) != [] && Tokens(s, pos)[0].kind == kind
  {
    found, next := Peek(s, pos, [kind]);
    if next < |s| {
      KindChar(s, next);
      assert kind in "|();&<";
    }
  }

  method Parseblock(s: string, pos: int) returns (r: Option<Cmd>, next: int)
    requires NulFree(s) && 0 <= pos <= |s|
    ensures pos <= next <= |s|
    ensures Tokens(s, pos) == [] || Tokens(s, pos)[0].kind != '(' ==> r.None?
    ensures Tokens(s, pos) != [] && Tokens(s, pos)[0].kind == '(' ==> ExecParsed(s, pos, r, next)
    decreases |s| - pos, 0
  {
    ghost var ts := Tokens(s, pos);
    var found;
    found, next := PeekKind(s, pos, '(');
    if !found {
      return None, next;
    }
    var tok, q, eq;
    tok, q, eq, next := Gettoken(s, next);
    r, next := Parseline(s, next);
    if r.None? {
      return;
    }
    found, next := PeekKind(s, next, ')');
    if !found {
      return None, next;
    }
    tok, q, eq, next := Gettoken(s, next);
    r, next := Parseredirs(r.value, s, next);
  }

  method Parseexec(s: string, pos: int) returns (r: Option<Cmd>, next: int)
    requires NulFree(s) && 0 <= pos <= |s|
    ensures pos <= next <= |s|
    ensures ExecParsed(s, pos, r, next) && SingleRead(s, pos, r, next)
    decreases |s| - pos, 1
  {
    var found;
    found, next := PeekKind(s, pos, '(');
    if found {
      r, next := Parseblock(s, next);
    } else {
      r, next := Parsesimple(s, next);
    }
    SingleParsed(s, pos, r, next);
  }

  method Parsepipe(s: string, pos: int) returns (r: Option<Cmd>, next: int)
    requires NulFree(s) && 0 <= pos <= |s|
    ensures pos <= next <= |s|
    ensures PipeParsed(s, pos, r, next) && PipeRead(s, pos, r, next)
    decreases |s| - pos, 2
  {
    r, next := Parseexec(s, pos);
    if r.None? {
      return;
    }
    var found;
    found, next := PeekKind(s, next, '|');
    if found {
      var tok, q, eq;
      tok, q, eq, next := Gettoken(s, next);
      var right;
      right, next := Parsepipe(s, next);
      r := if right.None? then None else Some(PipeCmd(r.value, right.value));
    }
    PipelineParsed(s, pos, r, next);
  }

  lemma {:induction false} AmpsFrom(ts: seq<Token>, k: nat)
    requires k <= Amps(ts)
    ensures Amps(ts[k..]) == Amps(ts) - k
  {
    if k == 0 {
      assert ts[0..] == ts;
    } else {
      AmpsFrom(ts[1..], k - 1);
      assert ts[1..][k - 1..] == ts[k..];
    }
  }

  /** The & signs behind a pipeline. */
  method Parseamps(c0: Cmd, s: string, pos: int) returns (c: Cmd, next: int)
    requires NulFree(s) && 0 <= pos <= |s|
    ensures pos <= next <= |s|
    ensures var n := Amps(Tokens(s, pos)); c == Backed(c0, n) && Tokens(s, next) == Tokens(s, pos)[n..]
  {
    ghost var ts, k := Tokens(s, pos), 0;
    c := c0;
    var more;
    more, next := PeekKind(s, pos, '&');
    while more
      invariant pos <= next <= |s| && 0 <= k <= Amps(ts) && Tokens(s, next) == ts[k..] && c == Backed(c0, k)
      invariant more <==> ts[k..] != [] && ts[k..][0].kind == '&'
      decreases |s| - next
    {
      AmpsFrom(ts, k);
      BackedSnoc(c0, k);
      var tok, q, eq;
      tok, q, eq, next := Gettoken(s, next);
      c := BackCmd(c);
      k := k + 1;
      assert Tokens(s, next) == ts[k..];
      more, next := PeekKind(s, next, '&');
    }
    AmpsFrom(ts, k);
  }

  method Parseline(s: string, pos: int) returns (r: Option<Cmd>, next: int)
    requires NulFree(s) && 0 <= pos <= |s|
    ensures pos <= next <= |s|
    ensures LineParsed(s, pos, r, next) && LineRead(s, pos, r, next)
    decreases |s| - pos, 3
  {
    r, next := Parsepipe(s, pos);
    if r.None? {
      return;
    }
    var c;
    c, next := Parseamps(r.value, s, next);
    r := Some(c);
    var found;
    found, next := PeekKind(s, next, ';');
    if found {
      var tok, q, eq;
      tok, q, eq, next := Gettoken(s, next);
      var right;
      right, next := Parseline(s, next);
      r := if right.None? then None else Some(ListCmd(c, right.value));
    }
    WholeParsed(s, pos, r, next);
  }

  // ------------------------------------------------------ terminators

  ghost predicate EndsWithin(ws: multiset<Word>, n: int)
  {
    forall w | w in ws :: 0 <= w.end < n
  }

  lemma EndsEither(a: multiset<Word>, b: multiset<Word>, i: int)
    ensures EndsAt(a + b, i) <==> EndsAt(a, i) || EndsAt(b, i)
  {
    if EndsAt(a, i) {
      var w :| w in a && w.end == i;
      assert w in a + b;
    }
    if EndsAt(b, i) {
      var w :| w in b && w.end == i;
      assert w in a + b;
    }
  }

  /** Writes a zero behind every word of the tree, and nothing else. */
  method Nulterminate(cmd: Cmd, buf: array<char>)
    requires EndsWithin(Held(cmd), buf.Length)
    modifies buf
    ensures forall i | 0 <= i < buf.Length :: buf[i] == if EndsAt(Held(cmd), i) then '\0' else old(buf[i])
    decreases cmd
  {
    match cmd {
      case ExecCmd(argv) =>
        NulterminateArgs(argv, buf);
      case RedirCmd(c, file, _, _) =>
        assert file in Held(cmd);
        Nulterminate(c, buf);
        buf[file.end] := '\0';
        forall i | 0 <= i < buf.Length ensures EndsAt(Held(cmd), i) <==> EndsAt(Held(c), i) || i == file.end {
          EndsEither(Held(c), multiset{file}, i);
          assert i == file.end ==> file in multiset{file};
        }
      case PipeCmd(left, right) =>
        Nulterminate(left, buf);
        Nulterminate(right, buf);
        forall i | 0 <= i < buf.Length
          ensures EndsAt(Held(cmd), i) <==> EndsAt(Held(left), i) || EndsAt(Held(right), i)
        {
          EndsEither(Held(left), Held(right), i);
        }
      case ListCmd(left, right) =>
        Nulterminate(left, buf);
        Nulterminate(right, buf);
        forall i | 0 <= i < buf.Length
          ensures EndsAt(Held(cmd), i) <==> EndsAt(Held(left), i) || EndsAt(Held(right), i)
        {
          EndsEither(Held(left), Held(right), i);
        }
      case BackCmd(c) =>
        Nulterminate(c, buf);
    }
  }

  method NulterminateArgs(argv: seq<Word>, buf: array<char>)
    requires EndsWithin(multiset(argv), buf.Length)
    modifies buf
    ensures forall i | 0 <= i < buf.Length :: buf[i] == if EndsAt(multiset(argv), i) then '\0' else old(buf[i])
  {
    var k := 0;
    while k < |argv|
      invariant 0 <= k <= |argv|
      invariant forall i | 0 <= i < buf.Length :: buf[i] == if EndsAt(multiset(argv[..k]), i) then '\0' else old(buf[i])
    {
      assert argv[k] in multiset(argv);
      buf[argv[k].end] := '\0';
      assert argv[..k + 1] == argv[..k] + [argv[k]];
      forall i | 0 <= i < buf.Length
        ensures EndsAt(multiset(argv[..k + 1]), i) <==> EndsAt(multiset(argv[..k]), i) || i == argv[k].end
      {
        EndsEither(multiset(argv[..k]), multiset([argv[k]]), i);
        assert i == argv[k].end ==> argv[k] in multiset([argv[k]]);
      }
      k := k + 1;
    }
    assert argv[..k] == argv;
  }

  /** The word reads back from the buffer as it stood in the line. */
  predicate ReadsAs(s: string, t: string, w: Word)
  {
    0 <= w.start < w.end <= |s| < |t| && CString(t, w.start) == s[w.start..w.end]
  }

  lemma TokensAscend(s: string)
    ensures Ascending(Tokens(s, 0))
  {
    var ts := Tokens(s, 0);
    TokensFrom(s, 0);
    TokensSeparated(s, 0);
    forall k, l | 0 <= k < l < |ts| ensures ts[k].start < ts[l].start {
      assert ts[k] == TokenAt(s, ts[k].start);
    }
  }

  lemma {:induction false} ParsedHolds(s: string, l: Line)
    requires Parse(Tokens(s, 0)) == Some(l)
    ensures Held(LineCmd(l)) == Words(Tokens(s, 0)) && EndsWithin(Words(Tokens(s, 0)), |s| + 1)
    ensures LineCmd(l) == Tree(Tokens(s, 0)) && LeftToRight(LineCmd(l)) == WordSeq(Tokens(s, 0))
  {
    var ts := Tokens(s, 0);
    ParseIff(ts, l);
    LineHolds(l);
    LineTree(l);
    TokensAscend(s);
    LineReads(l);
    forall w | w in Words(ts) ensures 0 <= w.end < |s| + 1 {
      WordsAre(ts, w);
      TokensFrom(s, 0);
    }
  }

  lemma {:induction false} AllReadBack(s: string, t: string, ws: multiset<Word>)
    requires NulFree(s) && |t| == |s| + 1 && ws == Words(Tokens(s, 0))
    requires forall i | 0 <= i <= |s| :: t[i] == if EndsAt(ws, i) then '\0' else At(s, i)
    ensures forall w | w in ws :: ReadsAs(s, t, w)
  {
    forall w | w in ws ensures ReadsAs(s, t, w) {
      ReadsBack(s, t, w);
    }
  }

  /** parsecmd before nulterminate: a tree for exactly the lines of the grammar. */
  method Parsewhole(s: string) returns (r: Option<Cmd>)
    requires NulFree(s)
    ensures CmdParsed(s, r)
  {
    var next, found;
    r, next := Parseline(s, 0);
    if r.None? {
      return;
    }
    found, next := Peek(s, next, "");
    if next != |s| {
      return None;
    }
  }

  /** The whole parser on a line buffer that ends in a zero: it fails exactly on lines
      outside the grammar; otherwise the tree is the derivation's, holds every word once,
      and each of its words reads back from the buffer. */
  method Parsecmd(buf: array<char>) returns (r: Option<Cmd>)
    requires buf.Length > 0 && buf[buf.Length - 1] == '\0' && NulFree(buf[..buf.Length - 1])
    modifies buf
    ensures var s := old(buf[..buf.Length - 1]);
            && CmdParsed(s, r)
            && (r.None? ==> buf[..] == old(buf[..]))
            && (r.Some? ==> r.value == Tree(Tokens(s, 0)) && LeftToRight(r.value) == WordSeq(Tokens(s, 0))
                            && Held(r.value) == Words(Tokens(s, 0))
                            && forall w | w in Held(r.value) :: ReadsAs(s, buf[..], w))
  {
    var s := buf[..buf.Length - 1];
    r := Parsewhole(s);
    if r.None? {
      return;
    }
    ParsedHolds(s, Parse(Tokens(s, 0)).value);
    ghost var ws := Held(r.value);
    Nulterminate(r.value, buf);
    ghost var t := buf[..];
    assert forall i | 0 <= i <= |s| :: t[i] == if EndsAt(ws, i) then '\0' else At(s, i);
    AllReadBack(s, t, ws);
  }
}
