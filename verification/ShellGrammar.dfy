/** The command language of sh.c: its tokens, its grammar as derivation trees, the command
    tree a derivation stands for, and a parser on token sequences. */
module ShellGrammar {

  datatype Option<T> = None | Some(value: T)

  const MAXARGS := 10

  /** kind is '|', '(', ')', ';', '&', '<', '>', '+' for >> or 'a' for a word. */
  datatype Token = Token(kind: char, start: int, end: int)

  /** A word by its place in the line. */
  datatype Word = Word(start: int, end: int)

  function WordOf(t: Token): Word
  {
    Word(t.start, t.end)
  }

  // ------------------------------------------------------- derivations

  datatype Redir = Redir(op: Token, file: Token)

  datatype Item = Arg(w: Token) | Red(r: Redir)

  /** line: pipe &* (; line)?    pipe: exec (| pipe)?    exec: ( line ) redir* or item* */
  datatype Line = Last(p: Pipe, amps: seq<Token>) | Then(p: Pipe, amps: seq<Token>, semi: Token, rest: Line)

  datatype Pipe = One(e: Exec) | Into(e: Exec, bar: Token, rest: Pipe)

  datatype Exec = Block(open: Token, l: Line, close: Token, rs: seq<Redir>) | Simple(items: seq<Item>)

  predicate IsOp(t: Token)
  {
    t.kind == '<' || t.kind == '>' || t.kind == '+'
  }

  predicate RedirOk(r: Redir)
  {
    IsOp(r.op) && r.file.kind == 'a'
  }

  predicate ItemOk(i: Item)
  {
    match i
    case Arg(w) => w.kind == 'a'
    case Red(r) => RedirOk(r)
  }

  function Args(items: seq<Item>): seq<Word>
  {
    if items == [] then [] else (if items[0].Arg? then [WordOf(items[0].w)] else []) + Args(items[1..])
  }

  function Reds(items: seq<Item>): seq<Redir>
  {
    if items == [] then [] else (if items[0].Red? then [items[0].r] else []) + Reds(items[1..])
  }

  predicate LineOk(l: Line)
  {
    && PipeOk(l.p) && (forall i | 0 <= i < |l.amps| :: l.amps[i].kind == '&')
    && (l.Then? ==> l.semi.kind == ';' && LineOk(l.rest))
  }

  predicate PipeOk(p: Pipe)
  {
    ExecOk(p.e) && (p.Into? ==> p.bar.kind == '|' && PipeOk(p.rest))
  }

  predicate ExecOk(e: Exec)
  {
    match e
    case Block(open, l, close, rs) =>
      open.kind == '(' && LineOk(l) && close.kind == ')' && forall i | 0 <= i < |rs| :: RedirOk(rs[i])
    case Simple(items) => (forall i | 0 <= i < |items| :: ItemOk(items[i])) && |Args(items)| < MAXARGS
  }

  // ------------------------------------------------------------ yields

  function RedirYield(r: Redir): seq<Token>
  {
    [r.op, r.file]
  }

  function RedirsYield(rs: seq<Redir>): seq<Token>
  {
    if rs == [] then [] else RedirYield(rs[0]) + RedirsYield(rs[1..])
  }

  function ItemYield(i: Item): seq<Token>
  {
    match i
    case Arg(w) => [w]
    case Red(r) => RedirYield(r)
  }

  function ItemsYield(items: seq<Item>): seq<Token>
  {
    if items == [] then [] else ItemYield(items[0]) + ItemsYield(items[1..])
  }

  function LineYield(l: Line): seq<Token>
  {
    PipeYield(l.p) + l.amps + if l.Then? then [l.semi] + LineYield(l.rest) else []
  }

  function PipeYield(p: Pipe): seq<Token>
  {
    ExecYield(p.e) + if p.Into? then [p.bar] + PipeYield(p.rest) else []
  }

  function ExecYield(e: Exec): seq<Token>
  {
    match e
    case Block(open, l, close, rs) => [open] + LineYield(l) + [close] + RedirsYield(rs)
    case Simple(items) => ItemsYield(items)
  }

  // ---------------------------------------------------- command trees

  datatype Cmd = ExecCmd(argv: seq<Word>)
               | RedirCmd(cmd: Cmd, file: Word, mode: int, fd: int)
               | PipeCmd(left: Cmd, right: Cmd)
               | ListCmd(left: Cmd, right: Cmd)
               | BackCmd(cmd: Cmd)

  const O_RDONLY := 0
  const O_WRONLY := 1
  const O_CREATE := 0x200

  function Redirected(c: Cmd, r: Redir): Cmd
  {
    if r.op.kind == '<' then RedirCmd(c, WordOf(r.file), O_RDONLY, 0)
    else RedirCmd(c, WordOf(r.file), O_WRONLY + O_CREATE, 1)
  }

  /** The redirections go around the command from left to right. */
  function Wrap(c: Cmd, rs: seq<Redir>): Cmd
    decreases |rs|
  {
    if rs == [] then c else Wrap(Redirected(c, rs[0]), rs[1..])
  }

  function Backed(c: Cmd, n: nat): Cmd
    decreases n
  {
    if n == 0 then c else Backed(BackCmd(c), n - 1)
  }

  function LineCmd(l: Line): Cmd
  {
    var c := Backed(PipelineCmd(l.p), |l.amps|);
    if l.Then? then ListCmd(c, LineCmd(l.rest)) else c
  }

  function PipelineCmd(p: Pipe): Cmd
  {
    var c := ExecutedCmd(p.e);
    if p.Into? then PipeCmd(c, PipelineCmd(p.rest)) else c
  }

  function ExecutedCmd(e: Exec): Cmd
  {
    match e
    case Block(open, l, close, rs) => Wrap(LineCmd(l), rs)
    case Simple(items) => Wrap(ExecCmd(Args(items)), Reds(items))
  }

  // ------------------------------------------------- words land once

  /** The words among tokens. */
  function Words(ts: seq<Token>): multiset<Word>
  {
    if ts == [] then multiset{}
    else (if ts[0].kind == 'a' then multiset{WordOf(ts[0])} else multiset{}) + Words(ts[1..])
  }

  /** The words held in a command tree: arguments and file names. */
  function Held(c: Cmd): multiset<Word>
  {
    match c
    case ExecCmd(argv) => multiset(argv)
    case RedirCmd(cmd, file, _, _) => Held(cmd) + multiset{file}
    case PipeCmd(left, right) => Held(left) + Held(right)
    case ListCmd(left, right) => Held(left) + Held(right)
    case BackCmd(cmd) => Held(cmd)
  }

  lemma {:induction false} WordsCat(a: seq<Token>, b: seq<Token>)
    ensures Words(a + b) == Words(a) + Words(b)
  {
    if a == [] {
      assert a + b == b;
    } else {
      WordsCat(a[1..], b);
      WordsCons(a);
      WordsCons(a + b);
      assert (a + b)[1..] == a[1..] + b;
      Associates(FirstWord(a), Words(a[1..]), Words(b));
    }
  }

  function FirstWord(ts: seq<Token>): multiset<Word>
    requires ts != []
  {
    if ts[0].kind == 'a' then multiset{WordOf(ts[0])} else multiset{}
  }

  lemma WordsCons(ts: seq<Token>)
    requires ts != []
    ensures Words(ts) == FirstWord(ts) + Words(ts[1..])
  {
  }

  lemma Associates(x: multiset<Word>, y: multiset<Word>, z: multiset<Word>)
    ensures x + (y + z) == x + y + z
  {
  }

  lemma {:induction false} WordsNone(ts: seq<Token>)
    requires forall i | 0 <= i < |ts| :: ts[i].kind != 'a'
    ensures Words(ts) == multiset{}
  {
    if ts != [] {
      WordsNone(ts[1..]);
    }
  }

  lemma {:induction false} WordsOne(t: Token)
    ensures Words([t]) == if t.kind == 'a' then multiset{WordOf(t)} else multiset{}
  {
    assert [t][1..] == [];
    assert Words([t][1..]) == multiset{};
  }

  lemma {:induction false} WordsRedir(r: Redir)
    requires RedirOk(r)
    ensures Words(RedirYield(r)) == multiset{WordOf(r.file)}
  {
    WordsOne(r.op);
    WordsOne(r.file);
    WordsCat([r.op], [r.file]);
    assert RedirYield(r) == [r.op] + [r.file];
  }

  lemma {:induction false} HeldWrap(c: Cmd, rs: seq<Redir>)
    requires forall i | 0 <= i < |rs| :: RedirOk(rs[i])
    ensures Held(Wrap(c, rs)) == Held(c) + Words(RedirsYield(rs))
    decreases |rs|
  {
    if rs != [] {
      WordsRedir(rs[0]);
      WordsCat(RedirYield(rs[0]), RedirsYield(rs[1..]));
      HeldWrap(Redirected(c, rs[0]), rs[1..]);
    }
  }

  ghost predicate ItemsHeld(items: seq<Item>)
  {
    Words(ItemsYield(items)) == multiset(Args(items)) + Words(RedirsYield(Reds(items)))
  }

  lemma {:induction false} HeldArg(items: seq<Item>)
    requires items != [] && items[0].Arg? && ItemOk(items[0]) && ItemsHeld(items[1..])
    ensures ItemsHeld(items)
  {
    var w, rest := items[0].w, items[1..];
    WordsCat([w], ItemsYield(rest));
    WordsOne(w);
    assert Reds(items) == Reds(rest);
    assert multiset([WordOf(w)] + Args(rest)) == multiset{WordOf(w)} + multiset(Args(rest));
  }

  lemma {:induction false} HeldRed(items: seq<Item>)
    requires items != [] && items[0].Red? && ItemOk(items[0]) && ItemsHeld(items[1..])
    ensures ItemsHeld(items)
  {
    var r, rest := items[0].r, items[1..];
    var rs := [r] + Reds(rest);
    assert Args(items) == Args(rest) && Reds(items) == rs;
    assert rs[0] == r && rs[1..] == Reds(rest);
    WordsCat(RedirYield(r), ItemsYield(rest));
    WordsCat(RedirYield(r), RedirsYield(Reds(rest)));
  }

  lemma {:induction false} RedsOk(items: seq<Item>)
    requires forall i | 0 <= i < |items| :: ItemOk(items[i])
    ensures forall i | 0 <= i < |Reds(items)| :: RedirOk(Reds(items)[i])
  {
    if items != [] {
      RedsOk(items[1..]);
    }
  }

  lemma {:induction false} HeldItems(items: seq<Item>)
    requires forall i | 0 <= i < |items| :: ItemOk(items[i])
    ensures ItemsHeld(items)
  {
    if items != [] {
      HeldItems(items[1..]);
      if items[0].Arg? {
        HeldArg(items);
      } else {
        HeldRed(items);
      }
    }
  }

  lemma {:induction false} HeldBacked(c: Cmd, n: nat)
    ensures Held(Backed(c, n)) == Held(c)
    decreases n
  {
    if n > 0 {
      HeldBacked(BackCmd(c), n - 1);
    }
  }

  /** Every word token of a line is in its command tree exactly once, and nothing else is. */
  lemma {:induction false} LineHolds(l: Line)
    requires LineOk(l)
    ensures Held(LineCmd(l)) == Words(LineYield(l))
    decreases l, 2
  {
    PipeHolds(l.p);
    HeldBacked(PipelineCmd(l.p), |l.amps|);
    WordsNone(l.amps);
    if l.Then? {
      LineHolds(l.rest);
      WordsOne(l.semi);
      WordsCat([l.semi], LineYield(l.rest));
      WordsThree(PipeYield(l.p), l.amps, [l.semi] + LineYield(l.rest));
    } else {
      WordsThree(PipeYield(l.p), l.amps, []);
    }
  }

  lemma {:induction false} WordsThree(a: seq<Token>, b: seq<Token>, c: seq<Token>)
    ensures Words(a + b + c) == Words(a) + Words(b) + Words(c)
  {
    WordsCat(a + b, c);
    WordsCat(a, b);
  }

  lemma {:induction false} PipeHolds(p: Pipe)
    requires PipeOk(p)
    ensures Held(PipelineCmd(p)) == Words(PipeYield(p))
    decreases p, 1
  {
    ExecHolds(p.e);
    if p.Into? {
      PipeHolds(p.rest);
      WordsCat(ExecYield(p.e), [p.bar] + PipeYield(p.rest));
      WordsCat([p.bar], PipeYield(p.rest));
      WordsOne(p.bar);
    } else {
      WordsCat(ExecYield(p.e), []);
    }
  }

  lemma {:induction false} ExecHolds(e: Exec)
    requires ExecOk(e)
    ensures Held(ExecutedCmd(e)) == Words(ExecYield(e))
    decreases e, 0
  {
    match e
    case Block(open, l, close, rs) =>
      LineHolds(l);
      HeldWrap(LineCmd(l), rs);
      WordsCat([open] + LineYield(l) + [close], RedirsYield(rs));
      WordsCat([open] + LineYield(l), [close]);
      WordsCat([open], LineYield(l));
      WordsOne(open);
      WordsOne(close);
    case Simple(items) =>
      HeldItems(items);
      RedsOk(items);
      HeldWrap(ExecCmd(Args(items)), Reds(items));
  }

  // -------------------------------------------- trees, item by item

  lemma {:induction false} WrapSnoc(c: Cmd, rs: seq<Redir>, r: Redir)
    ensures Wrap(c, rs + [r]) == Redirected(Wrap(c, rs), r)
    decreases |rs|
  {
    if rs == [] {
      assert [] + [r] == [r];
      assert Wrap(Redirected(c, r), [r][1..]) == Redirected(c, r);
    } else {
      WrapSnoc(Redirected(c, rs[0]), rs[1..], r);
      assert (rs + [r])[1..] == rs[1..] + [r];
    }
  }

  function RedItems(rs: seq<Redir>): seq<Item>
  {
    seq(|rs|, i requires 0 <= i < |rs| => Red(rs[i]))
  }

  /** argv and eargv of the command inside, set in place. */
  function Fill(c: Cmd, argv: seq<Word>): Cmd
  {
    match c
    case RedirCmd(cmd, file, mode, fd) => RedirCmd(Fill(cmd, argv), file, mode, fd)
    case _ => ExecCmd(argv)
  }

  lemma {:induction false} FillWrap(c: Cmd, rs: seq<Redir>, argv: seq<Word>)
    ensures Fill(Wrap(c, rs), argv) == Wrap(Fill(c, argv), rs)
    decreases |rs|
  {
    if rs != [] {
      FillWrap(Redirected(c, rs[0]), rs[1..], argv);
    }
  }

  lemma {:induction false} ArgsCons(x: Item, a: seq<Item>)
    ensures Args([x] + a) == Args([x]) + Args(a)
  {
    assert ([x] + a)[1..] == a && [x][1..] == [];
    assert Args([x][1..]) == [];
  }

  lemma {:induction false} RedsCons(x: Item, a: seq<Item>)
    ensures Reds([x] + a) == Reds([x]) + Reds(a)
  {
    assert ([x] + a)[1..] == a && [x][1..] == [];
    assert Reds([x][1..]) == [];
  }

  lemma {:induction false} ArgsCat(a: seq<Item>, b: seq<Item>)
    ensures Args(a + b) == Args(a) + Args(b)
  {
    if a == [] {
      assert a + b == b;
    } else {
      ArgsCat(a[1..], b);
      assert (a + b)[1..] == a[1..] + b && (a + b)[0] == a[0];
      assert Args(a + b) == Args([a[0]]) + Args(a[1..] + b) by {
        ArgsCons(a[0], a[1..] + b);
        assert [a[0]] + (a[1..] + b) == a + b;
      }
      ArgsCons(a[0], a[1..]);
      assert [a[0]] + a[1..] == a;
    }
  }

  lemma {:induction false} RedsCat(a: seq<Item>, b: seq<Item>)
    ensures Reds(a + b) == Reds(a) + Reds(b)
  {
    if a == [] {
      assert a + b == b;
    } else {
      RedsCat(a[1..], b);
      assert (a + b)[1..] == a[1..] + b && (a + b)[0] == a[0];
      assert Reds(a + b) == Reds([a[0]]) + Reds(a[1..] + b) by {
        RedsCons(a[0], a[1..] + b);
        assert [a[0]] + (a[1..] + b) == a + b;
      }
      RedsCons(a[0], a[1..]);
      assert [a[0]] + a[1..] == a;
    }
  }

  lemma {:induction false} ArgsOfReds(rs: seq<Redir>)
    ensures Args(RedItems(rs)) == [] && Reds(RedItems(rs)) == rs
  {
    if rs != [] {
      ArgsOfReds(rs[1..]);
      assert RedItems(rs)[1..] == RedItems(rs[1..]);
    }
  }

  lemma {:induction false} WrapCat(c: Cmd, a: seq<Redir>, b: seq<Redir>)
    ensures Wrap(c, a + b) == Wrap(Wrap(c, a), b)
    decreases |a|
  {
    if a == [] {
      assert a + b == b;
    } else {
      WrapCat(Redirected(c, a[0]), a[1..], b);
      assert (a + b)[1..] == a[1..] + b;
    }
  }

  /** A simple command read so far. */
  function Built(items: seq<Item>): Cmd
  {
    Wrap(ExecCmd(Args(items)), Reds(items))
  }

  lemma {:induction false} BuiltRedirs(items: seq<Item>, rs: seq<Redir>)
    ensures Built(items + RedItems(rs)) == Wrap(Built(items), rs) && Args(items + RedItems(rs)) == Args(items)
  {
    ArgsCat(items, RedItems(rs));
    RedsCat(items, RedItems(rs));
    ArgsOfReds(rs);
    WrapCat(ExecCmd(Args(items)), Reds(items), rs);
    assert Args(items) + [] == Args(items);
  }

  lemma {:induction false} BuiltArg(items: seq<Item>, w: Token)
    ensures Built(items + [Arg(w)]) == Fill(Built(items), Args(items) + [WordOf(w)])
    ensures Args(items + [Arg(w)]) == Args(items) + [WordOf(w)]
  {
    ArgsCat(items, [Arg(w)]);
    RedsCat(items, [Arg(w)]);
    assert [Arg(w)][1..] == [];
    assert Args([Arg(w)]) == [WordOf(w)] + Args([Arg(w)][1..]) == [WordOf(w)];
    assert Reds([Arg(w)]) == Reds([Arg(w)][1..]) == [];
    assert Reds(items + [Arg(w)]) == Reds(items);
    FillWrap(ExecCmd(Args(items)), Reds(items), Args(items) + [WordOf(w)]);
  }

  lemma {:induction false} BackedSnoc(c: Cmd, n: nat)
    ensures Backed(c, n + 1) == BackCmd(Backed(c, n))
    decreases n
  {
    if n > 0 {
      BackedSnoc(BackCmd(c), n - 1);
    }
  }
}
