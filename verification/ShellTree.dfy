/** The command tree of a line by splitting it at its operators, without a parser, and the
    words of a tree from left to right. */
module ShellTree {
  import opened ShellGrammar
  import opened ShellParse

  // --------------------------------------------------- splitting a line

  function Inner(depth: int, t: Token): int
  {
    if t.kind == '(' then depth + 1 else if t.kind == ')' then depth - 1 else depth
  }

  /** The place of the first token of the kind outside all parentheses, or |ts|. */
  function FirstTop(ts: seq<Token>, kind: char, depth: int): (k: nat)
    ensures k <= |ts|
  {
    if ts == [] || (depth == 0 && ts[0].kind == kind) then 0
    else 1 + FirstTop(ts[1..], kind, Inner(depth, ts[0]))
  }

  /** A line is split at its first ';', the part before it loses its '&'s from the right, and
      what remains is split at its first '|'. */
  function Tree(ts: seq<Token>): Cmd
    decreases |ts|, 3
  {
    var k := FirstTop(ts, ';', 0);
    if k < |ts| then ListCmd(BackTree(ts[..k]), Tree(ts[k + 1..])) else BackTree(ts)
  }

  function BackTree(ts: seq<Token>): Cmd
    decreases |ts|, 2
  {
    if ts != [] && ts[|ts| - 1].kind == '&' then BackCmd(BackTree(ts[..|ts| - 1])) else PipeTree(ts)
  }

  function PipeTree(ts: seq<Token>): Cmd
    decreases |ts|, 1
  {
    var k := FirstTop(ts, '|', 0);
    if k < |ts| then PipeCmd(SingleTree(ts[..k]), PipeTree(ts[k + 1..])) else SingleTree(ts)
  }

  /** One command, from its right end: a block, a redirection behind a command, or an argument
      behind one. */
  function SingleTree(ts: seq<Token>): Cmd
    decreases |ts|, 0
  {
    var n := |ts|;
    if n < 2 then (if n == 1 then ExecCmd([WordOf(ts[0])]) else ExecCmd([]))
    else if ts[n - 1].kind == ')' then Tree(ts[1..n - 1])
    else if ts[n - 2].kind == '<' then RedirCmd(SingleTree(ts[..n - 2]), WordOf(ts[n - 1]), 0, 0)
    else if ts[n - 2].kind == '>' || ts[n - 2].kind == '+' then
      RedirCmd(SingleTree(ts[..n - 2]), WordOf(ts[n - 1]), 0x201, 1)
    else AddArg(SingleTree(ts[..n - 1]), WordOf(ts[n - 1]))
  }

  /** One more argument for the command inside the redirections. */
  function AddArg(c: Cmd, w: Word): Cmd
  {
    match c
    case RedirCmd(cmd, file, mode, fd) => RedirCmd(AddArg(cmd, w), file, mode, fd)
    case ExecCmd(argv) => ExecCmd(argv + [w])
    case _ => c
  }

  // ---------------------------------------------- what a search passes

  predicate Plain(t: Token)
  {
    IsOp(t) || t.kind == 'a' || t.kind == '&'
  }

  predicate AllPlain(ts: seq<Token>)
  {
    forall i | 0 <= i < |ts| :: Plain(ts[i])
  }

  predicate Splitter(kind: char)
  {
    kind == ';' || kind == '|'
  }

  /** The search for the kind goes past a. */
  ghost predicate Passed(a: seq<Token>, rest: seq<Token>, kind: char, depth: int)
  {
    FirstTop(a + rest, kind, depth) == |a| + FirstTop(rest, kind, depth)
  }

  lemma {:induction false} PassPlain(a: seq<Token>, rest: seq<Token>, kind: char, depth: int)
    requires AllPlain(a) && Splitter(kind)
    ensures Passed(a, rest, kind, depth)
  {
    if a == [] {
      assert a + rest == rest;
    } else {
      PassPlain(a[1..], rest, kind, depth);
      assert (a + rest)[0] == a[0] && (a + rest)[1..] == a[1..] + rest;
    }
  }

  lemma PassOne(t: Token, rest: seq<Token>, kind: char, depth: int)
    requires depth != 0 || t.kind != kind
    ensures FirstTop([t] + rest, kind, depth) == 1 + FirstTop(rest, kind, Inner(depth, t))
  {
    assert ([t] + rest)[1..] == rest;
  }

  lemma {:induction false} RedirsPlain(rs: seq<Redir>)
    requires forall i | 0 <= i < |rs| :: RedirOk(rs[i])
    ensures AllPlain(RedirsYield(rs))
  {
    if rs != [] {
      RedirsPlain(rs[1..]);
    }
  }

  lemma {:induction false} ItemsPlain(items: seq<Item>)
    requires forall i | 0 <= i < |items| :: ItemOk(items[i])
    ensures AllPlain(ItemsYield(items))
  {
    if items != [] {
      ItemsPlain(items[1..]);
      assert ItemOk(items[0]);
    }
  }

  lemma {:induction false} PassLine(l: Line, rest: seq<Token>, kind: char, depth: int)
    requires LineOk(l) && Splitter(kind) && depth > 0
    ensures Passed(LineYield(l), rest, kind, depth)
    decreases l, 2
  {
    var more := if l.Then? then [l.semi] + (LineYield(l.rest) + rest) else rest;
    LineParts(l, rest);
    PassPipe(l.p, l.amps + more, kind, depth);
    PassPlain(l.amps, more, kind, depth);
    if l.Then? {
      PassOne(l.semi, LineYield(l.rest) + rest, kind, depth);
      PassLine(l.rest, rest, kind, depth);
    }
  }

  lemma {:induction false} PassPipe(p: Pipe, rest: seq<Token>, kind: char, depth: int)
    requires PipeOk(p) && Splitter(kind) && depth >= 0 && (depth > 0 || kind == ';')
    ensures Passed(PipeYield(p), rest, kind, depth)
    decreases p, 1
  {
    var more := if p.Into? then [p.bar] + (PipeYield(p.rest) + rest) else rest;
    PipeParts(p, rest);
    PassExec(p.e, more, kind, depth);
    if p.Into? {
      PassOne(p.bar, PipeYield(p.rest) + rest, kind, depth);
      PassPipe(p.rest, rest, kind, depth);
    }
  }

  lemma {:induction false} PassExec(e: Exec, rest: seq<Token>, kind: char, depth: int)
    requires ExecOk(e) && Splitter(kind) && depth >= 0
    ensures Passed(ExecYield(e), rest, kind, depth)
    decreases e, 0
  {
    match e
    case Simple(items) =>
      ItemsPlain(items);
      PassPlain(ItemsYield(items), rest, kind, depth);
    case Block(open, l, close, rs) =>
      var tail := RedirsYield(rs) + rest;
      BlockParts(e, rest);
      PassOne(open, LineYield(l) + ([close] + tail), kind, depth);
      PassLine(l, [close] + tail, kind, depth + 1);
      PassOne(close, tail, kind, depth + 1);
      RedirsPlain(rs);
      PassPlain(RedirsYield(rs), rest, kind, depth);
  }

  // ----------------------------------------------- the two trees agree

  lemma {:induction false} RedirsYieldSnoc(rs: seq<Redir>, r: Redir)
    ensures RedirsYield(rs + [r]) == RedirsYield(rs) + [r.op, r.file]
  {
    if rs == [] {
      assert [r][1..] == [] && [] + [r] == [r];
      assert RedirsYield([r]) == RedirYield(r) + RedirsYield([r][1..]);
    } else {
      RedirsYieldSnoc(rs[1..], r);
      assert (rs + [r])[1..] == rs[1..] + [r];
    }
  }

  lemma {:induction false} ItemsYieldSnoc(items: seq<Item>, i: Item)
    ensures ItemsYield(items + [i]) == ItemsYield(items) + ItemYield(i)
  {
    if items == [] {
      assert [i][1..] == [] && [] + [i] == [i];
      assert ItemsYield([i]) == ItemYield(i) + ItemsYield([i][1..]);
    } else {
      ItemsYieldSnoc(items[1..], i);
      assert (items + [i])[1..] == items[1..] + [i];
    }
  }

  lemma {:induction false} AddArgWrap(c: Cmd, rs: seq<Redir>, w: Word)
    ensures AddArg(Wrap(c, rs), w) == Wrap(AddArg(c, w), rs)
    decreases |rs|
  {
    if rs != [] {
      AddArgWrap(Redirected(c, rs[0]), rs[1..], w);
    }
  }

  lemma BuiltMore(items: seq<Item>, w: Token)
    ensures Built(items + [Arg(w)]) == AddArg(Built(items), WordOf(w))
  {
    BuiltArg(items, w);
    FillWrap(ExecCmd(Args(items)), Reds(items), Args(items) + [WordOf(w)]);
    AddArgWrap(ExecCmd(Args(items)), Reds(items), WordOf(w));
  }

  lemma BuiltInto(items: seq<Item>, r: Redir)
    ensures Built(items + [Red(r)]) == Redirected(Built(items), r)
  {
    BuiltRedirs(items, [r]);
    assert RedItems([r]) == [Red(r)];
    WrapSnoc(Built(items), [], r);
    assert [] + [r] == [r];
  }

  lemma SingleRedir(ts: seq<Token>, r: Redir)
    requires RedirOk(r)
    ensures SingleTree(ts + [r.op, r.file]) == Redirected(SingleTree(ts), r)
  {
    var all := ts + [r.op, r.file];
    assert all[..|all| - 2] == ts;
  }

  predicate EndsInArg(ts: seq<Token>)
  {
    ts != [] && ts[|ts| - 1].kind == 'a' && (|ts| > 1 ==> !IsOp(ts[|ts| - 2]))
  }

  lemma SingleArg(ts: seq<Token>)
    requires EndsInArg(ts)
    ensures SingleTree(ts) == AddArg(SingleTree(ts[..|ts| - 1]), WordOf(ts[|ts| - 1]))
  {
    if |ts| == 1 {
      assert SingleTree(ts[..0]) == ExecCmd([]);
    }
  }

  lemma {:induction false} ItemsLast(items: seq<Item>)
    requires forall i | 0 <= i < |items| :: ItemOk(items[i])
    ensures ItemsYield(items) != [] ==> ItemsYield(items)[|ItemsYield(items)| - 1].kind == 'a'
  {
    if items != [] {
      ItemsLast(items[1..]);
      assert ItemOk(items[0]);
    }
  }

  lemma {:induction false} SimpleTree(items: seq<Item>)
    requires forall i | 0 <= i < |items| :: ItemOk(items[i])
    ensures SingleTree(ItemsYield(items)) == Built(items)
    decreases |items|
  {
    if items != [] {
      var front, last := items[..|items| - 1], items[|items| - 1];
      assert items == front + [last] && ItemOk(last);
      SimpleTree(front);
      ItemsYieldSnoc(front, last);
      if last.Arg? {
        ItemsLast(front);
        var ts := ItemsYield(items);
        assert ts[|ts| - 1] == last.w && ts[..|ts| - 1] == ItemsYield(front);
        SingleArg(ts);
        BuiltMore(front, last.w);
      } else {
        SingleRedir(ItemsYield(front), last.r);
        BuiltInto(front, last.r);
      }
    }
  }

  lemma {:induction false} RedirsTree(core: seq<Token>, c: Cmd, rs: seq<Redir>)
    requires SingleTree(core) == c && forall i | 0 <= i < |rs| :: RedirOk(rs[i])
    ensures SingleTree(core + RedirsYield(rs)) == Wrap(c, rs)
    decreases |rs|
  {
    if rs == [] {
      assert core + RedirsYield(rs) == core;
    } else {
      var front, last := rs[..|rs| - 1], rs[|rs| - 1];
      assert rs == front + [last];
      RedirsTree(core, c, front);
      RedirsYieldSnoc(front, last);
      assert core + RedirsYield(rs) == (core + RedirsYield(front)) + [last.op, last.file];
      SingleRedir(core + RedirsYield(front), last);
      WrapSnoc(c, front, last);
    }
  }

  lemma {:induction false} LineTree(l: Line)
    requires LineOk(l)
    ensures Tree(LineYield(l)) == LineCmd(l)
    decreases l, 2
  {
    var ts, front := LineYield(l), PipeYield(l.p) + l.amps;
    LineSplits(l);
    PipelineTree(l.p);
    AmpsTree(l.p, l.amps);
    if l.Then? {
      LineTree(l.rest);
      assert ts[..|front|] == front && ts[|front| + 1..] == LineYield(l.rest);
    } else {
      assert ts == front;
    }
  }

  lemma LineSplits(l: Line)
    requires LineOk(l)
    ensures FirstTop(LineYield(l), ';', 0) == |PipeYield(l.p) + l.amps|
  {
    var more := if l.Then? then [l.semi] + LineYield(l.rest) else [];
    assert LineYield(l) == PipeYield(l.p) + (l.amps + more);
    PassPipe(l.p, l.amps + more, ';', 0);
    PassPlain(l.amps, more, ';', 0);
  }

  lemma {:induction false} AmpsTree(p: Pipe, amps: seq<Token>)
    requires PipeOk(p) && PipeTree(PipeYield(p)) == PipelineCmd(p)
    requires forall i | 0 <= i < |amps| :: amps[i].kind == '&'
    ensures BackTree(PipeYield(p) + amps) == Backed(PipelineCmd(p), |amps|)
    decreases |amps|
  {
    var ts := PipeYield(p) + amps;
    if amps == [] {
      PipeLast(p);
      assert ts == PipeYield(p);
    } else {
      var n := |amps| - 1;
      AmpsTree(p, amps[..n]);
      assert ts[..|ts| - 1] == PipeYield(p) + amps[..n];
      BackedSnoc(PipelineCmd(p), n);
    }
  }

  lemma {:induction false} PipeLast(p: Pipe)
    requires PipeOk(p)
    ensures PipeYield(p) != [] ==> PipeYield(p)[|PipeYield(p)| - 1].kind != '&'
    decreases p
  {
    match p.e {
      case Simple(items) => ItemsLast(items);
      case Block(_, _, _, rs) => RedirsLast(rs);
    }
    if p.Into? {
      PipeLast(p.rest);
    }
  }

  lemma {:induction false} RedirsLast(rs: seq<Redir>)
    requires forall i | 0 <= i < |rs| :: RedirOk(rs[i])
    ensures RedirsYield(rs) != [] ==> RedirsYield(rs)[|RedirsYield(rs)| - 1].kind == 'a'
  {
    if rs != [] {
      RedirsLast(rs[1..]);
    }
  }

  lemma PipeSplits(p: Pipe)
    requires PipeOk(p)
    ensures FirstTop(PipeYield(p), '|', 0) == |ExecYield(p.e)|
  {
    var more := if p.Into? then [p.bar] + PipeYield(p.rest) else [];
    assert PipeYield(p) == ExecYield(p.e) + more;
    PassExec(p.e, more, '|', 0);
  }

  lemma {:induction false} PipelineTree(p: Pipe)
    requires PipeOk(p)
    ensures PipeTree(PipeYield(p)) == PipelineCmd(p)
    decreases p, 1
  {
    var ts, left := PipeYield(p), ExecYield(p.e);
    PipeSplits(p);
    CommandTree(p.e);
    if p.Into? {
      PipelineTree(p.rest);
      assert ts[..|left|] == left && ts[|left| + 1..] == PipeYield(p.rest);
    } else {
      assert ts == left;
    }
  }

  lemma {:induction false} CommandTree(e: Exec)
    requires ExecOk(e)
    ensures SingleTree(ExecYield(e)) == ExecutedCmd(e)
    decreases e, 0
  {
    match e
    case Simple(items) => SimpleTree(items);
    case Block(open, l, close, rs) =>
      var core := [open] + LineYield(l) + [close];
      LineTree(l);
      assert core[1..|core| - 1] == LineYield(l);
      RedirsTree(core, LineCmd(l), rs);
  }

  // ------------------------------------------------ words left to right

  function WordSeq(ts: seq<Token>): seq<Word>
  {
    if ts == [] then [] else (if ts[0].kind == 'a' then [WordOf(ts[0])] else []) + WordSeq(ts[1..])
  }

  /** The words of a tree from left to right; a file name stands where it stood in the line. */
  function LeftToRight(c: Cmd): seq<Word>
  {
    match c
    case ExecCmd(argv) => argv
    case RedirCmd(cmd, file, _, _) => Placed(LeftToRight(cmd), file)
    case PipeCmd(left, right) => LeftToRight(left) + LeftToRight(right)
    case ListCmd(left, right) => LeftToRight(left) + LeftToRight(right)
    case BackCmd(cmd) => LeftToRight(cmd)
  }

  /** f in front of the first word that starts behind it. */
  function Placed(ws: seq<Word>, f: Word): seq<Word>
  {
    if ws == [] then [f] else if f.start < ws[0].start then [f] + ws else [ws[0]] + Placed(ws[1..], f)
  }

  ghost predicate Ascending(ts: seq<Token>)
  {
    forall k, l | 0 <= k < l < |ts| :: ts[k].start < ts[l].start
  }

  ghost predicate AllBefore(ws: seq<Word>, w: Word)
  {
    forall i | 0 <= i < |ws| :: ws[i].start < w.start
  }

  lemma {:induction false} WordSeqCat(a: seq<Token>, b: seq<Token>)
    ensures WordSeq(a + b) == WordSeq(a) + WordSeq(b)
  {
    if a == [] {
      assert a + b == b;
    } else {
      WordSeqCat(a[1..], b);
      assert (a + b)[0] == a[0] && (a + b)[1..] == a[1..] + b;
      var first := if a[0].kind == 'a' then [WordOf(a[0])] else [];
      assert first + (WordSeq(a[1..]) + WordSeq(b)) == first + WordSeq(a[1..]) + WordSeq(b);
    }
  }

  lemma {:induction false} WordSeqNone(ts: seq<Token>)
    requires forall i | 0 <= i < |ts| :: ts[i].kind != 'a'
    ensures WordSeq(ts) == []
  {
    if ts != [] {
      WordSeqNone(ts[1..]);
    }
  }

  lemma WordSeqOne(t: Token)
    ensures WordSeq([t]) == if t.kind == 'a' then [WordOf(t)] else []
  {
    assert [t][1..] == [];
    assert WordSeq([t][1..]) == [];
  }

  lemma WordSeqTwo(a: Token, b: Token)
    requires a.kind != 'a' && b.kind == 'a'
    ensures WordSeq([a, b]) == [WordOf(b)]
  {
    WordSeqOne(b);
    assert [a, b][1..] == [b];
  }

  lemma {:induction false} WordsFromTokens(ts: seq<Token>, w: Token)
    requires forall i | 0 <= i < |ts| :: ts[i].start < w.start
    ensures AllBefore(WordSeq(ts), WordOf(w))
  {
    if ts != [] {
      WordsFromTokens(ts[1..], w);
    }
  }

  lemma {:induction false} PlacedLast(ws: seq<Word>, f: Word)
    requires AllBefore(ws, f)
    ensures Placed(ws, f) == ws + [f]
  {
    if ws != [] {
      PlacedLast(ws[1..], f);
    }
  }

  lemma {:induction false} PlacedSnoc(ws: seq<Word>, f: Word, w: Word)
    requires f.start < w.start
    ensures Placed(ws + [w], f) == Placed(ws, f) + [w]
  {
    if ws == [] {
      assert [] + [w] == [w];
    } else {
      PlacedSnoc(ws[1..], f, w);
      assert (ws + [w])[1..] == ws[1..] + [w];
    }
  }

  lemma {:induction false} PlacedHas(ws: seq<Word>, f: Word, w: Word)
    requires AllBefore(Placed(ws, f), w)
    ensures AllBefore(ws, w) && f.start < w.start
  {
    if ws != [] {
      var p := Placed(ws, f);
      if f.start < ws[0].start {
        assert p[0] == f;
        forall i | 0 <= i < |ws| ensures ws[i].start < w.start {
          assert p[i + 1] == ws[i];
        }
      } else {
        assert p[0] == ws[0] && p[1..] == Placed(ws[1..], f);
        PlacedHas(ws[1..], f, w);
      }
    } else {
      assert Placed(ws, f)[0] == f;
    }
  }

  /** A simple command: redirections around arguments. */
  predicate Flat(c: Cmd)
  {
    c.ExecCmd? || (c.RedirCmd? && Flat(c.cmd))
  }

  lemma {:induction false} ReadingMore(c: Cmd, w: Word)
    requires Flat(c) && AllBefore(LeftToRight(c), w)
    ensures Flat(AddArg(c, w)) && LeftToRight(AddArg(c, w)) == LeftToRight(c) + [w]
  {
    if c.RedirCmd? {
      PlacedHas(LeftToRight(c.cmd), c.file, w);
      ReadingMore(c.cmd, w);
      PlacedSnoc(LeftToRight(c.cmd), c.file, w);
    }
  }

  lemma AscendingFront(a: seq<Token>, b: seq<Token>)
    requires Ascending(a + b)
    ensures Ascending(a) && Ascending(b)
    ensures forall i, j | 0 <= i < |a| && 0 <= j < |b| :: a[i].start < b[j].start
  {
    var ts := a + b;
    forall i, j | 0 <= i < |a| && 0 <= j < |b| ensures a[i].start < b[j].start {
      assert ts[i] == a[i] && ts[|a| + j] == b[j];
    }
    forall i, j | 0 <= i < j < |a| ensures a[i].start < a[j].start {
      assert ts[i] == a[i] && ts[j] == a[j];
    }
    forall i, j | 0 <= i < j < |b| ensures b[i].start < b[j].start {
      assert ts[|a| + i] == b[i] && ts[|a| + j] == b[j];
    }
  }

  lemma ReadingRedir(ts: seq<Token>, c: Cmd, r: Redir)
    requires RedirOk(r) && Ascending(ts + [r.op, r.file]) && LeftToRight(c) == WordSeq(ts)
    ensures LeftToRight(Redirected(c, r)) == WordSeq(ts + [r.op, r.file])
  {
    AscendingFront(ts, [r.op, r.file]);
    assert [r.op, r.file][1] == r.file;
    WordsFromTokens(ts, r.file);
    PlacedLast(LeftToRight(c), WordOf(r.file));
    WordSeqTwo(r.op, r.file);
    WordSeqCat(ts, [r.op, r.file]);
  }

  lemma ReadingArgument(ts: seq<Token>, c: Cmd, w: Token)
    requires w.kind == 'a' && Ascending(ts + [w]) && Flat(c) && LeftToRight(c) == WordSeq(ts)
    ensures LeftToRight(AddArg(c, WordOf(w))) == WordSeq(ts + [w]) && Flat(AddArg(c, WordOf(w)))
  {
    AscendingFront(ts, [w]);
    assert [w][0] == w;
    WordsFromTokens(ts, w);
    ReadingMore(c, WordOf(w));
    WordSeqOne(w);
    WordSeqCat(ts, [w]);
  }

  lemma {:induction false} SimpleReads(items: seq<Item>)
    requires Ascending(ItemsYield(items)) && forall i | 0 <= i < |items| :: ItemOk(items[i])
    ensures Flat(Built(items)) && LeftToRight(Built(items)) == WordSeq(ItemsYield(items))
    decreases |items|
  {
    if items != [] {
      var front, last := items[..|items| - 1], items[|items| - 1];
      assert items == front + [last] && ItemOk(last);
      ItemsYieldSnoc(front, last);
      AscendingFront(ItemsYield(front), ItemYield(last));
      SimpleReads(front);
      if last.Arg? {
        ReadingArgument(ItemsYield(front), Built(front), last.w);
        BuiltMore(front, last.w);
      } else {
        ReadingRedir(ItemsYield(front), Built(front), last.r);
        BuiltInto(front, last.r);
      }
    }
  }

  lemma {:induction false} RedirsRead(ts: seq<Token>, c: Cmd, rs: seq<Redir>)
    requires Ascending(ts + RedirsYield(rs)) && LeftToRight(c) == WordSeq(ts)
    requires forall i | 0 <= i < |rs| :: RedirOk(rs[i])
    ensures LeftToRight(Wrap(c, rs)) == WordSeq(ts + RedirsYield(rs))
    decreases |rs|
  {
    if rs == [] {
      assert ts + RedirsYield(rs) == ts;
    } else {
      var front, last := rs[..|rs| - 1], rs[|rs| - 1];
      assert rs == front + [last];
      RedirsYieldSnoc(front, last);
      var before := ts + RedirsYield(front);
      assert ts + RedirsYield(rs) == before + [last.op, last.file];
      AscendingFront(before, [last.op, last.file]);
      RedirsRead(ts, c, front);
      ReadingRedir(before, Wrap(c, front), last);
      WrapSnoc(c, front, last);
    }
  }

  lemma {:induction false} ReadingBacked(c: Cmd, n: nat)
    ensures LeftToRight(Backed(c, n)) == LeftToRight(c)
    decreases n
  {
    if n > 0 {
      ReadingBacked(BackCmd(c), n - 1);
    }
  }

  /** The words of a line's tree, from left to right, are the word tokens of the line. */
  lemma {:induction false} LineReads(l: Line)
    requires LineOk(l) && Ascending(LineYield(l))
    ensures LeftToRight(LineCmd(l)) == WordSeq(LineYield(l))
    decreases l, 2
  {
    var pipe := PipeYield(l.p);
    var more := if l.Then? then [l.semi] + LineYield(l.rest) else [];
    assert LineYield(l) == pipe + (l.amps + more);
    AscendingFront(pipe, l.amps + more);
    AscendingFront(l.amps, more);
    PipeReads(l.p);
    ReadingBacked(PipelineCmd(l.p), |l.amps|);
    WordSeqCat(pipe, l.amps + more);
    WordSeqCat(l.amps, more);
    WordSeqNone(l.amps);
    if l.Then? {
      AscendingFront([l.semi], LineYield(l.rest));
      LineReads(l.rest);
      WordSeqOne(l.semi);
      WordSeqCat([l.semi], LineYield(l.rest));
    }
  }

  lemma {:induction false} PipeReads(p: Pipe)
    requires PipeOk(p) && Ascending(PipeYield(p))
    ensures LeftToRight(PipelineCmd(p)) == WordSeq(PipeYield(p))
    decreases p, 1
  {
    var left := ExecYield(p.e);
    var more := if p.Into? then [p.bar] + PipeYield(p.rest) else [];
    assert PipeYield(p) == left + more;
    AscendingFront(left, more);
    ExecReads(p.e);
    WordSeqCat(left, more);
    if p.Into? {
      AscendingFront([p.bar], PipeYield(p.rest));
      PipeReads(p.rest);
      WordSeqOne(p.bar);
      WordSeqCat([p.bar], PipeYield(p.rest));
    }
  }

  lemma {:induction false} ExecReads(e: Exec)
    requires ExecOk(e) && Ascending(ExecYield(e))
    ensures LeftToRight(ExecutedCmd(e)) == WordSeq(ExecYield(e))
    decreases e, 0
  {
    match e
    case Simple(items) => SimpleReads(items);
    case Block(open, l, close, rs) =>
      var core := [open] + LineYield(l) + [close];
      AscendingFront(core, RedirsYield(rs));
      AscendingFront([open] + LineYield(l), [close]);
      AscendingFront([open], LineYield(l));
      LineReads(l);
      WordSeqOne(open);
      WordSeqOne(close);
      WordSeqCat([open] + LineYield(l), [close]);
      WordSeqCat([open], LineYield(l));
      RedirsRead(core, LineCmd(l), rs);
  }
}
