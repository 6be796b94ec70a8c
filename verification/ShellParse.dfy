/** sh.c's recursive descent on token sequences: it accepts exactly the token sequences that
    the grammar derives, and each has one derivation. */
module ShellParse {
  import opened ShellGrammar

  datatype Parsed<T> = Fail | Got(value: T, rest: seq<Token>)

  predicate Ends(t: Token)
  {
    t.kind == '|' || t.kind == ')' || t.kind == '&' || t.kind == ';'
  }

  /** parseredirs. */
  function PRedirs(ts: seq<Token>): (r: Parsed<seq<Redir>>)
    ensures r.Got? ==> |r.rest| <= |ts|
    decreases |ts|
  {
    if ts == [] || !IsOp(ts[0]) then Got([], ts)
    else if |ts| < 2 || ts[1].kind != 'a' then Fail
    else
      var r := PRedirs(ts[2..]);
      if r.Fail? then Fail else Got([Redir(ts[0], ts[1])] + r.value, r.rest)
  }

  /** parseexec without a block, argc arguments having been read. */
  function PItems(ts: seq<Token>, argc: int): (r: Parsed<seq<Item>>)
    ensures r.Got? ==> |r.rest| <= |ts|
    decreases |ts|
  {
    if ts == [] then Got([], ts)
    else if IsOp(ts[0]) then
      if |ts| < 2 || ts[1].kind != 'a' then Fail
      else
        var r := PItems(ts[2..], argc);
        if r.Fail? then Fail else Got([Red(Redir(ts[0], ts[1]))] + r.value, r.rest)
    else if Ends(ts[0]) then Got([], ts)
    else if ts[0].kind != 'a' || argc + 1 >= MAXARGS then Fail
    else
      var r := PItems(ts[1..], argc + 1);
      if r.Fail? then Fail else Got([Arg(ts[0])] + r.value, r.rest)
  }

  function Amps(ts: seq<Token>): (n: nat)
    ensures n <= |ts|
  {
    if ts == [] || ts[0].kind != '&' then 0 else 1 + Amps(ts[1..])
  }

  function PLine(ts: seq<Token>): (r: Parsed<Line>)
    ensures r.Got? ==> |r.rest| <= |ts|
    decreases |ts|, 2
  {
    var p := PPipe(ts);
    if p.Fail? then Fail
    else
      var n := Amps(p.rest);
      var amps, ts' := p.rest[..n], p.rest[n..];
      if ts' == [] || ts'[0].kind != ';' then Got(Last(p.value, amps), ts')
      else
        var l := PLine(ts'[1..]);
        if l.Fail? then Fail else Got(Then(p.value, amps, ts'[0], l.value), l.rest)
  }

  function PPipe(ts: seq<Token>): (r: Parsed<Pipe>)
    ensures r.Got? ==> |r.rest| <= |ts|
    decreases |ts|, 1
  {
    var e := PExec(ts);
    if e.Fail? then Fail
    else if e.rest == [] || e.rest[0].kind != '|' then Got(One(e.value), e.rest)
    else
      var p := PPipe(e.rest[1..]);
      if p.Fail? then Fail else Got(Into(e.value, e.rest[0], p.value), p.rest)
  }

  function PExec(ts: seq<Token>): (r: Parsed<Exec>)
    ensures r.Got? ==> |r.rest| <= |ts|
    decreases |ts|, 0
  {
    if ts == [] || ts[0].kind != '(' then
      var i := PItems(ts, 0);
      if i.Fail? then Fail else Got(Simple(i.value), i.rest)
    else
      var l := PLine(ts[1..]);
      if l.Fail? || l.rest == [] || l.rest[0].kind != ')' then Fail
      else
        var r := PRedirs(l.rest[1..]);
        if r.Fail? then Fail else Got(Block(ts[0], l.value, l.rest[0], r.value), r.rest)
  }

  /** parsecmd: nothing may be left over. */
  function Parse(ts: seq<Token>): Option<Line>
  {
    var l := PLine(ts);
    if l.Fail? || l.rest != [] then None else Some(l.value)
  }

  // ------------------------------------------- yields, token by token

  lemma {:induction false} ItemsCons(i: Item, items: seq<Item>, rest: seq<Token>)
    ensures ItemsYield([i] + items) + rest == ItemYield(i) + (ItemsYield(items) + rest)
    ensures |Args([i] + items)| == |Args(items)| + if i.Arg? then 1 else 0
  {
    assert ([i] + items)[1..] == items;
  }

  lemma {:induction false} RedirsCons(r: Redir, rs: seq<Redir>, rest: seq<Token>)
    ensures RedirsYield([r] + rs) + rest == [r.op, r.file] + (RedirsYield(rs) + rest)
  {
    assert ([r] + rs)[1..] == rs;
  }

  lemma {:induction false} LineParts(l: Line, rest: seq<Token>)
    ensures LineYield(l) + rest ==
            PipeYield(l.p) + (l.amps + if l.Then? then [l.semi] + (LineYield(l.rest) + rest) else rest)
  {
  }

  lemma {:induction false} PipeParts(p: Pipe, rest: seq<Token>)
    ensures PipeYield(p) + rest == ExecYield(p.e) + if p.Into? then [p.bar] + (PipeYield(p.rest) + rest) else rest
  {
  }

  lemma {:induction false} BlockParts(e: Exec, rest: seq<Token>)
    requires e.Block?
    ensures ExecYield(e) + rest == [e.open] + (LineYield(e.l) + ([e.close] + (RedirsYield(e.rs) + rest)))
  {
  }

  // ---------------------------------------------------------- soundness

  lemma {:induction false} RedirsSound(ts: seq<Token>)
    requires PRedirs(ts).Got?
    ensures var r := PRedirs(ts);
            ts == RedirsYield(r.value) + r.rest && forall i | 0 <= i < |r.value| :: RedirOk(r.value[i])
    decreases |ts|
  {
    if ts != [] && IsOp(ts[0]) {
      RedirsSound(ts[2..]);
      var r := PRedirs(ts[2..]);
      RedirsCons(Redir(ts[0], ts[1]), r.value, r.rest);
      assert ts == [ts[0], ts[1]] + ts[2..];
    }
  }

  predicate ItemsGood(ts: seq<Token>, argc: int, r: Parsed<seq<Item>>)
  {
    && r.Got? && ts == ItemsYield(r.value) + r.rest && (forall i | 0 <= i < |r.value| :: ItemOk(r.value[i]))
    && argc + |Args(r.value)| < MAXARGS
  }

  lemma {:induction false} RedGood(ts: seq<Token>, argc: int)
    requires PItems(ts, argc).Got? && ts != [] && IsOp(ts[0]) && ItemsGood(ts[2..], argc, PItems(ts[2..], argc))
    ensures ItemsGood(ts, argc, PItems(ts, argc))
  {
    var r := PItems(ts[2..], argc);
    ItemsCons(Red(Redir(ts[0], ts[1])), r.value, r.rest);
    assert ts == [ts[0], ts[1]] + ts[2..];
  }

  lemma {:induction false} ArgGood(ts: seq<Token>, argc: int)
    requires PItems(ts, argc).Got? && ts != [] && !IsOp(ts[0]) && !Ends(ts[0])
             && ItemsGood(ts[1..], argc + 1, PItems(ts[1..], argc + 1))
    ensures ItemsGood(ts, argc, PItems(ts, argc))
  {
    var r := PItems(ts[1..], argc + 1);
    ItemsCons(Arg(ts[0]), r.value, r.rest);
    assert ts == [ts[0]] + ts[1..];
  }

  lemma {:induction false} ItemsSound(ts: seq<Token>, argc: int)
    requires PItems(ts, argc).Got? && argc < MAXARGS
    ensures ItemsGood(ts, argc, PItems(ts, argc))
    decreases |ts|
  {
    if ts != [] && IsOp(ts[0]) {
      ItemsSound(ts[2..], argc);
      RedGood(ts, argc);
    } else if ts != [] && !Ends(ts[0]) {
      ItemsSound(ts[1..], argc + 1);
      ArgGood(ts, argc);
    }
  }

  lemma {:induction false} AmpsSound(ts: seq<Token>)
    ensures forall i | 0 <= i < Amps(ts) :: ts[i].kind == '&'
    ensures Amps(ts) < |ts| ==> ts[Amps(ts)].kind != '&'
  {
    if ts != [] && ts[0].kind == '&' {
      AmpsSound(ts[1..]);
    }
  }

  lemma {:induction false} LineSound(ts: seq<Token>)
    requires PLine(ts).Got?
    ensures LineOk(PLine(ts).value) && ts == LineYield(PLine(ts).value) + PLine(ts).rest
    decreases |ts|, 2
  {
    PipeSound(ts);
    var p := PPipe(ts);
    AmpsSound(p.rest);
    var n := Amps(p.rest);
    if PLine(ts).value.Then? {
      LineSound(p.rest[n..][1..]);
      var l := PLine(p.rest[n..][1..]);
      ThenYield(p.value, p.rest, n, l.value, l.rest);
    } else {
      LastYield(p.value, p.rest, n);
    }
  }

  lemma {:induction false} LastYield(p: Pipe, ts: seq<Token>, n: int)
    requires 0 <= n <= |ts|
    ensures PipeYield(p) + ts == LineYield(Last(p, ts[..n])) + ts[n..]
  {
    LineParts(Last(p, ts[..n]), ts[n..]);
    assert ts == ts[..n] + ts[n..];
  }

  lemma {:induction false} ThenYield(p: Pipe, ts: seq<Token>, n: int, l: Line, rest: seq<Token>)
    requires 0 <= n < |ts| && ts[n..][1..] == LineYield(l) + rest
    ensures PipeYield(p) + ts == LineYield(Then(p, ts[..n], ts[n..][0], l)) + rest
  {
    LineParts(Then(p, ts[..n], ts[n..][0], l), rest);
    assert ts == ts[..n] + ([ts[n..][0]] + ts[n..][1..]);
  }

  lemma {:induction false} PipeSound(ts: seq<Token>)
    requires PPipe(ts).Got?
    ensures PipeOk(PPipe(ts).value) && ts == PipeYield(PPipe(ts).value) + PPipe(ts).rest
    decreases |ts|, 1
  {
    ExecSound(ts);
    var e, r := PExec(ts), PPipe(ts);
    PipeParts(r.value, r.rest);
    if r.value.Into? {
      PipeSound(e.rest[1..]);
      assert e.rest == [e.rest[0]] + e.rest[1..];
    }
  }

  lemma {:induction false} ExecSound(ts: seq<Token>)
    requires PExec(ts).Got?
    ensures ExecOk(PExec(ts).value) && ts == ExecYield(PExec(ts).value) + PExec(ts).rest
    decreases |ts|, 0
  {
    if ts == [] || ts[0].kind != '(' {
      ItemsSound(ts, 0);
    } else {
      LineSound(ts[1..]);
      BlockSound(ts);
    }
  }

  lemma {:induction false} BlockSound(ts: seq<Token>)
    requires PExec(ts).Got? && ts != [] && ts[0].kind == '(' && PLine(ts[1..]).Got?
    requires LineOk(PLine(ts[1..]).value) && ts[1..] == LineYield(PLine(ts[1..]).value) + PLine(ts[1..]).rest
    ensures ExecOk(PExec(ts).value) && ts == ExecYield(PExec(ts).value) + PExec(ts).rest
  {
    var l := PLine(ts[1..]);
    RedirsSound(l.rest[1..]);
    BlockParts(PExec(ts).value, PExec(ts).rest);
    assert ts == [ts[0]] + ts[1..] && l.rest == [l.rest[0]] + l.rest[1..];
  }

  // ------------------------------------------------------- completeness

  predicate LineFollow(ts: seq<Token>)
  {
    ts == [] || ts[0].kind == ')'
  }

  predicate PipeFollow(ts: seq<Token>)
  {
    ts == [] || ts[0].kind == ')' || ts[0].kind == '&' || ts[0].kind == ';'
  }

  predicate ExecFollow(ts: seq<Token>)
  {
    ts == [] || Ends(ts[0])
  }

  lemma {:induction false} RedirsComplete(rs: seq<Redir>, rest: seq<Token>)
    requires (forall i | 0 <= i < |rs| :: RedirOk(rs[i])) && (rest == [] || !IsOp(rest[0]))
    ensures PRedirs(RedirsYield(rs) + rest) == Got(rs, rest)
    decreases |rs|
  {
    var ts := RedirsYield(rs) + rest;
    if rs == [] {
      assert ts == rest;
    } else {
      RedirsComplete(rs[1..], rest);
      assert [rs[0]] + rs[1..] == rs;
      RedirsCons(rs[0], rs[1..], rest);
      assert ts[2..] == RedirsYield(rs[1..]) + rest;
    }
  }

  lemma {:induction false} ItemsComplete(items: seq<Item>, rest: seq<Token>, argc: int)
    requires (forall i | 0 <= i < |items| :: ItemOk(items[i])) && argc + |Args(items)| < MAXARGS && ExecFollow(rest)
    ensures PItems(ItemsYield(items) + rest, argc) == Got(items, rest)
    decreases |items|
  {
    if items == [] {
      assert ItemsYield(items) + rest == rest;
    } else {
      var i, more := items[0], items[1..];
      ItemsCons(i, more, rest);
      assert [i] + more == items;
      ItemsComplete(more, rest, if i.Arg? then argc + 1 else argc);
      ItemComplete(i, more, rest, argc);
    }
  }

  lemma {:induction false} ItemComplete(i: Item, more: seq<Item>, rest: seq<Token>, argc: int)
    requires ItemOk(i) && argc + (if i.Arg? then 1 else 0) < MAXARGS
    requires PItems(ItemsYield(more) + rest, if i.Arg? then argc + 1 else argc) == Got(more, rest)
    ensures PItems(ItemsYield([i] + more) + rest, argc) == Got([i] + more, rest)
  {
    var ts, tail := ItemsYield([i] + more) + rest, ItemsYield(more) + rest;
    ItemsCons(i, more, rest);
    assert ts == ItemYield(i) + tail;
    ItemFirst(i, tail);
    if i.Arg? {
      assert ts[0] == i.w && ts[1..] == tail && !IsOp(ts[0]) && !Ends(ts[0]);
    } else {
      assert ts[0] == i.r.op && ts[1] == i.r.file && ts[2..] == tail;
    }
  }

  lemma {:induction false} ItemFirst(i: Item, ts: seq<Token>)
    requires ItemOk(i)
    ensures i.Arg? ==> (ItemYield(i) + ts)[0] == i.w && (ItemYield(i) + ts)[1..] == ts
    ensures i.Red? ==> (ItemYield(i) + ts)[0] == i.r.op && (ItemYield(i) + ts)[1] == i.r.file
                       && (ItemYield(i) + ts)[2..] == ts
  {
  }

  lemma {:induction false} AmpsComplete(amps: seq<Token>, rest: seq<Token>)
    requires (forall i | 0 <= i < |amps| :: amps[i].kind == '&') && (rest == [] || rest[0].kind != '&')
    ensures Amps(amps + rest) == |amps|
    decreases |amps|
  {
    if amps == [] {
      assert amps + rest == rest;
    } else {
      AmpsComplete(amps[1..], rest);
      assert (amps + rest)[1..] == amps[1..] + rest;
    }
  }

  lemma {:induction false} ExecComplete(e: Exec, rest: seq<Token>)
    requires ExecOk(e) && ExecFollow(rest)
    ensures PExec(ExecYield(e) + rest) == Got(e, rest)
    decreases e, 0
  {
    var ts := ExecYield(e) + rest;
    match e
    case Block(open, l, close, rs) =>
      BlockParts(e, rest);
      LineComplete(l, [close] + (RedirsYield(rs) + rest));
      RedirsComplete(rs, rest);
      assert ts[1..] == LineYield(l) + ([close] + (RedirsYield(rs) + rest));
      assert ([close] + (RedirsYield(rs) + rest))[1..] == RedirsYield(rs) + rest;
    case Simple(items) =>
      ItemsComplete(items, rest, 0);
      SimpleFirst(items, rest);
  }

  lemma {:induction false} SimpleFirst(items: seq<Item>, rest: seq<Token>)
    requires (forall i | 0 <= i < |items| :: ItemOk(items[i])) && ExecFollow(rest)
    ensures var ts := ItemsYield(items) + rest; ts == [] || ts[0].kind != '('
  {
    if items != [] {
      assert ItemOk(items[0]);
    } else {
      assert ItemsYield(items) + rest == rest;
    }
  }

  lemma {:induction false} PipeComplete(p: Pipe, rest: seq<Token>)
    requires PipeOk(p) && PipeFollow(rest)
    ensures PPipe(PipeYield(p) + rest) == Got(p, rest)
    decreases p, 1
  {
    PipeParts(p, rest);
    if p.Into? {
      var tail := [p.bar] + (PipeYield(p.rest) + rest);
      ExecComplete(p.e, tail);
      PipeComplete(p.rest, rest);
      assert tail[1..] == PipeYield(p.rest) + rest;
    } else {
      ExecComplete(p.e, rest);
    }
  }

  lemma {:induction false} LineComplete(l: Line, rest: seq<Token>)
    requires LineOk(l) && LineFollow(rest)
    ensures PLine(LineYield(l) + rest) == Got(l, rest)
    decreases l, 2
  {
    LineParts(l, rest);
    var tail := if l.Then? then [l.semi] + (LineYield(l.rest) + rest) else rest;
    PipeComplete(l.p, l.amps + tail);
    AmpsComplete(l.amps, tail);
    assert (l.amps + tail)[..|l.amps|] == l.amps && (l.amps + tail)[|l.amps|..] == tail;
    if l.Then? {
      LineComplete(l.rest, rest);
      assert tail[1..] == LineYield(l.rest) + rest;
    }
  }

  /** The parser accepts exactly what the grammar derives, by its one derivation. */
  lemma {:induction false} ParseIff(ts: seq<Token>, l: Line)
    ensures Parse(ts) == Some(l) <==> LineOk(l) && LineYield(l) == ts
  {
    if Parse(ts) == Some(l) {
      LineSound(ts);
      assert LineYield(l) + [] == LineYield(l);
    }
    if LineOk(l) && LineYield(l) == ts {
      LineComplete(l, []);
      assert LineYield(l) + [] == LineYield(l);
    }
  }
}
