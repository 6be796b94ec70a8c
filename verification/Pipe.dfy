/** pipe.c: the ring buffer with its wrapping 32-bit counters, and the sleep and
    wakeup protocol of any number of readers and writers. */
module Pipe {
  import opened Common

  const PIPESIZE := 512
  const WRAP := 0x1_0000_0000   // uint arithmetic is modulo this

  type Byte = bv8

  // ------------------------------------------------------ the ring buffer

  lemma SameLow(r: nat, w: nat)
    requires r <= w <= r + 512
    ensures (w % 0x1_0000_0000 == r % 0x1_0000_0000) <==> w == r
  {
    assert w == 0x1_0000_0000 * (w / 0x1_0000_0000) + w % 0x1_0000_0000;
    assert r == 0x1_0000_0000 * (r / 0x1_0000_0000) + r % 0x1_0000_0000;
  }

  lemma AddLow(r: nat, k: nat)
    ensures (r % 0x1_0000_0000 + k) % 0x1_0000_0000 == (r + k) % 0x1_0000_0000
  {
    var q, m := r / 0x1_0000_0000, r % 0x1_0000_0000;
    assert r + k == 0x1_0000_0000 * q + (m + k);
  }

  lemma LowBits(x: nat, q: nat)
    ensures (x + PIPESIZE * q) % PIPESIZE == x % PIPESIZE
  {
    var d, m := x / PIPESIZE, x % PIPESIZE;
    assert x + PIPESIZE * q == PIPESIZE * (d + q) + m;
  }

  /** Counters that differ by at most PIPESIZE are told apart by their low 32 bits. */
  lemma CountersWrap(r: nat, w: nat)
    requires r <= w <= r + PIPESIZE
    ensures (w % WRAP == r % WRAP) <==> w == r
    ensures (w % WRAP == (r % WRAP + PIPESIZE) % WRAP) <==> w == r + PIPESIZE
    ensures (w % WRAP) % PIPESIZE == w % PIPESIZE
    ensures (w % WRAP + 1) % WRAP == (w + 1) % WRAP
  {
    SameLow(r, w);
    AddLow(r, 512);
    SameLow(w, r + 512);
    AddLow(w, 1);
    LowBits(w % WRAP, 0x80_0000 * (w / WRAP));
    assert w == WRAP * (w / WRAP) + w % WRAP;
  }

  /** The next slot holds none of the buffered bytes. */
  lemma FreshSlot(r: nat, w: nat)
    requires r <= w < r + PIPESIZE
    ensures forall j | r <= j < w :: j % PIPESIZE != w % PIPESIZE
  {
  }

  class Ring {
    const data: array<Byte>
    var nread: nat
    var nwrite: nat
    ghost var written: seq<Byte>   // every byte ever written
    ghost var got: nat             // how many of them have been read

    ghost predicate Valid()
      reads this, data
    {
      && data.Length == PIPESIZE
      && got <= |written| <= got + PIPESIZE
      && nread == got % WRAP
      && nwrite == |written| % WRAP
      && forall j | got <= j < |written| :: data[j % PIPESIZE] == written[j]
    }

    /** The bytes in the pipe. */
    ghost function Queue(): (q: seq<Byte>)
      reads this, data
      requires Valid()
      ensures |q| <= PIPESIZE
    {
      written[got..]
    }

    predicate IsFull(): (full: bool)
      requires Valid()
      reads this, data
      ensures full <==> |written| == got + PIPESIZE
    {
      CountersWrap(got, |written|);
      nwrite == (nread + PIPESIZE) % WRAP
    }

    predicate IsEmpty(): (empty: bool)
      requires Valid()
      reads this, data
      ensures empty <==> |written| == got
    {
      CountersWrap(got, |written|);
      nread == nwrite
    }

    /** The ring as the protocol sees it. */
    ghost predicate Shows(s: State)
      reads this, data
    {
      Valid() && s.queue == Queue() && s.written == written && s.read == written[..got]
    }

    constructor ()
      ensures Valid() && written == [] && got == 0 && fresh(data)
    {
      data := new Byte[PIPESIZE];
      nread, nwrite := 0, 0;
      written, got := [], 0;
    }

    /** The byte loop of pipewrite, from byte i of addr until all are written or the
        pipe is full.  It moves the bytes that the Write step of a process with these left
        moves. */
    method Fill(addr: seq<Byte>, i: nat, ghost s: State, ghost p: nat) returns (done: nat)
      requires Valid() && i <= |addr|
      modifies this`nwrite, this`written, data
      ensures Valid()
      ensures done == i + Min(|addr| - i, PIPESIZE - |old(Queue())|)
      ensures written == old(written) + addr[i..done]
      ensures Queue() == old(Queue()) + addr[i..done]
      ensures old(Shows(s)) && Enabled(s, Write(p)) && s.procs[p].call.todo == addr[i..] ==> Shows(Next(s, Write(p)))
    {
      done := PutBytes(addr, i);
      if old(Shows(s)) && Enabled(s, Write(p)) && s.procs[p].call.todo == addr[i..] {
        WriteMoves(s, p, addr, i, done);
        assert written[..got] == old(written)[..got];
      }
    }

    method PutBytes(addr: seq<Byte>, i: nat) returns (done: nat)
      requires Valid() && i <= |addr|
      modifies this`nwrite, this`written, data
      ensures Valid()
      ensures done == i + Min(|addr| - i, PIPESIZE - |old(Queue())|)
      ensures written == old(written) + addr[i..done]
      ensures Queue() == old(Queue()) + addr[i..done]
    {
      done := i;
      while done < |addr| && !IsFull()
        invariant Valid()
        invariant i <= done <= |addr|
        invariant written == old(written) + addr[i..done]
      {
        PutByte(addr[done]);
        assert addr[i..done + 1] == addr[i..done] + [addr[done]];
        done := done + 1;
      }
    }

    /** data[nwrite++ % PIPESIZE] = b */
    method PutByte(b: Byte)
      requires Valid() && |written| < got + PIPESIZE
      modifies this`nwrite, this`written, data
      ensures Valid() && written == old(written) + [b]
    {
      FreshSlot(got, |written|);
      CountersWrap(got, |written|);
      data[nwrite % PIPESIZE] := b;
      written := written + [b];
      nwrite := (nwrite + 1) % WRAP;
    }

    /** The byte loop of piperead.  It moves the bytes that the Read step of a process that
        asks for n moves, when that does not sleep or fail. */
    method Drain(n: nat, ghost s: State, ghost p: nat) returns (bytes: seq<Byte>)
      requires Valid()
      modifies this`nread, this`got
      ensures Valid()
      ensures bytes == old(Queue())[..Min(n, |old(Queue())|)]
      ensures Queue() == old(Queue())[|bytes|..]
      ensures got == old(got) + |bytes|
      ensures old(Shows(s)) && Enabled(s, Read(p)) && s.procs[p].call.n == n && (s.queue != [] || !s.writeopen) ==>
                Shows(Next(s, Read(p))) && Next(s, Read(p)).read == s.read + bytes
    {
      bytes := GetBytes(n);
      assert written[..got] == written[..old(got)] + bytes;
    }

    method GetBytes(n: nat) returns (bytes: seq<Byte>)
      requires Valid()
      modifies this`nread, this`got
      ensures Valid() && old(got) <= got
      ensures bytes == old(Queue())[..Min(n, |old(Queue())|)] == written[old(got)..got]
      ensures Queue() == old(Queue())[|bytes|..]
      ensures got == old(got) + |bytes|
    {
      bytes := [];
      while |bytes| < n && !IsEmpty()
        invariant Valid()
        invariant |bytes| <= n && old(got) <= got
        invariant bytes == written[old(got)..got]
      {
        CountersWrap(got, got);
        bytes := bytes + [data[nread % PIPESIZE]];
        nread := (nread + 1) % WRAP;
        got := got + 1;
      }
    }
  }

  lemma WriteMoves(s: State, p: nat, addr: seq<Byte>, i: nat, done: nat)
    requires Enabled(s, Write(p)) && |s.queue| <= PIPESIZE && i <= |addr| && s.procs[p].call.todo == addr[i..]
    requires done == i + Min(|addr| - i, Room(s))
    ensures var t := Next(s, Write(p));
            t.queue == s.queue + addr[i..done] && t.written == s.written + addr[i..done] && t.read == s.read
  {
    assert addr[i..][..done - i] == addr[i..done];
  }

  // ---------------------------------------------------------- the protocol

  /** A process and the pipe call it is in, if any.  todo is what a writer has left of its
      total; ret is what the last call returned. */
  datatype Call = Out | Writing(todo: seq<Byte>, total: nat) | Reading(n: nat)
  datatype Proc = Proc(call: Call, asleep: bool, killed: bool, ret: int)

  /** queue is the ring's contents; written and read are everything that ever went in
      and came out. */
  datatype State = State(queue: seq<Byte>, readopen: bool, writeopen: bool, procs: seq<Proc>,
                         written: seq<Byte>, read: seq<Byte>)

  /** Write and Read are one stay in the critical section: from the acquire (or the
      return of sleep) to the next sleep or the release. */
  datatype Event =
    | CallWrite(p: nat, bytes: seq<Byte>)
    | CallRead(p: nat, n: nat)
    | Write(p: nat)
    | Read(p: nat)
    | CloseWrite
    | CloseRead
    | Kill(p: nat)

  function WakeReader(p: Proc): Proc
  {
    if p.call.Reading? then p.(asleep := false) else p
  }

  function WakeWriter(p: Proc): Proc
  {
    if p.call.Writing? then p.(asleep := false) else p
  }

  /** wakeup(&p->nread) and wakeup(&p->nwrite). */
  function WakeReaders(procs: seq<Proc>): (r: seq<Proc>)
    ensures |r| == |procs|
    ensures forall i | 0 <= i < |procs| :: r[i] == WakeReader(procs[i])
  {
    seq(|procs|, i requires 0 <= i < |procs| => WakeReader(procs[i]))
  }

  function WakeWriters(procs: seq<Proc>): (r: seq<Proc>)
    ensures |r| == |procs|
    ensures forall i | 0 <= i < |procs| :: r[i] == WakeWriter(procs[i])
  {
    seq(|procs|, i requires 0 <= i < |procs| => WakeWriter(procs[i]))
  }

  /** A process calls only with its end open, and an end closes only when no process
      that could use it is inside a call: the file's reference count sees to both. */
  predicate Enabled(s: State, e: Event)
  {
    match e
    case CallWrite(p, _) => p < |s.procs| && s.procs[p].call.Out? && s.writeopen
    case CallRead(p, _) => p < |s.procs| && s.procs[p].call.Out? && s.readopen
    case Write(p) => p < |s.procs| && s.procs[p].call.Writing? && !s.procs[p].asleep
    case Read(p) => p < |s.procs| && s.procs[p].call.Reading? && !s.procs[p].asleep
    case CloseWrite => s.writeopen && forall i | 0 <= i < |s.procs| :: !s.procs[i].call.Writing?
    case CloseRead => s.readopen && forall i | 0 <= i < |s.procs| :: !s.procs[i].call.Reading?
    case Kill(p) => p < |s.procs|
  }

  function Room(s: State): int
  {
    PIPESIZE - |s.queue|
  }

  function Next(s: State, e: Event): State
    requires Enabled(s, e) && |s.queue| <= PIPESIZE
  {
    match e
    case CallWrite(p, bytes) => s.(procs := s.procs[p := s.procs[p].(call := Writing(bytes, |bytes|))])
    case CallRead(p, n) => s.(procs := s.procs[p := s.procs[p].(call := Reading(n))])
    case Write(p) =>
      var x := s.procs[p];
      var todo := x.call.todo;
      var k := Min(|todo|, Room(s));
      var t := s.(queue := s.queue + todo[..k], written := s.written + todo[..k]);
      if k == |todo| then
        t.(procs := WakeReaders(s.procs[p := x.(call := Out, ret := x.call.total)]))
      else if !s.readopen || x.killed then
        t.(procs := s.procs[p := x.(call := Out, ret := -1)])
      else
        t.(procs := WakeReaders(s.procs[p := x.(call := Writing(todo[k..], x.call.total), asleep := true)]))
    case Read(p) =>
      var x := s.procs[p];
      if s.queue == [] && s.writeopen then
        if x.killed then s.(procs := s.procs[p := x.(call := Out, ret := -1)])
        else s.(procs := s.procs[p := x.(asleep := true)])
      else
        var k := Min(x.call.n, |s.queue|);
        s.(queue := s.queue[k..], read := s.read + s.queue[..k],
           procs := WakeWriters(s.procs[p := x.(call := Out, ret := k)]))
    case CloseWrite => s.(writeopen := false, procs := WakeReaders(s.procs))
    case CloseRead => s.(readopen := false, procs := WakeWriters(s.procs))
    case Kill(p) => s.(procs := s.procs[p := s.procs[p].(killed := true, asleep := false)])
  }

  /** Every byte once and in order; nobody sleeps outside a call; calls hold an end. */
  predicate Inv(s: State)
  {
    && s.written == s.read + s.queue
    && |s.queue| <= PIPESIZE
    && (forall i | 0 <= i < |s.procs| :: s.procs[i].asleep ==> !s.procs[i].call.Out?)
    && (forall i | 0 <= i < |s.procs| :: s.procs[i].call.Writing? ==> s.writeopen)
    && (forall i | 0 <= i < |s.procs| :: s.procs[i].call.Reading? ==> s.readopen)
  }

  predicate SleepingReader(s: State, i: int)
  {
    0 <= i < |s.procs| && s.procs[i].call.Reading? && s.procs[i].asleep
  }

  predicate SleepingWriter(s: State, i: int)
  {
    0 <= i < |s.procs| && s.procs[i].call.Writing? && s.procs[i].asleep
  }

  /** Nobody sleeps who could go on. */
  ghost predicate NoLostWakeup(s: State)
  {
    && (forall i :: SleepingReader(s, i) ==> s.queue == [] && s.writeopen)
    && (forall i :: SleepingWriter(s, i) ==> |s.queue| == PIPESIZE && s.readopen)
  }

  /** The one way pipewrite forgets its readers: killed with more to write than the
      pipe can take, it returns from the full pipe before its wakeup. */
  ghost predicate ForgetsReaders(s: State, e: Event)
    requires Enabled(s, e)
  {
    && e.Write? && s.procs[e.p].killed && |s.procs[e.p].call.todo| > Room(s)
    && exists i :: SleepingReader(s, i)
  }

  lemma StepKeepsInv(s: State, e: Event)
    requires Inv(s) && Enabled(s, e)
    ensures Inv(Next(s, e))
  {
    match e
    case Write(p) => WriteKeepsInv(s, p);
    case Read(p) => ReadKeepsInv(s, p);
    case _ =>
  }

  lemma WriteKeepsInv(s: State, p: nat)
    requires Inv(s) && Enabled(s, Write(p))
    ensures Inv(Next(s, Write(p)))
  {
  }

  lemma ReadKeepsInv(s: State, p: nat)
    requires Inv(s) && Enabled(s, Read(p))
    ensures Inv(Next(s, Read(p)))
  {
    if !(s.queue == [] && s.writeopen) {
      var k := Min(s.procs[p].call.n, |s.queue|);
      assert s.queue == s.queue[..k] + s.queue[k..];
    }
  }

  /** The exact condition under which a step keeps every sleeper justified. */
  lemma NoLostWakeupIff(s: State, e: Event)
    requires Inv(s) && NoLostWakeup(s) && Enabled(s, e)
    ensures NoLostWakeup(Next(s, e)) <==> !ForgetsReaders(s, e)
  {
    var t := Next(s, e);
    if e.Write? {
      WriteWakes(s, e.p);
    } else {
      forall i | SleepingReader(t, i) ensures t.queue == [] && t.writeopen {
        assert SleepingReader(s, i) || (e.Read? && i == e.p);
      }
      forall i | SleepingWriter(t, i) ensures |t.queue| == PIPESIZE && t.readopen {
        assert SleepingWriter(s, i);
      }
    }
  }

  lemma WriteWakes(s: State, p: nat)
    requires Inv(s) && NoLostWakeup(s) && Enabled(s, Write(p))
    ensures NoLostWakeup(Next(s, Write(p))) <==> !ForgetsReaders(s, Write(p))
  {
    var t := Next(s, Write(p));
    forall i | SleepingWriter(t, i) ensures |t.queue| == PIPESIZE && t.readopen {
      assert i != p ==> SleepingWriter(s, i);
    }
    if ForgetsReaders(s, Write(p)) {
      var i :| SleepingReader(s, i);
      assert SleepingReader(t, i);
    } else {
      forall i ensures !SleepingReader(t, i) {
        assert SleepingReader(t, i) ==> SleepingReader(s, i) && s.readopen;
      }
    }
  }

  // ------------------------------------------------------------ whole runs

  ghost predicate IsStep(s: State, e: Event, t: State)
  {
    Enabled(s, e) && |s.queue| <= PIPESIZE && t == Next(s, e)
  }

  ghost predicate IsRun(ss: seq<State>, es: seq<Event>)
  {
    && |ss| == |es| + 1
    && forall i {:trigger es[i]} | 0 <= i < |es| :: IsStep(ss[i], es[i], ss[i + 1])
  }

  predicate Start(s: State)
  {
    && s.queue == [] && s.written == [] && s.read == [] && s.readopen && s.writeopen
    && forall i | 0 <= i < |s.procs| :: s.procs[i] == Proc(Out, false, false, 0)
  }

  /** In every run, kills included: what has been read is a prefix of what has been
      written, and the rest, at most PIPESIZE bytes, is in the pipe. */
  lemma {:induction false} BytesInOrder(ss: seq<State>, es: seq<Event>, k: nat)
    requires IsRun(ss, es) && Start(ss[0]) && k <= |es|
    ensures Inv(ss[k])
    ensures ss[k].read <= ss[k].written && |ss[k].written| - |ss[k].read| <= PIPESIZE
  {
    if k > 0 {
      BytesInOrder(ss, es, k - 1);
      StepKeepsInv(ss[k - 1], es[k - 1]);
    }
  }

  /** The bytes that steps a .. b - 1 put into the pipe on behalf of p. */
  ghost function Moved(ss: seq<State>, es: seq<Event>, p: nat, a: nat, b: nat): seq<Byte>
    requires |ss| == |es| + 1 && a <= b <= |es|
    decreases b - a
  {
    if a == b then []
    else Moved(ss, es, p, a, b - 1) + if es[b - 1] == Write(p) then Grown(ss[b - 1].written, ss[b].written) else []
  }

  /** What has been appended to x to give y. */
  function Grown(x: seq<Byte>, y: seq<Byte>): seq<Byte>
  {
    if |x| <= |y| then y[|x|..] else []
  }

  /** p is inside one and the same call from state a to state b. */
  ghost predicate Inside(ss: seq<State>, p: nat, a: nat, b: nat)
    requires a <= b < |ss|
  {
    forall c | a <= c <= b :: p < |ss[c].procs| && !ss[c].procs[p].call.Out?
  }

  lemma OthersKeep(s: State, e: Event, p: nat)
    requires Enabled(s, e) && |s.queue| <= PIPESIZE && p < |s.procs| && !s.procs[p].call.Out?
    requires e != Write(p) && e != Read(p)
    ensures p < |Next(s, e).procs| && Next(s, e).procs[p].call == s.procs[p].call
  {
  }

  lemma CallStarts(s: State, p: nat, bytes: seq<Byte>, t: State)
    requires IsStep(s, CallWrite(p, bytes), t)
    ensures p < |t.procs| && t.procs[p].call == Writing(bytes, |bytes|)
  {
  }

  lemma WriterResumes(s: State, e: Event, t: State, p: nat)
    requires IsStep(s, e, t)
    requires p < |s.procs| && s.procs[p].call.Writing? && p < |t.procs| && !t.procs[p].call.Out?
    ensures t.procs[p].call.Writing? && t.procs[p].call.total == s.procs[p].call.total
    ensures (if e == Write(p) then Grown(s.written, t.written) else []) + t.procs[p].call.todo == s.procs[p].call.todo
  {
    if e == Write(p) {
      var todo := s.procs[p].call.todo;
      var k := Min(|todo|, Room(s));
      assert todo == todo[..k] + todo[k..];
      assert Grown(s.written, t.written) == todo[..k];
    } else {
      OthersKeep(s, e, p);
    }
  }

  /** A blocked writer resumes where it stopped: what its steps have moved, and what it has
      left, are together the caller's bytes. */
  lemma {:induction false} WriterKeepsPlace(ss: seq<State>, es: seq<Event>, p: nat, bytes: seq<Byte>, a: nat, b: nat)
    requires IsRun(ss, es) && a < b <= |es| && es[a] == CallWrite(p, bytes) && Inside(ss, p, a + 1, b)
    ensures var call := ss[b].procs[p].call;
            call.Writing? && call.total == |bytes| && Moved(ss, es, p, a + 1, b) + call.todo == bytes
    decreases b - a
  {
    if b > a + 1 {
      WriterKeepsPlace(ss, es, p, bytes, a, b - 1);
      WriterResumes(ss[b - 1], es[b - 1], ss[b], p);
      var before, left := Moved(ss, es, p, a + 1, b - 1), ss[b].procs[p].call.todo;
      var grown := if es[b - 1] == Write(p) then Grown(ss[b - 1].written, ss[b].written) else [];
      assert Moved(ss, es, p, a + 1, b) == before + grown;
      assert (before + grown) + left == before + (grown + left);
    } else {
      CallStarts(ss[a], p, bytes, ss[b]);
      assert Moved(ss, es, p, b, b) == [];
    }
  }

  /** What a write call returns: the number of its bytes, all of which have gone into the pipe,
      each once and in order; or -1, after some of them, if the process was killed or there
      is no reader. */
  lemma WriteReturns(ss: seq<State>, es: seq<Event>, p: nat, bytes: seq<Byte>, a: nat, b: nat)
    requires IsRun(ss, es) && a < b < |es| && es[a] == CallWrite(p, bytes) && Inside(ss, p, a + 1, b)
    requires p < |ss[b + 1].procs| && ss[b + 1].procs[p].call.Out?
    ensures es[b] == Write(p)
    ensures var moved, ret := Moved(ss, es, p, a + 1, b + 1), ss[b + 1].procs[p].ret;
            if ret == |bytes| then moved == bytes
            else ret == -1 && moved < bytes && (!ss[b].readopen || ss[b].procs[p].killed)
  {
    WriterKeepsPlace(ss, es, p, bytes, a, b);
    var s := ss[b];
    if es[b] != Write(p) {
      OthersKeep(s, es[b], p);
    }
    var todo, before := s.procs[p].call.todo, Moved(ss, es, p, a + 1, b);
    var k := Min(|todo|, Room(s));
    assert Grown(s.written, ss[b + 1].written) == todo[..k];
    assert before + todo[..k] <= bytes && |before + todo[..k]| == |bytes| - (|todo| - k);
  }

  /** What a read call returns: the number of bytes taken from the front of the pipe, as many as
      it holds up to n, and 0 only at the end of the file; or -1 for a killed process.  The
      call takes nothing before its last step. */
  lemma ReadReturns(ss: seq<State>, es: seq<Event>, p: nat, n: nat, a: nat, b: nat)
    requires IsRun(ss, es) && a < b < |es| && es[a] == CallRead(p, n) && Inside(ss, p, a + 1, b)
    requires p < |ss[b + 1].procs| && ss[b + 1].procs[p].call.Out?
    ensures es[b] == Read(p)
    ensures forall c | a < c < b && es[c] == Read(p) :: ss[c + 1].read == ss[c].read && ss[c + 1].queue == ss[c].queue
    ensures var s, t := ss[b], ss[b + 1];
            var got, ret := Grown(s.read, t.read), t.procs[p].ret;
            && s.queue == got + t.queue
            && if ret == -1 then got == [] && s.procs[p].killed && s.queue == [] && s.writeopen
               else ret == |got| == Min(n, |s.queue|) && (s.queue == [] ==> !s.writeopen)
  {
    ReaderWaits(ss, es, p, n, a, b);
    var s := ss[b];
    if es[b] != Read(p) {
      OthersKeep(s, es[b], p);
    }
    forall c | a < c < b && es[c] == Read(p)
      ensures ss[c + 1].read == ss[c].read && ss[c + 1].queue == ss[c].queue
    {
      assert !ss[c + 1].procs[p].call.Out?;
    }
    var k := Min(n, |s.queue|);
    assert s.queue == s.queue[..k] + s.queue[k..];
  }

  lemma ReaderStays(s: State, e: Event, t: State, p: nat, n: nat)
    requires IsStep(s, e, t)
    requires p < |s.procs| && s.procs[p].call == Reading(n) && p < |t.procs| && !t.procs[p].call.Out?
    ensures t.procs[p].call == Reading(n)
  {
  }

  lemma {:induction false} ReaderWaits(ss: seq<State>, es: seq<Event>, p: nat, n: nat, a: nat, b: nat)
    requires IsRun(ss, es) && a < b <= |es| && es[a] == CallRead(p, n) && Inside(ss, p, a + 1, b)
    ensures ss[b].procs[p].call == Reading(n)
    decreases b - a
  {
    if b > a + 1 {
      ReaderWaits(ss, es, p, n, a, b - 1);
      ReaderStays(ss[b - 1], es[b - 1], ss[b], p, n);
    }
  }

  /** A run in which no killed writer forgets its readers has, at every point, only
      readers asleep on an empty open pipe or only writers asleep on a full one. */
  lemma {:induction false} NeverBothAsleep(ss: seq<State>, es: seq<Event>, k: nat)
    requires IsRun(ss, es) && Start(ss[0]) && k <= |es|
    requires forall i | 0 <= i < |es| :: !ForgetsReaders(ss[i], es[i])
    ensures NoLostWakeup(ss[k])
    ensures !exists i, j :: SleepingReader(ss[k], i) && SleepingWriter(ss[k], j)
  {
    if k > 0 {
      NeverBothAsleep(ss, es, k - 1);
      BytesInOrder(ss, es, k - 1);
      NoLostWakeupIff(ss[k - 1], es[k - 1]);
    }
  }

  lemma StepKeepsFlags(s: State, e: Event)
    requires Enabled(s, e) && |s.queue| <= PIPESIZE && !e.Kill?
    ensures var t := Next(s, e);
            |t.procs| == |s.procs| && forall i | 0 <= i < |s.procs| :: t.procs[i].killed == s.procs[i].killed
  {
  }

  lemma {:induction false} NoKillNoFlag(ss: seq<State>, es: seq<Event>, k: nat)
    requires IsRun(ss, es) && Start(ss[0]) && k <= |es|
    requires forall i | 0 <= i < |es| :: !es[i].Kill?
    ensures forall i | 0 <= i < |ss[k].procs| :: !ss[k].procs[i].killed
  {
    if k > 0 {
      NoKillNoFlag(ss, es, k - 1);
      StepKeepsFlags(ss[k - 1], es[k - 1]);
    }
  }

  /** Runs without kill never lose a wakeup. */
  lemma WithoutKill(ss: seq<State>, es: seq<Event>, k: nat)
    requires IsRun(ss, es) && Start(ss[0]) && k <= |es|
    requires forall i | 0 <= i < |es| :: !es[i].Kill?
    ensures NoLostWakeup(ss[k])
    ensures !exists i, j :: SleepingReader(ss[k], i) && SleepingWriter(ss[k], j)
  {
    forall i | 0 <= i < |es| ensures !ForgetsReaders(ss[i], es[i]) {
      NoKillNoFlag(ss, es, i);
    }
    NeverBothAsleep(ss, es, k);
  }

  /** With a kill they can: a reader waits, a writer with one byte too many is killed
      before its first step, and the reader sleeps on over a full pipe. */
  lemma KillLosesWakeup(bytes: seq<Byte>) returns (ss: seq<State>, es: seq<Event>)
    requires |bytes| > PIPESIZE
    ensures IsRun(ss, es) && Start(ss[0])
    ensures var s := ss[|es|]; SleepingReader(s, 0) && |s.queue| == PIPESIZE && |s.procs| == 2 && s.procs[1].call.Out?
  {
    var s0 := State([], true, true, [Proc(Out, false, false, 0), Proc(Out, false, false, 0)], [], []);
    var s1 := Next(s0, CallRead(0, 1));
    var s2 := Next(s1, Read(0));
    var s3 := Next(s2, CallWrite(1, bytes));
    var s4 := Next(s3, Kill(1));
    var s5 := Next(s4, Write(1));
    ss := [s0, s1, s2, s3, s4, s5];
    es := [CallRead(0, 1), Read(0), CallWrite(1, bytes), Kill(1), Write(1)];
    assert SleepingReader(s5, 0);
  }
}
