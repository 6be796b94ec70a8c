/** The tokens of a command line, and what sh.c's terminators do to its words. */
module ShellLex {
  import opened ShellGrammar

  predicate IsSpace(c: char)
  {
    c in " \t\r\n\U{0B}"
  }

  predicate IsSymbol(c: char)
  {
    c in "<|>&;()"
  }

  /** A line as strlen sees it. */
  predicate NulFree(s: string)
  {
    forall i | 0 <= i < |s| :: s[i] != '\0'
  }

  /** The character at i; the terminator is behind the line. */
  function At(s: string, i: int): char
    requires 0 <= i <= |s|
  {
    if i < |s| then s[i] else '\0'
  }

  function Skip(s: string, i: int): (j: int)
    requires 0 <= i <= |s|
    ensures i <= j <= |s| && (j < |s| ==> !IsSpace(s[j]))
    decreases |s| - i
  {
    if i < |s| && IsSpace(s[i]) then Skip(s, i + 1) else i
  }

  function WordEnd(s: string, i: int): (j: int)
    requires 0 <= i <= |s|
    ensures i <= j <= |s| && (j < |s| ==> IsSpace(s[j]) || IsSymbol(s[j]))
    ensures forall k | i <= k < j :: !IsSpace(s[k]) && !IsSymbol(s[k])
    decreases |s| - i
  {
    if i < |s| && !IsSpace(s[i]) && !IsSymbol(s[i]) then WordEnd(s, i + 1) else i
  }

  /** The token that starts at i. */
  function TokenAt(s: string, i: int): (t: Token)
    requires 0 <= i < |s| && !IsSpace(s[i])
    ensures t.start == i < t.end <= |s|
  {
    if s[i] == '>' then (if At(s, i + 1) == '>' then Token('+', i, i + 2) else Token('>', i, i + 1))
    else if IsSymbol(s[i]) then Token(s[i], i, i + 1)
    else Token('a', i, WordEnd(s, i + 1))
  }

  function Tokens(s: string, i: int): seq<Token>
    requires 0 <= i <= |s|
    decreases |s| - i
  {
    var j := Skip(s, i);
    if j == |s| then [] else [TokenAt(s, j)] + Tokens(s, TokenAt(s, j).end)
  }

  lemma {:induction false} SkipSkip(s: string, i: int)
    requires 0 <= i <= |s|
    ensures Skip(s, Skip(s, i)) == Skip(s, i) && Tokens(s, Skip(s, i)) == Tokens(s, i)
  {
  }

  /** The first character of a token tells its kind. */
  lemma KindChar(s: string, i: int)
    requires 0 <= i < |s| && !IsSpace(s[i])
    ensures forall c | c in "|();&<" :: s[i] == c <==> TokenAt(s, i).kind == c
    ensures s[i] == '>' <==> TokenAt(s, i).kind == '>' || TokenAt(s, i).kind == '+'
    ensures TokenAt(s, i).kind == 'a' <==> !IsSymbol(s[i])
    ensures TokenAt(s, i).kind != '\0'
  {
  }

  // --------------------------------------------------------- separation

  /** A token of the line, wherever it is. */
  ghost predicate InLine(s: string, ts: seq<Token>)
  {
    forall k | 0 <= k < |ts| :: 0 <= ts[k].start < |s| && !IsSpace(s[ts[k].start]) && ts[k] == TokenAt(s, ts[k].start)
  }

  /** Tokens follow each other, and behind a word there is room for its terminator. */
  ghost predicate Separated(ts: seq<Token>)
  {
    forall k, l | 0 <= k < l < |ts| ::
      ts[k].end <= ts[l].start && (ts[k].kind == 'a' && ts[l].kind == 'a' ==> ts[k].end < ts[l].start)
  }

  lemma {:induction false} TokensFrom(s: string, i: int)
    requires 0 <= i <= |s|
    ensures InLine(s, Tokens(s, i)) && forall k | 0 <= k < |Tokens(s, i)| :: i <= Tokens(s, i)[k].start
    decreases |s| - i
  {
    var j := Skip(s, i);
    if j < |s| {
      TokensFrom(s, TokenAt(s, j).end);
    }
  }

  /** A word never touches the word behind it. */
  lemma WordsApart(s: string, t: Token, u: Token)
    requires 0 <= t.start < |s| && !IsSpace(s[t.start]) && t == TokenAt(s, t.start)
    requires 0 <= u.start < |s| && !IsSpace(s[u.start]) && u == TokenAt(s, u.start)
    requires t.end <= u.start && t.kind == 'a' && u.kind == 'a'
    ensures t.end < u.start
  {
    KindChar(s, t.start);
    KindChar(s, u.start);
  }

  lemma {:induction false} TokensSeparated(s: string, i: int)
    requires 0 <= i <= |s|
    ensures Separated(Tokens(s, i))
    decreases |s| - i
  {
    var j := Skip(s, i);
    if j < |s| {
      var t, ts, rest := TokenAt(s, j), Tokens(s, i), Tokens(s, TokenAt(s, j).end);
      TokensSeparated(s, t.end);
      TokensFrom(s, t.end);
      forall k, l | 0 <= k < l < |ts|
        ensures ts[k].end <= ts[l].start && (ts[k].kind == 'a' && ts[l].kind == 'a' ==> ts[k].end < ts[l].start)
      {
        var u := rest[l - 1];
        assert ts[l] == u;
        if k > 0 {
          assert ts[k] == rest[k - 1];
        } else if t.kind == 'a' && u.kind == 'a' {
          WordsApart(s, t, u);
        }
      }
    }
  }

  /** Every character that is no space lies in a token. */
  lemma {:induction false} TokensCover(s: string, i: int, k: int)
    requires 0 <= i <= k < |s| && !IsSpace(s[k])
    ensures exists t :: t in Tokens(s, i) && t.start <= k < t.end
    decreases |s| - i
  {
    SkipPast(s, i, k);
    var j := Skip(s, i);
    var t := TokenAt(s, j);
    assert Tokens(s, i) == [t] + Tokens(s, t.end);
    if k < t.end {
      assert t in Tokens(s, i);
    } else {
      TokensCover(s, t.end, k);
      var u :| u in Tokens(s, t.end) && u.start <= k < u.end;
      assert u in Tokens(s, i);
    }
  }

  lemma {:induction false} SkipPast(s: string, i: int, k: int)
    requires 0 <= i <= k < |s| && !IsSpace(s[k])
    ensures Skip(s, i) <= k
    decreases |s| - i
  {
    if i < k && IsSpace(s[i]) {
      SkipPast(s, i + 1, k);
    }
  }

  /** A token by its characters: a word reaches as far as it can, ">>" is one token, and any
      other symbol stands alone. */
  lemma TokenShape(s: string, i: int)
    requires 0 <= i < |s| && !IsSpace(s[i])
    ensures var t := TokenAt(s, i); var text := s[t.start..t.end];
            && t.start == i
            && (t.kind == 'a' <==> !IsSymbol(s[i]))
            && (t.kind == 'a' ==> (forall k | t.start <= k < t.end :: !IsSpace(s[k]) && !IsSymbol(s[k]))
                                  && (t.end == |s| || IsSpace(s[t.end]) || IsSymbol(s[t.end])))
            && (t.kind == '+' <==> text == ">>")
            && (t.kind == '>' ==> text == ">" && (t.end == |s| || s[t.end] != '>'))
            && (t.kind != 'a' && t.kind != '+' ==> text == [t.kind])
  {
  }

  // -------------------------------------------------------- termination

  /** A C string read from position i. */
  function CString(t: string, i: int): string
    requires 0 <= i <= |t|
    decreases |t| - i
  {
    if i == |t| || t[i] == '\0' then [] else [t[i]] + CString(t, i + 1)
  }

  lemma {:induction false} CStringIs(t: string, i: int, j: int)
    requires 0 <= i <= j < |t| && t[j] == '\0' && forall k | i <= k < j :: t[k] != '\0'
    ensures CString(t, i) == t[i..j]
    decreases j - i
  {
    if i < j {
      CStringIs(t, i + 1, j);
    }
  }

  ghost predicate EndsAt(ws: multiset<Word>, i: int)
  {
    exists w :: w in ws && w.end == i
  }

  lemma {:induction false} WordsAre(ts: seq<Token>, w: Word)
    requires w in Words(ts)
    ensures exists k :: 0 <= k < |ts| && ts[k].kind == 'a' && WordOf(ts[k]) == w
  {
    if w in Words(ts[1..]) {
      WordsAre(ts[1..], w);
      var k :| 0 <= k < |ts[1..]| && ts[1..][k].kind == 'a' && WordOf(ts[1..][k]) == w;
      assert ts[k + 1] == ts[1..][k];
    } else {
      assert ts[0].kind == 'a' && WordOf(ts[0]) == w;
    }
  }

  /** No terminator of a word falls inside a word. */
  lemma {:induction false} NoEndInside(s: string, w: Word, i: int)
    requires w in Words(Tokens(s, 0)) && EndsAt(Words(Tokens(s, 0)), i)
    ensures 0 <= w.start < w.end <= |s| && !(w.start <= i < w.end)
  {
    var ts := Tokens(s, 0);
    var v :| v in Words(ts) && v.end == i;
    WordsAre(ts, w);
    WordsAre(ts, v);
    TokensFrom(s, 0);
    TokensSeparated(s, 0);
    var k :| 0 <= k < |ts| && ts[k].kind == 'a' && WordOf(ts[k]) == w;
    var l :| 0 <= l < |ts| && ts[l].kind == 'a' && WordOf(ts[l]) == v;
    assert k < l ==> ts[k].end < ts[l].start;
    assert l < k ==> ts[l].end < ts[k].start;
  }

  /** After a zero has been written behind every word, each word reads back as itself. */
  lemma {:induction false} ReadsBack(s: string, t: string, w: Word)
    requires NulFree(s) && |t| == |s| + 1 && w in Words(Tokens(s, 0))
    requires forall i | 0 <= i <= |s| :: t[i] == if EndsAt(Words(Tokens(s, 0)), i) then '\0' else At(s, i)
    ensures 0 <= w.start < w.end <= |s| && CString(t, w.start) == s[w.start..w.end]
  {
    assert EndsAt(Words(Tokens(s, 0)), w.end);
    NoEndInside(s, w, w.end);
    forall i | w.start <= i < w.end ensures t[i] == s[i] {
      if EndsAt(Words(Tokens(s, 0)), i) {
        NoEndInside(s, w, i);
      }
    }
    CStringIs(t, w.start, w.end);
    assert t[w.start..w.end] == s[w.start..w.end];
  }
}
