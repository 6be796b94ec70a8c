/** The regular-expression matcher of grep.c.  A C string is its characters before
    the terminating NUL; reading the NUL is reading past the last character. */
module Grep {

  // ----------------------------------------------- what a pattern means

  /** A pattern is a sequence of items: one character, any number of a character,
      or the end of the text.  The character '.' stands for every character. */
  datatype Item = One(c: char) | Many(c: char) | AtEnd

  /** A '*' belongs to the character before it, whatever that is; '$' is special only
      as the last character. */
  function Items(re: string): (items: seq<Item>)
    decreases |re|
  {
    if re == [] then []
    else if |re| >= 2 && re[1] == '*' then [Many(re[0])] + Items(re[2..])
    else if re == ['$'] then [AtEnd]
    else [One(re[0])] + Items(re[1..])
  }

  predicate Admits(c: char, x: char)
  {
    c == '.' || c == x
  }

  /** The item matches text[i..j]. */
  predicate Fits(item: Item, text: string, i: int, j: int)
  {
    && 0 <= i <= j <= |text|
    && match item
       case One(c) => j == i + 1 && Admits(c, text[i])
       case Many(c) => forall k | i <= k < j :: Admits(c, text[k])
       case AtEnd => i == j == |text|
  }

  /** cuts divides a stretch of text, starting at from, into one piece for each item. */
  ghost predicate Covers(items: seq<Item>, cuts: seq<int>, text: string, from: int)
  {
    && |cuts| == |items| + 1
    && cuts[0] == from
    && 0 <= from <= |text|
    && forall i | 0 <= i < |items| :: Fits(items[i], text, cuts[i], cuts[i + 1])
  }

  /** The items match some stretch of text that starts at from. */
  ghost predicate Matches(items: seq<Item>, text: string, from: int)
  {
    exists cuts :: Covers(items, cuts, text, from)
  }

  /** The meaning of a whole pattern: with a leading '^' a match at the start, without
      it a match anywhere, the empty suffix included. */
  ghost predicate Means(re: string, text: string)
  {
    if re != [] && re[0] == '^' then Matches(Items(re[1..]), text, 0)
    else exists from :: 0 <= from <= |text| && Matches(Items(re), text, from)
  }

  lemma MatchesNone(text: string, from: int)
    ensures Matches([], text, from) <==> 0 <= from <= |text|
  {
    if 0 <= from <= |text| {
      assert Covers([], [from], text, from);
    }
  }

  /** A match takes its first item at from and the others where that item ends. */
  lemma MatchesStep(item: Item, rest: seq<Item>, text: string, from: int)
    ensures Matches([item] + rest, text, from) <==>
              exists k :: Fits(item, text, from, k) && Matches(rest, text, k)
  {
    var items := [item] + rest;
    if Matches(items, text, from) {
      var cuts :| Covers(items, cuts, text, from);
      assert Fits(items[0], text, cuts[0], cuts[1]);
      forall i | 0 <= i < |rest| ensures Fits(rest[i], text, cuts[1..][i], cuts[1..][i + 1]) {
        assert Fits(items[i + 1], text, cuts[i + 1], cuts[i + 2]);
      }
      assert Covers(rest, cuts[1..], text, cuts[1]);
    }
    if k :| Fits(item, text, from, k) && Matches(rest, text, k) {
      var cuts :| Covers(rest, cuts, text, k);
      var all := [from] + cuts;
      forall i | 0 <= i < |items| ensures Fits(items[i], text, all[i], all[i + 1]) {
        if i > 0 {
          assert Fits(rest[i - 1], text, cuts[i - 1], cuts[i]);
        }
      }
      assert Covers(items, all, text, from);
    }
  }

  // -------------------------------------------------------- the matcher

  /** match: re anywhere in text. */
  method Match(re: string, text: string) returns (found: bool)
    ensures found <==> Means(re, text)
  {
    if re != [] && re[0] == '^' {
      found := MatchHere(re[1..], text, 0);
      return;
    }
    var t := 0;
    while true
      invariant 0 <= t <= |text|
      invariant forall u | 0 <= u < t :: !Matches(Items(re), text, u)
      decreases |text| - t
    {
      found := MatchHere(re, text, t);
      if found || t == |text| {
        return;
      }
      t := t + 1;
    }
  }

  /** matchhere: re at position t of text. */
  method MatchHere(re: string, text: string, t: nat) returns (found: bool)
    requires t <= |text|
    ensures found <==> Matches(Items(re), text, t)
    decreases |re|, |text| - t, 0
  {
    if re == [] {
      MatchesNone(text, t);
      return true;
    }
    if |re| >= 2 && re[1] == '*' {
      found := MatchStar(re[0], re[2..], text, t);
      return;
    }
    if re == ['$'] {
      MatchesStep(AtEnd, [], text, t);
      MatchesNone(text, t);
      assert [AtEnd] + [] == Items(re);
      return t == |text|;
    }
    MatchesStep(One(re[0]), Items(re[1..]), text, t);
    if t < |text| && (re[0] == '.' || re[0] == text[t]) {
      found := MatchHere(re[1..], text, t + 1);
    } else {
      found := false;
    }
  }

  /** matchstar: c* and then re at position t of text. */
  method MatchStar(c: char, re: string, text: string, t: nat) returns (found: bool)
    requires t <= |text|
    ensures found <==> Matches([Many(c)] + Items(re), text, t)
    decreases |re|, |text| - t, 1
  {
    MatchesStep(Many(c), Items(re), text, t);
    var u := t;
    while true
      invariant t <= u <= |text|
      invariant forall k | t <= k < u :: Admits(c, text[k]) && !Matches(Items(re), text, k)
      decreases |text| - u
    {
      found := MatchHere(re, text, u);
      if found {
        assert Fits(Many(c), text, t, u);
        return;
      }
      if u == |text| || !(text[u] == c || c == '.') {
        return;
      }
      u := u + 1;
    }
  }

  // --------------------------------------------------- laws of patterns

  /** No character of it is special. */
  predicate Literal(re: string)
  {
    forall i | 0 <= i < |re| :: re[i] != '^' && re[i] != '$' && re[i] != '.' && re[i] != '*'
  }

  /** re stands in text at place from. */
  predicate StandsAt(re: string, text: string, from: int)
  {
    0 <= from && from + |re| <= |text| && text[from..from + |re|] == re
  }

  lemma StandsStep(re: string, text: string, from: int)
    requires re != []
    ensures StandsAt(re, text, from) <==> 0 <= from < |text| && text[from] == re[0] && StandsAt(re[1..], text, from + 1)
  {
    if StandsAt(re, text, from) {
      var part := text[from..from + |re|];
      assert part[0] == text[from] && part[1..] == text[from + 1..from + |re|];
    }
    if 0 <= from < |text| && text[from] == re[0] && StandsAt(re[1..], text, from + 1) {
      assert re == [re[0]] + re[1..];
      assert text[from..from + |re|] == [text[from]] + text[from + 1..from + |re|];
    }
  }

  /** A literal followed by more of a pattern: it stands there, and the rest matches behind it. */
  lemma {:induction false} LiteralThen(re: string, tail: string, text: string, from: int)
    requires Literal(re) && (tail != [] ==> tail[0] != '*')
    ensures Matches(Items(re + tail), text, from) <==>
              StandsAt(re, text, from) && Matches(Items(tail), text, from + |re|)
    decreases |re|
  {
    if re == [] {
      assert re + tail == tail;
      if Matches(Items(tail), text, from) {
        var cuts :| Covers(Items(tail), cuts, text, from);
        assert text[from..from] == [];
      }
      return;
    }
    var all, more := re + tail, re[1..] + tail;
    assert all[0] == re[0] && all[1..] == more;
    assert |all| >= 2 ==> all[1] == (if |re| >= 2 then re[1] else tail[0]);
    assert Items(all) == [One(re[0])] + Items(more);
    MatchesStep(One(re[0]), Items(more), text, from);
    LiteralThen(re[1..], tail, text, from + 1);
    StandsStep(re, text, from);
    if 0 <= from < |text| && text[from] == re[0] && Matches(Items(more), text, from + 1) {
      assert Fits(One(re[0]), text, from, from + 1);
    }
  }

  lemma ItemsEnd(text: string, from: int)
    ensures Matches(Items("$"), text, from) <==> from == |text|
  {
    assert Items("$") == [AtEnd] + [];
    MatchesStep(AtEnd, [], text, from);
    MatchesNone(text, |text|);
    if from == |text| {
      assert Fits(AtEnd, text, from, from);
    }
  }

  /** A literal pattern is a search for a substring; '^' ties it to the front of the text and
      '$' to the end. */
  lemma LiteralMeans(re: string, text: string)
    requires Literal(re)
    ensures Means(re, text) <==> exists from :: StandsAt(re, text, from)
    ensures Means("^" + re, text) <==> re <= text
    ensures Means("^" + re + "$", text) <==> re == text
  {
    forall from ensures Matches(Items(re), text, from) <==> StandsAt(re, text, from) {
      LiteralThen(re, [], text, from);
      assert re + [] == re;
      MatchesNone(text, from + |re|);
    }
    assert ("^" + re)[1..] == re;
    assert StandsAt(re, text, 0) <==> re <= text;
    var both := "^" + re + "$";
    assert both[1..] == re + "$";
    LiteralThen(re, "$", text, 0);
    ItemsEnd(text, |re|);
  }

  /** "c*" takes any number of c, none included, and ".*" any text at all. */
  lemma StarMeans(c: char, re: string, text: string, from: int)
    ensures Matches(Items([c, '*'] + re), text, from) <==>
              exists k :: 0 <= from <= k <= |text| && Matches(Items(re), text, k)
                          && (c == '.' || forall i | from <= i < k :: text[i] == c)
  {
    var all := [c, '*'] + re;
    assert all[2..] == re;
    MatchesStep(Many(c), Items(re), text, from);
    if k :| 0 <= from <= k <= |text| && Matches(Items(re), text, k)
            && (c == '.' || forall i | from <= i < k :: text[i] == c) {
      assert Fits(Many(c), text, from, k);
    }
    if k :| Fits(Many(c), text, from, k) && Matches(Items(re), text, k) {
      assert c == '.' || forall i | from <= i < k :: text[i] == c;
    }
  }

  /** '.' takes exactly one character, whatever it is. */
  lemma DotMeans(re: string, text: string, from: int)
    requires re != [] ==> re[0] != '*'
    ensures Matches(Items(['.'] + re), text, from) <==>
              0 <= from < |text| && Matches(Items(re), text, from + 1)
  {
    var all := ['.'] + re;
    assert all[1..] == re;
    MatchesStep(One('.'), Items(re), text, from);
    if 0 <= from < |text| {
      assert Fits(One('.'), text, from, from + 1);
    }
  }
}
