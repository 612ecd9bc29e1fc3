/**
 * The JavaScript string operations the handlers use, over `seq<char>`:
 * `indexOf`, `includes`, `trim`, `toLowerCase` and `split`. Whitespace and
 * letter case are the ASCII ones.
 */
module Text {

  /** ASCII whitespace, as `\s` and `trim` see it: space, tab, line feed, vertical tab, form feed, carriage return. */
  predicate IsSpace(c: char) {
    c == ' ' || c == '\t' || c == '\n' || c == '\U{000B}' || c == '\U{000C}' || c == '\r'
  }

  predicate AllSpace(s: string) {
    forall i :: 0 <= i < |s| ==> IsSpace(s[i])
  }

  /** `\d`: an ASCII decimal digit. */
  predicate IsDigit(c: char) {
    '0' <= c <= '9'
  }

  predicate AllDigits(s: string) {
    forall i :: 0 <= i < |s| ==> IsDigit(s[i])
  }

  /** Neither the first nor the last character is whitespace. */
  predicate NoEdgeSpace(s: string) {
    s == [] || (!IsSpace(s[0]) && !IsSpace(s[|s| - 1]))
  }

  // ---------------------------------------------------------------- search

  /** `pat` occurs in `s` starting at index `i`. */
  predicate MatchAt(s: string, pat: string, i: nat) {
    i + |pat| <= |s| && s[i..i + |pat|] == pat
  }

  /**
   * `s.indexOf(pat, from)`: the least index at or after `from` where `pat`
   * occurs, or -1. JavaScript clamps `from` to the length, so for an empty
   * pattern searched from beyond the end it answers the length, not -1; the
   * handlers search only for nonempty patterns.
   */
  function IndexOf(s: string, pat: string, from: nat): (r: int)
    ensures r == -1 || (from <= r && MatchAt(s, pat, r))
    ensures r == -1 ==> forall i: nat :: from <= i ==> !MatchAt(s, pat, i)
    ensures r != -1 ==> forall i: nat :: from <= i < r ==> !MatchAt(s, pat, i)
    decreases |s| - from
  {
    if from + |pat| > |s| then -1
    else if s[from..from + |pat|] == pat then from
    else IndexOf(s, pat, from + 1)
  }

  /** `s.includes(sub)`. */
  predicate Contains(s: string, sub: string) {
    IndexOf(s, sub, 0) != -1
  }

  lemma ContainsIff(s: string, sub: string)
    ensures Contains(s, sub) <==> exists i: nat :: MatchAt(s, sub, i)
  {
  }

  // ---------------------------------------------------------------- case

  /** ASCII `toLowerCase` of one character. */
  function LowerChar(c: char): char {
    if 'A' <= c <= 'Z' then (c as int + 32) as char else c
  }

  /** ASCII `toLowerCase`. */
  function Lower(s: string): (r: string)
    ensures |r| == |s|
    ensures forall i :: 0 <= i < |s| ==> r[i] == LowerChar(s[i])
  {
    seq(|s|, i requires 0 <= i < |s| => LowerChar(s[i]))
  }

  lemma LowerIdempotent(s: string)
    ensures Lower(Lower(s)) == Lower(s)
  {
  }

  // ---------------------------------------------------------------- trim

  /** Drops leading whitespace. */
  function TrimStart(s: string): (r: string)
    ensures |r| <= |s| && r == s[|s| - |r|..]
    ensures AllSpace(s[..|s| - |r|])
    ensures r == [] || !IsSpace(r[0])
  {
    if s != [] && IsSpace(s[0]) then
      var t := s[1..];
      var r := TrimStart(t);
      assert s[|s| - |r|..] == t[|t| - |r|..];
      assert s[..|s| - |r|] == [s[0]] + t[..|t| - |r|];
      AllSpaceConcat([s[0]], t[..|t| - |r|]);
      r
    else s
  }

  /** Drops trailing whitespace. */
  function TrimEnd(s: string): (r: string)
    ensures |r| <= |s| && r == s[..|r|]
    ensures AllSpace(s[|r|..])
    ensures r == [] || !IsSpace(r[|r| - 1])
  {
    if s != [] && IsSpace(s[|s| - 1]) then
      var t := s[..|s| - 1];
      var r := TrimEnd(t);
      assert s[..|r|] == t[..|r|];
      assert s[|r|..] == t[|r|..] + [s[|s| - 1]];
      AllSpaceConcat(t[|r|..], [s[|s| - 1]]);
      r
    else s
  }

  lemma AllSpaceConcat(a: string, b: string)
    requires AllSpace(a) && AllSpace(b)
    ensures AllSpace(a + b)
  {
    forall i | 0 <= i < |a + b| ensures IsSpace((a + b)[i]) {
      if i < |a| { assert (a + b)[i] == a[i]; } else { assert (a + b)[i] == b[i - |a|]; }
    }
  }

  /**
   * `r` is `s` with its leading and trailing whitespace cut off: a
   * contiguous piece of `s` with nothing but whitespace around it and no
   * whitespace at either edge.
   */
  ghost predicate IsTrimOf(s: string, r: string) {
    NoEdgeSpace(r) && exists a: nat :: TrimAt(s, r, a)
  }

  /** `r` sits in `s` at index `a` with only whitespace before and after it. */
  ghost predicate TrimAt(s: string, r: string, a: nat) {
    a + |r| <= |s| && r == s[a..a + |r|] && SpaceOutside(s, a, a + |r|)
  }

  /** `s.trim()`. */
  function Trim(s: string): (r: string)
    ensures IsTrimOf(s, r)
  {
    var e := TrimEnd(s);
    var r := TrimStart(e);
    TrimIsTrimOf(s, e, r);
    r
  }

  lemma TrimIsTrimOf(s: string, e: string, r: string)
    requires e == TrimEnd(s) && r == TrimStart(e)
    ensures IsTrimOf(s, r)
  {
    var a := |e| - |r|;
    TrimAtEdges(s, e, r);
    if r != [] {
      assert r[|r| - 1] == e[|e| - 1];
    }
  }

  lemma TrimAtEdges(s: string, e: string, r: string)
    requires e == TrimEnd(s) && r == TrimStart(e)
    ensures TrimAt(s, r, |e| - |r|)
  {
    var a := |e| - |r|;
    assert s[..a] == e[..a];
    assert r == s[a..|e|];
    SpaceOutsideFromSlices(s, a, |e|);
  }

  /** A string with no whitespace at its edges is its own trim. */
  lemma TrimOfItself(s: string)
    requires NoEdgeSpace(s)
    ensures Trim(s) == s
  {
    assert TrimAt(s, s, 0);
    TrimOfUnique(s, Trim(s), s);
  }

  /** Trailing whitespace makes no difference to `TrimEnd`. */
  lemma {:induction false} TrimEndSpaceSuffix(s: string, ws: string)
    requires AllSpace(ws)
    ensures TrimEnd(s + ws) == TrimEnd(s)
    decreases |ws|
  {
    if ws != [] {
      var n := |s + ws|;
      assert IsSpace(ws[|ws| - 1]);
      assert (s + ws)[n - 1] == ws[|ws| - 1];
      assert (s + ws)[..n - 1] == s + ws[..|ws| - 1];
      TrimEndSpaceSuffix(s, ws[..|ws| - 1]);
    } else {
      assert s + ws == s;
    }
  }

  /** Trailing whitespace makes no difference to `Trim`. */
  lemma TrimSpaceSuffix(s: string, ws: string)
    requires AllSpace(ws)
    ensures Trim(s + ws) == Trim(s)
  {
    TrimEndSpaceSuffix(s, ws);
  }

  /** `IsTrimOf` pins the result down: `Trim` is the only function that meets its contract. */
  lemma TrimOfUnique(s: string, r1: string, r2: string)
    requires IsTrimOf(s, r1) && IsTrimOf(s, r2)
    ensures r1 == r2
  {
    var a1: nat :| TrimAt(s, r1, a1);
    var a2: nat :| TrimAt(s, r2, a2);
    var e1, e2 := a1 + |r1|, a2 + |r2|;
    assert s[a1..e1] == r1 && s[a2..e2] == r2;
    SameCore(s, a1, e1, a2, e2);
  }

  /** Every index of `s` outside `[a, e)` holds whitespace. */
  ghost predicate SpaceOutside(s: string, a: nat, e: nat) {
    forall i :: 0 <= i < |s| && (i < a || e <= i) ==> IsSpace(s[i])
  }

  lemma SpaceOutsideFromSlices(s: string, a: nat, e: nat)
    requires a <= e <= |s| && AllSpace(s[..a]) && AllSpace(s[e..])
    ensures SpaceOutside(s, a, e)
  {
    forall i | 0 <= i < |s| && (i < a || e <= i) ensures IsSpace(s[i]) {
      if i < a { assert s[..a][i] == s[i]; } else { assert s[e..][i - e] == s[i]; }
    }
  }

  /** Two whitespace-free-edged cores with only whitespace around them are the same piece. */
  lemma SameCore(s: string, a1: nat, e1: nat, a2: nat, e2: nat)
    requires a1 <= e1 <= |s| && a2 <= e2 <= |s|
    requires SpaceOutside(s, a1, e1) && SpaceOutside(s, a2, e2)
    requires NoEdgeSpace(s[a1..e1]) && NoEdgeSpace(s[a2..e2])
    ensures s[a1..e1] == s[a2..e2]
  {
    if a1 < e1 { assert s[a1..e1][0] == s[a1] && s[a1..e1][e1 - a1 - 1] == s[e1 - 1]; }
    if a2 < e2 { assert s[a2..e2][0] == s[a2] && s[a2..e2][e2 - a2 - 1] == s[e2 - 1]; }
  }

  // ---------------------------------------------------------------- split

  /** Number of occurrences of `c` in `s`. */
  function Count(s: string, c: char): nat {
    if s == [] then 0 else (if s[0] == c then 1 else 0) + Count(s[1..], c)
  }

  /** Counting is additive over concatenation. */
  lemma {:induction false} CountConcat(a: string, b: string, c: char)
    ensures Count(a + b, c) == Count(a, c) + Count(b, c)
  {
    if a != [] {
      assert (a + b)[0] == a[0] && (a + b)[1..] == a[1..] + b;
      CountConcat(a[1..], b, c);
    } else {
      assert a + b == b;
    }
  }

  /** `s.split(sep)` for a one-character separator: every piece, empty ones included, in order. */
  function Split(s: string, sep: char): (r: seq<string>)
    ensures |r| == Count(s, sep) + 1
    ensures forall i :: 0 <= i < |r| ==> sep !in r[i]
  {
    if s == [] then [""]
    else
      var rest := Split(s[1..], sep);
      if s[0] == sep then [""] + rest
      else
        var r := [[s[0]] + rest[0]] + rest[1..];
        assert forall i :: 1 <= i < |r| ==> r[i] == rest[i];
        r
  }

  /** `pieces.join(sep)`. */
  function Join(pieces: seq<string>, sep: char): string
    requires |pieces| >= 1
  {
    if |pieces| == 1 then pieces[0] else pieces[0] + [sep] + Join(pieces[1..], sep)
  }

  /** One step of `Split`: the first character either ends the first piece or joins it. */
  lemma SplitCons(s: string, sep: char)
    requires s != []
    ensures s[0] == sep ==> Split(s, sep) == [""] + Split(s[1..], sep)
    ensures s[0] != sep ==> Split(s, sep) == [[s[0]] + Split(s[1..], sep)[0]] + Split(s[1..], sep)[1..]
  {
  }

  /** Joining the pieces of a split gives back the original string. */
  lemma {:induction false} JoinSplit(s: string, sep: char)
    ensures Join(Split(s, sep), sep) == s
  {
    if s != [] {
      var rest := Split(s[1..], sep);
      JoinSplit(s[1..], sep);
      SplitCons(s, sep);
      var r := Split(s, sep);
      if s[0] == sep {
        assert r[1..] == rest;
      } else {
        assert rest == [r[0][1..]] + r[1..];
        JoinFirst(r, rest, sep);
      }
    }
  }

  /** Splitting a join of separator-free pieces gives back the pieces. */
  lemma {:induction false} SplitJoin(pieces: seq<string>, sep: char)
    requires |pieces| >= 1
    requires forall i :: 0 <= i < |pieces| ==> sep !in pieces[i]
    ensures Split(Join(pieces, sep), sep) == pieces
    decreases |pieces|, |pieces[0]|
  {
    var p := pieces[0];
    if p == [] {
      if |pieces| > 1 {
        var rest := pieces[1..];
        assert forall i :: 0 <= i < |rest| ==> rest[i] == pieces[i + 1];
        SplitJoin(rest, sep);
        SplitJoinEmptyHead(pieces, sep);
      }
    } else {
      var tail := [p[1..]] + pieces[1..];
      assert forall i :: 1 <= i < |tail| ==> tail[i] == pieces[i];
      assert sep !in p[1..];
      SplitJoin(tail, sep);
      SplitJoinHeadChar(pieces, tail, sep);
    }
  }

  lemma SplitJoinEmptyHead(pieces: seq<string>, sep: char)
    requires |pieces| > 1 && pieces[0] == []
    requires Split(Join(pieces[1..], sep), sep) == pieces[1..]
    ensures Split(Join(pieces, sep), sep) == pieces
  {
    var j := Join(pieces, sep);
    assert j == [sep] + Join(pieces[1..], sep);
    assert j[0] == sep && j[1..] == Join(pieces[1..], sep);
    SplitCons(j, sep);
    assert Split(j, sep) == [""] + pieces[1..];
    assert pieces == [pieces[0]] + pieces[1..];
  }

  lemma SplitJoinHeadChar(pieces: seq<string>, tail: seq<string>, sep: char)
    requires |pieces| >= 1 && pieces[0] != [] && pieces[0][0] != sep
    requires tail == [pieces[0][1..]] + pieces[1..]
    requires Split(Join(tail, sep), sep) == tail
    ensures Split(Join(pieces, sep), sep) == pieces
  {
    var p, j := pieces[0], Join(pieces, sep);
    JoinFirst(pieces, tail, sep);
    assert j[0] == p[0] && j[1..] == Join(tail, sep);
    SplitCons(j, sep);
    assert Split(j, sep) == [[p[0]] + tail[0]] + tail[1..];
    assert tail[0] == p[1..] && tail[1..] == pieces[1..];
    assert [p[0]] + p[1..] == p;
    assert pieces == [p] + pieces[1..];
  }

  /** Moving the first character of the first piece out of a join. */
  lemma JoinFirst(pieces: seq<string>, tail: seq<string>, sep: char)
    requires |pieces| >= 1 && pieces[0] != []
    requires tail == [pieces[0][1..]] + pieces[1..]
    ensures Join(pieces, sep) == [pieces[0][0]] + Join(tail, sep)
  {
    var p := pieces[0];
    assert p == [p[0]] + p[1..];
    if |pieces| > 1 {
      assert tail[1..] == pieces[1..];
    }
  }
}
