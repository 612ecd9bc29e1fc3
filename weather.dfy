/**
 * The weather route: pull the object stored under a key out of a
 * server-rendered page by brace counting, then decode it.
 */
module Weather {
  import opened Wrappers
  import opened Text
  import opened Json
  import opened Http

  /** How one character moves the brace depth: only `{` and `}` count, wherever they stand. */
  function Delta(c: char): int {
    if c == '{' then 1 else if c == '}' then -1 else 0
  }

  /** Brace depth at the end of `s`, counted from zero. */
  function Depth(s: string): int {
    if s == [] then 0 else Depth(s[..|s| - 1]) + Delta(s[|s| - 1])
  }

  /** The depth is the number of `{` minus the number of `}`. */
  lemma {:induction false} DepthCountsBraces(s: string)
    ensures Depth(s) + Count(s, '}') == Count(s, '{')
  {
    if s != [] {
      var init, last := s[..|s| - 1], s[|s| - 1];
      assert s == init + [last];
      CountConcat(init, [last], '{');
      CountConcat(init, [last], '}');
      assert [last][1..] == [];
      DepthCountsBraces(init);
    }
  }

  /** Depth of `t[p..e]`, the text scanned from index `p` up to (not including) `e`. */
  function Level(t: string, p: nat, e: nat): int
    requires p <= e <= |t|
  {
    Depth(t[p..e])
  }

  /** Scanning one more character moves the level by that character's `Delta`. */
  lemma LevelStep(t: string, p: nat, e: nat)
    requires p <= e < |t|
    ensures Level(t, p, e + 1) == Level(t, p, e) + Delta(t[e])
  {
    assert t[p..e + 1][..e - p] == t[p..e];
  }

  /** The braces of `t[p..j + 1]` balance: the scan from `p` is back at depth zero after index `j`. */
  predicate ClosesAt(t: string, p: nat, j: nat)
    requires p <= j < |t|
  {
    Level(t, p, j + 1) == 0
  }

  /** The key as it appears in the page, in double quotes. */
  function Quoted(key: string): string {
    "\"" + key + "\""
  }

  /**
   * Where the object starts: the first `{` at or after the first `:` at or
   * after the first quoted key; -1 when any of the three is missing.
   */
  function ObjectStart(text: string, key: string): (r: int)
    ensures r == -1 || (0 <= r < |text| && text[r] == '{')
  {
    var keyPos := IndexOf(text, Quoted(key), 0);
    if keyPos == -1 then -1
    else
      var colonPos := IndexOf(text, ":", keyPos);
      if colonPos == -1 then -1
      else
        var startPos := IndexOf(text, "{", colonPos);
        assert startPos != -1 ==> text[startPos..startPos + 1] == "{" && text[startPos] == text[startPos..startPos + 1][0];
        startPos
  }

  /** The first index `j` at or after `i` at which the braces of `t[start..j + 1]` balance. */
  function CloseFrom(t: string, start: nat, i: nat): (r: Option<nat>)
    requires start <= i <= |t|
    ensures r.Some? ==> i <= r.value < |t| && ClosesAt(t, start, r.value)
    ensures r.Some? ==> forall j :: i <= j < r.value ==> !ClosesAt(t, start, j)
    ensures r.None? ==> forall j :: i <= j < |t| ==> !ClosesAt(t, start, j)
    decreases |t| - i
  {
    if i == |t| then None
    else if ClosesAt(t, start, i) then Some(i)
    else CloseFrom(t, start, i + 1)
  }

  /**
   * What `extractJSONFromText(text, key)` returns: the slice from the
   * object's opening `{` up to where its braces first balance, or null.
   */
  function Extract(text: string, key: string): Option<string> {
    var start := ObjectStart(text, key);
    if start == -1 then None
    else
      match CloseFrom(text, start, start)
      case None => None
      case Some(j) => Some(text[start..j + 1])
  }

  /** `extractJSONFromText`: a running brace count over the text, stopping at the first return to zero. */
  method ExtractJSONFromText(text: string, key: string) returns (r: Option<string>)
    ensures r == Extract(text, key)
  {
    var keyPos := IndexOf(text, Quoted(key), 0);
    if keyPos == -1 { return None; }
    var colonPos := IndexOf(text, ":", keyPos);
    if colonPos == -1 { return None; }
    var startPos := IndexOf(text, "{", colonPos);
    if startPos == -1 { return None; }
    assert startPos == ObjectStart(text, key);

    var bracketCount := 0;
    var endPos := startPos;
    var i := startPos;
    while i < |text|
      invariant startPos <= i <= |text|
      invariant bracketCount == Level(text, startPos, i)
      invariant i > startPos ==> bracketCount != 0
      invariant CloseFrom(text, startPos, startPos) == CloseFrom(text, startPos, i)
    {
      LevelStep(text, startPos, i);
      CloseFromStep(text, startPos, i);
      if text[i] == '{' {
        bracketCount := bracketCount + 1;
      } else if text[i] == '}' {
        bracketCount := bracketCount - 1;
      }
      if bracketCount == 0 {
        assert ClosesAt(text, startPos, i);
        endPos := i;
        break;
      }
      assert !ClosesAt(text, startPos, i);
      i := i + 1;
    }

    if bracketCount != 0 {
      assert CloseFrom(text, startPos, startPos) == None;
      return None;
    }
    assert CloseFrom(text, startPos, startPos) == Some(endPos);
    return Some(text[startPos..endPos + 1]);
  }

  /** One step of `CloseFrom`: it stops at `i` exactly when the braces balance there. */
  lemma CloseFromStep(t: string, start: nat, i: nat)
    requires start <= i < |t|
    ensures ClosesAt(t, start, i) ==> CloseFrom(t, start, i) == Some(i)
    ensures !ClosesAt(t, start, i) ==> CloseFrom(t, start, i) == CloseFrom(t, start, i + 1)
  {
  }

  // ------------------------------------------------------------ properties

  /** No quoted key, or no `:` after it, or no `{` after that colon: the result is null. */
  lemma ExtractNullWhenNotLocated(text: string, key: string)
    ensures (forall i: nat :: !MatchAt(text, Quoted(key), i)) ==> Extract(text, key).None?
    ensures forall k: nat ::
              (MatchAt(text, Quoted(key), k) && (forall i: nat :: i < k ==> !MatchAt(text, Quoted(key), i))
               && (forall c: nat :: k <= c ==> !MatchAt(text, ":", c)))
              ==> Extract(text, key).None?
    ensures forall k: nat, c: nat ::
              (MatchAt(text, Quoted(key), k) && (forall i: nat :: i < k ==> !MatchAt(text, Quoted(key), i))
               && k <= c && MatchAt(text, ":", c) && (forall i: nat :: k <= i < c ==> !MatchAt(text, ":", i))
               && (forall o: nat :: c <= o ==> !MatchAt(text, "{", o)))
              ==> Extract(text, key).None?
  {
  }

  /** From an opening `{` at `p`, the level stays strictly positive up to the first index where it closes. */
  lemma {:induction false} LevelPositiveBeforeClose(t: string, p: nat, j: nat, k: nat)
    requires p < k <= j < |t| && t[p] == '{'
    requires forall m :: p <= m < j ==> !ClosesAt(t, p, m)
    ensures Level(t, p, k) > 0
    decreases k
  {
    LevelStep(t, p, k - 1);
    if k == p + 1 {
      assert t[p..p] == [];
    } else {
      LevelPositiveBeforeClose(t, p, j, k - 1);
      assert !ClosesAt(t, p, k - 1);
    }
  }

  /**
   * A non-null result is the slice of the text that starts at the object's
   * `{`: it starts with `{`, ends with `}`, and is at least two characters long.
   */
  lemma ExtractIsSlice(text: string, key: string)
    requires Extract(text, key).Some?
    ensures var o, p := Extract(text, key).value, ObjectStart(text, key);
      && 0 <= p && p + |o| <= |text| && o == text[p..p + |o|]
      && |o| >= 2 && o[0] == '{' && o[|o| - 1] == '}'
  {
    var p := ObjectStart(text, key);
    var j := CloseFrom(text, p, p).value;
    LevelStep(text, p, p);
    assert text[p..p] == [];
    assert j > p;
    LevelStep(text, p, j);
    LevelPositiveBeforeClose(text, p, j, j);
  }

  /**
   * A non-null result is balanced and is the shortest balanced prefix of
   * the text from the object's `{`: its braces cancel out, and every
   * nonempty proper prefix has strictly more `{` than `}`.
   */
  lemma ExtractBalanced(text: string, key: string)
    requires Extract(text, key).Some?
    ensures var o := Extract(text, key).value;
      && Count(o, '{') == Count(o, '}')
      && forall k :: 0 < k < |o| ==> Count(o[..k], '{') > Count(o[..k], '}')
  {
    var p := ObjectStart(text, key);
    var j := CloseFrom(text, p, p).value;
    assert Extract(text, key) == Some(text[p..j + 1]);
    SliceBalanced(text, p, j);
  }

  lemma SliceBalanced(text: string, p: nat, j: nat)
    requires p <= j < |text| && text[p] == '{' && ClosesAt(text, p, j)
    requires forall m :: p <= m < j ==> !ClosesAt(text, p, m)
    ensures var o := text[p..j + 1];
      && Count(o, '{') == Count(o, '}')
      && forall k :: 0 < k < |o| ==> Count(o[..k], '{') > Count(o[..k], '}')
  {
    var o := text[p..j + 1];
    DepthCountsBraces(o);
    forall k | 0 < k < |o| ensures Count(o[..k], '{') > Count(o[..k], '}') {
      PrefixOpensMore(text, p, j, k);
    }
  }

  lemma PrefixOpensMore(text: string, p: nat, j: nat, k: nat)
    requires p <= j < |text| && text[p] == '{' && 0 < k <= j - p
    requires forall m :: p <= m < j ==> !ClosesAt(text, p, m)
    ensures Count(text[p..j + 1][..k], '{') > Count(text[p..j + 1][..k], '}')
  {
    var s := text[p..j + 1][..k];
    assert s == text[p..p + k];
    LevelPositiveBeforeClose(text, p, j, p + k);
    assert Depth(s) > 0;
    DepthCountsBraces(s);
  }

  /**
   * The result is null exactly when, from the object's `{` on, the braces
   * never balance before the end of the text.
   */
  lemma ExtractNullIffUnbalanced(text: string, key: string)
    requires ObjectStart(text, key) != -1
    ensures var p := ObjectStart(text, key);
      Extract(text, key).None? <==> forall e :: p < e <= |text| ==> Level(text, p, e) != 0
  {
    var p := ObjectStart(text, key);
    if Extract(text, key).None? {
      forall e | p < e <= |text| ensures Level(text, p, e) != 0 {
        assert !ClosesAt(text, p, e - 1);
      }
    } else {
      var j := CloseFrom(text, p, p).value;
      assert Level(text, p, j + 1) == 0;
    }
  }

  /** An object's text as brace counting sees it: opens with `{`, its braces cancel out, and no nonempty proper prefix does. */
  predicate IsBalancedObject(o: string) {
    |o| > 0 && o[0] == '{' && Depth(o) == 0 && forall k :: 0 < k < |o| ==> Depth(o[..k]) > 0
  }

  lemma {:induction false} CloseFromFinds(t: string, p: nat, i: nat, e: nat)
    requires p <= i <= e < |t| && ClosesAt(t, p, e)
    requires forall j :: i <= j < e ==> !ClosesAt(t, p, j)
    ensures CloseFrom(t, p, i) == Some(e)
    decreases e - i
  {
    if i < e {
      CloseFromFinds(t, p, i + 1, e);
    }
  }

  /**
   * Embedding: when the first quoted key in the text is followed by `:`
   * and a balanced object, the extraction returns exactly that object,
   * whatever follows it.
   */
  lemma ExtractEmbedded(pre: string, key: string, o: string, post: string)
    requires ':' !in key
    requires IsBalancedObject(o)
    requires forall i: nat :: i < |pre| ==> !MatchAt(pre + Quoted(key) + ":" + o + post, Quoted(key), i)
    ensures Extract(pre + Quoted(key) + ":" + o + post, key) == Some(o)
  {
    var t := pre + Quoted(key) + ":" + o + post;
    var q := |pre|;
    var c := q + |key| + 2;
    var rest := Quoted(key) + ":" + o + post;
    assert t == pre + rest;
    assert t[q..] == rest;
    assert t[q..c] == Quoted(key) by {
      assert t[q..c] == t[q..][..|key| + 2];
      assert rest[..|key| + 2] == Quoted(key);
    }
    assert t[c] == ':' by { assert t[c] == rest[|key| + 2]; }
    assert t[c + 1..c + 1 + |o|] == o by {
      assert t[c + 1..c + 1 + |o|] == rest[|key| + 3..|key| + 3 + |o|];
    }
    ExtractAt(t, key, q, o);
  }

  lemma ExtractAt(t: string, key: string, q: nat, o: string)
    requires ':' !in key && IsBalancedObject(o)
    requires forall i: nat :: i < q ==> !MatchAt(t, Quoted(key), i)
    requires q + |key| + 2 + 1 + |o| <= |t|
    requires t[q..q + |key| + 2] == Quoted(key)
    requires t[q + |key| + 2] == ':'
    requires t[q + |key| + 3..q + |key| + 3 + |o|] == o
    ensures Extract(t, key) == Some(o)
  {
    var st := q + |key| + 3;
    assert t[st] == t[st..st + |o|][0] == o[0] == '{';
    ObjectStartAt(t, key, q, o[0]);
    ClosesAtEnd(t, st, o);
    assert st + |o| - 1 + 1 == st + |o|;
  }

  lemma ObjectStartAt(t: string, key: string, q: nat, brace: char)
    requires ':' !in key && brace == '{'
    requires forall i: nat :: i < q ==> !MatchAt(t, Quoted(key), i)
    requires q + |key| + 2 + 1 < |t|
    requires t[q..q + |key| + 2] == Quoted(key)
    requires t[q + |key| + 2] == ':' && t[q + |key| + 3] == brace
    ensures ObjectStart(t, key) == q + |key| + 3
  {
    var c := q + |key| + 2;
    assert MatchAt(t, Quoted(key), q);
    assert IndexOf(t, Quoted(key), 0) == q;
    ColonAfterKey(t, key, q);
    BraceAfterColon(t, c);
  }

  lemma ColonAfterKey(t: string, key: string, q: nat)
    requires ':' !in key && MatchAt(t, Quoted(key), q)
    requires q + |key| + 2 < |t| && t[q + |key| + 2] == ':'
    ensures IndexOf(t, ":", q) == q + |key| + 2
  {
    var c := q + |key| + 2;
    forall i: nat | q <= i < c ensures !MatchAt(t, ":", i) {
      assert t[i] == t[q..c][i - q] == Quoted(key)[i - q];
      assert t[i..i + 1][0] == t[i];
    }
    assert t[c..c + 1] == [t[c]];
    assert MatchAt(t, ":", c);
  }

  lemma BraceAfterColon(t: string, c: nat)
    requires c + 1 < |t| && t[c] == ':' && t[c + 1] == '{'
    ensures IndexOf(t, "{", c) == c + 1
  {
    assert t[c..c + 1] == [t[c]];
    assert t[c + 1..c + 2] == [t[c + 1]];
    assert MatchAt(t, "{", c + 1);
  }

  /** A balanced object at index `st` closes at its own last character. */
  lemma ClosesAtEnd(t: string, st: nat, o: string)
    requires st + |o| <= |t| && t[st..st + |o|] == o && IsBalancedObject(o)
    ensures CloseFrom(t, st, st) == Some(st + |o| - 1)
  {
    forall j | st <= j < st + |o| - 1 ensures !ClosesAt(t, st, j) {
      assert t[st..j + 1] == o[..j + 1 - st];
    }
    assert t[st..st + |o|] == o;
    CloseFromFinds(t, st, st, st + |o| - 1);
  }

  /**
   * Braces inside quoted strings are counted like any other: when a string
   * value is `"}"`, that brace closes the object early, whatever follows.
   */
  lemma BraceInStringClosesEarly(key: string, name: string, rest: string)
    requires ':' !in key && '{' !in name && '}' !in name
    ensures Extract(Quoted(key) + ":" + "{" + Quoted(name) + ":\"}" + rest, key)
         == Some("{" + Quoted(name) + ":\"}")
  {
    var mid := Quoted(name) + ":\"";
    var o := "{" + mid + "}";
    assert o == "{" + Quoted(name) + ":\"}";
    forall i | 0 <= i < |mid| ensures mid[i] != '{' && mid[i] != '}' {
      if 1 <= i <= |name| {
        assert mid[i] == name[i - 1];
      }
    }
    BracedIsBalanced(mid);
    assert "" + Quoted(key) + ":" + o + rest == Quoted(key) + ":" + "{" + Quoted(name) + ":\"}" + rest;
    ExtractEmbedded("", key, o, rest);
  }

  /** `{`, then text without braces, then `}`: a balanced object. */
  lemma BracedIsBalanced(mid: string)
    requires forall i :: 0 <= i < |mid| ==> mid[i] != '{' && mid[i] != '}'
    ensures IsBalancedObject("{" + mid + "}")
  {
    var o := "{" + mid + "}";
    forall k | 0 < k < |o| ensures Depth(o[..k]) > 0 {
      assert o[..k] == ("{" + mid)[..k];
      OpenThenPlain(mid, k);
    }
    assert o[..|o| - 1] == "{" + mid;
    OpenThenPlain(mid, |mid| + 1);
    assert ("{" + mid)[..|mid| + 1] == "{" + mid;
  }

  lemma {:induction false} OpenThenPlain(mid: string, k: nat)
    requires forall i :: 0 <= i < |mid| ==> mid[i] != '{' && mid[i] != '}'
    requires 0 < k <= |mid| + 1
    ensures Depth(("{" + mid)[..k]) == 1
  {
    var s := ("{" + mid)[..k];
    if k == 1 {
      assert s == [] + ['{'];
      assert s[..0] == [];
    } else {
      OpenThenPlain(mid, k - 1);
      assert s[..k - 1] == ("{" + mid)[..k - 1];
      assert s[k - 1] == mid[k - 2];
    }
  }

  // ------------------------------------------------------------ fetchWeatherData and GET

  /**
   * The weather `GET`: fetch the page, extract `weatherDataSSR`, decode it
   * with `parse` (JSON.parse, which fails with a message), and answer the
   * decoded object; every failure becomes a 500 carrying its message.
   */
  method GetWeather(fetched: Fetch<string>, parse: string -> Result<Value, string>) returns (r: Response<Value>)
    ensures !fetched.Received? ==> r == Fail(500, FetchFailure(fetched))
    ensures fetched.Received? && Extract(fetched.body, "weatherDataSSR").None? ==>
              r == Fail(500, Message("weatherDataSSR not found"))
    ensures fetched.Received? && Extract(fetched.body, "weatherDataSSR").Some? ==>
              var parsed := parse(Extract(fetched.body, "weatherDataSSR").value);
              r == if parsed.Success? then Ok(parsed.value)
                   else Fail(500, Message("Failed to parse extracted JSON: " + parsed.error))
  {
    if !fetched.Received? {
      return Fail(500, FetchFailure(fetched));
    }
    var jsonString := ExtractJSONFromText(fetched.body, "weatherDataSSR");
    if jsonString.None? {
      return Fail(500, Message("weatherDataSSR not found"));
    }
    var parsed := parse(jsonString.value);
    if parsed.Failure? {
      return Fail(500, Message("Failed to parse extracted JSON: " + parsed.error));
    }
    return Ok(parsed.value);
  }
}
