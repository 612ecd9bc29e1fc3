/**
 * The stock route: turn upstream inventory lines of the form
 * `Name **xN**` into name/stock records and assemble the five category
 * lists with a timestamp.
 */
module Stock {
  import opened Wrappers
  import opened Text
  import opened Http
  import opened Json

  datatype StockItem = StockItem(name: string, stock: string)

  // ------------------------------------------------------------ the two regular expressions

  /** Length of the run of ASCII digits starting at index `i`. */
  function DigitRun(s: string, i: nat): (n: nat)
    requires i <= |s|
    ensures i + n <= |s| && AllDigits(s[i..i + n])
    ensures i + n == |s| || !IsDigit(s[i + n])
    decreases |s| - i
  {
    if i < |s| && IsDigit(s[i]) then
      var n := 1 + DigitRun(s, i + 1);
      assert s[i..i + n] == [s[i]] + s[i + 1..i + n];
      n
    else 0
  }

  /** Length of the run of whitespace starting at index `i`. */
  function SpaceRun(s: string, i: nat): (n: nat)
    requires i <= |s|
    ensures i + n <= |s| && AllSpace(s[i..i + n])
    ensures i + n == |s| || !IsSpace(s[i + n])
    decreases |s| - i
  {
    if i < |s| && IsSpace(s[i]) then
      var n := 1 + SpaceRun(s, i + 1);
      assert s[i..i + n] == [s[i]] + s[i + 1..i + n];
      n
    else 0
  }

  /**
   * `**x`, one or more digits, `**` starts at index `p`. The digits are
   * the whole run after the `x`: taking fewer would leave a digit where
   * the closing `*` must stand, so the greedy `\d+` is the only way to match.
   */
  predicate MarkerAt(s: string, p: nat) {
    && p + 3 <= |s| && s[p..p + 3] == "**x"
    && var d := DigitRun(s, p + 3);
       d > 0 && p + 3 + d + 2 <= |s| && s[p + 3 + d] == '*' && s[p + 4 + d] == '*'
  }

  /** Index just past the marker at `p`. */
  function MarkerEnd(s: string, p: nat): nat
    requires MarkerAt(s, p)
  {
    p + 5 + DigitRun(s, p + 3)
  }

  /** Where `item.match` with the pattern `\*\*x(\d+)\*\*` matches: the leftmost marker at or after `from`. */
  function FindMarker(s: string, from: nat): (r: Option<nat>)
    ensures r.Some? ==> from <= r.value && MarkerAt(s, r.value)
    ensures r.Some? ==> forall p: nat :: from <= p < r.value ==> !MarkerAt(s, p)
    ensures r.None? ==> forall p: nat :: from <= p ==> !MarkerAt(s, p)
    decreases |s| - from
  {
    if from >= |s| then None
    else if MarkerAt(s, from) then Some(from)
    else FindMarker(s, from + 1)
  }

  /**
   * The pattern `\s*\*\*x\d+\*\*$` matches at index `p`: whitespace, then a marker
   * that ends the string. As with the digits, `\s*` can only match the
   * whole whitespace run.
   */
  predicate TrailAt(s: string, p: nat) {
    p <= |s| && var q := p + SpaceRun(s, p); MarkerAt(s, q) && MarkerEnd(s, q) == |s|
  }

  /** Where `item.replace` with that pattern cuts: the leftmost trailing match at or after `from`. */
  function FindTrail(s: string, from: nat): (r: Option<nat>)
    ensures r.Some? ==> from <= r.value && TrailAt(s, r.value)
    ensures r.Some? ==> forall p: nat :: from <= p < r.value ==> !TrailAt(s, p)
    ensures r.None? ==> forall p: nat :: from <= p ==> !TrailAt(s, p)
    decreases |s| - from
  {
    if from > |s| then None
    else if TrailAt(s, from) then Some(from)
    else FindTrail(s, from + 1)
  }

  // ------------------------------------------------------------ extractCounts

  /** `stock`: the digits of the leftmost marker, or "0" when there is none. */
  function StockOf(s: string): string {
    match FindMarker(s, 0)
    case Some(p) => s[p + 3..p + 3 + DigitRun(s, p + 3)]
    case None => "0"
  }

  /** `name`: the line with a trailing marker (and the whitespace before it) cut off, then trimmed. */
  function NameOf(s: string): string {
    match FindTrail(s, 0)
    case Some(p) => Trim(s[..p])
    case None => Trim(s)
  }

  /** The callback of `items.map` in `extractCounts`. */
  function ParseLine(s: string): (r: StockItem)
    ensures |r.stock| > 0 && AllDigits(r.stock)
    ensures NoEdgeSpace(r.name)
  {
    StockIsDigits(s);
    NameIsTrimmed(s);
    StockItem(NameOf(s), StockOf(s))
  }

  /** `extractCounts`: one record per line, in order, each from its own line alone. */
  function ExtractCounts(items: seq<string>): (r: seq<StockItem>)
    ensures |r| == |items|
    ensures forall i :: 0 <= i < |items| ==> r[i] == ParseLine(items[i])
  {
    if items == [] then [] else [ParseLine(items[0])] + ExtractCounts(items[1..])
  }

  // ------------------------------------------------------------ properties of one line

  /** The stock is always a nonempty run of ASCII digits. */
  lemma StockIsDigits(s: string)
    ensures |StockOf(s)| > 0 && AllDigits(StockOf(s))
  {
    if FindMarker(s, 0).None? {
      assert StockOf(s) == "0";
    }
  }

  /** A line without a marker has stock "0". */
  lemma StockWithoutMarker(s: string)
    requires forall p: nat :: !MarkerAt(s, p)
    ensures StockOf(s) == "0"
  {
    assert FindMarker(s, 0).None?;
  }

  /** The stock is the digit run of the leftmost marker anywhere in the line. */
  lemma StockIsLeftmostMarker(s: string, p: nat)
    requires MarkerAt(s, p) && forall q: nat :: q < p ==> !MarkerAt(s, q)
    ensures StockOf(s) == s[p + 3..MarkerEnd(s, p) - 2]
  {
    var r := FindMarker(s, 0);
    assert r.Some?;
    assert !(r.value < p) && !(p < r.value);
  }

  /** The name never starts or ends with whitespace. */
  lemma NameIsTrimmed(s: string)
    ensures NoEdgeSpace(NameOf(s))
  {
  }

  /** A run of digits that stops at a non-digit (or the end) is exactly what `DigitRun` measures. */
  lemma {:induction false} DigitRunExact(s: string, i: nat, n: nat)
    requires i + n <= |s| && AllDigits(s[i..i + n])
    requires i + n == |s| || !IsDigit(s[i + n])
    ensures DigitRun(s, i) == n
    decreases n
  {
    if n > 0 {
      assert s[i..i + n][0] == s[i];
      assert s[i + 1..i + n] == s[i..i + n][1..];
      DigitRunExact(s, i + 1, n - 1);
    }
  }

  /** Inside a marker that ends the string no other marker can start. */
  lemma NoMarkerInsideEndMarker(s: string, q1: nat, q2: nat)
    requires MarkerAt(s, q1) && MarkerEnd(s, q1) == |s| && q1 < q2
    ensures !MarkerAt(s, q2)
  {
    var d := DigitRun(s, q1 + 3);
    if q2 + 3 <= |s| && q2 + 2 < q1 + 3 + d {
      assert s[q1 + 3..q1 + 3 + d][q2 + 2 - (q1 + 3)] == s[q2 + 2];
      assert s[q2..q2 + 3][2] != 'x';
    }
  }

  /** At most one marker ends the string. */
  lemma EndMarkerUnique(s: string, q1: nat, q2: nat)
    requires MarkerAt(s, q1) && MarkerAt(s, q2)
    requires MarkerEnd(s, q1) == |s| && MarkerEnd(s, q2) == |s|
    ensures q1 == q2
  {
    if q1 < q2 {
      NoMarkerInsideEndMarker(s, q1, q2);
    } else if q2 < q1 {
      NoMarkerInsideEndMarker(s, q2, q1);
    }
  }

  /** A line that ends with a marker at `q` is named by what precedes the marker, trimmed. */
  lemma NameBeforeEndMarker(s: string, q: nat)
    requires MarkerAt(s, q) && MarkerEnd(s, q) == |s|
    ensures NameOf(s) == Trim(s[..q])
  {
    TrailBeforeEndMarker(s, q);
    var p := FindTrail(s, 0).value;
    assert s[..q] == s[..p] + s[p..q];
    TrimSpaceSuffix(s[..p], s[p..q]);
  }

  /** The replace cuts a line ending with a marker at `q` where the whitespace before `q` begins. */
  lemma TrailBeforeEndMarker(s: string, q: nat)
    requires MarkerAt(s, q) && MarkerEnd(s, q) == |s|
    ensures FindTrail(s, 0).Some? && FindTrail(s, 0).value <= q
    ensures AllSpace(s[FindTrail(s, 0).value..q])
  {
    assert s[q] == s[q..q + 3][0] == '*';
    assert SpaceRun(s, q) == 0;
    assert TrailAt(s, q);
    var p := FindTrail(s, 0).value;
    EndMarkerUnique(s, p + SpaceRun(s, p), q);
  }

  /** `**x`, a digit run, `**` placed at index `q` and ending the string is a marker there. */
  lemma MarkerOfLayout(s: string, q: nat, digits: string)
    requires |digits| > 0 && AllDigits(digits)
    requires q <= |s| && s[q..] == "**x" + digits + "**"
    ensures MarkerAt(s, q) && MarkerEnd(s, q) == |s|
  {
    var t := s[q..];
    assert s[q..q + 3] == t[..3] == "**x";
    assert s[q + 3..q + 3 + |digits|] == t[3..3 + |digits|] == digits;
    assert s[q + 3 + |digits|] == t[3 + |digits|] == '*';
    assert s[q + 4 + |digits|] == t[4 + |digits|] == '*';
    DigitRunExact(s, q + 3, |digits|);
  }

  /**
   * A line that ends with whitespace and a marker is named by what comes
   * before them, trimmed.
   */
  lemma NameOfMarkedLine(pre: string, ws: string, digits: string)
    requires AllSpace(ws) && |digits| > 0 && AllDigits(digits)
    ensures NameOf(pre + ws + "**x" + digits + "**") == Trim(pre)
  {
    var s := pre + ws + "**x" + digits + "**";
    var q := |pre + ws|;
    assert s == (pre + ws) + ("**x" + digits + "**");
    assert s[..q] == pre + ws;
    assert s[q..] == "**x" + digits + "**";
    MarkerOfLayout(s, q, digits);
    NameBeforeEndMarker(s, q);
    TrimSpaceSuffix(pre, ws);
  }

  /** A line that does not end with a marker is named by the whole line, trimmed. */
  lemma NameWithoutEndMarker(s: string)
    requires forall q: nat :: MarkerAt(s, q) ==> MarkerEnd(s, q) != |s|
    ensures NameOf(s) == Trim(s)
  {
    forall p: nat | p <= |s| ensures !TrailAt(s, p) {
      var q := p + SpaceRun(s, p);
      assert !(MarkerAt(s, q) && MarkerEnd(s, q) == |s|);
    }
  }

  /** A line whose last character is not `*` keeps any marker in its name: the name is the whole line, trimmed. */
  lemma NameWithoutTrailingMarker(s: string)
    requires s == [] || s[|s| - 1] != '*'
    ensures NameOf(s) == Trim(s)
  {
    forall q: nat | MarkerAt(s, q) ensures MarkerEnd(s, q) != |s| {
      assert s[MarkerEnd(s, q) - 1] == '*';
    }
    NameWithoutEndMarker(s);
  }

  /** A line without an `x` holds no marker. */
  lemma NoMarkerWithoutX(s: string)
    requires 'x' !in s
    ensures forall p: nat :: !MarkerAt(s, p)
  {
    forall p: nat ensures !MarkerAt(s, p) {
      if p + 3 <= |s| {
        assert s[p..p + 3][2] == s[p + 2];
      }
    }
  }

  /** A marked line: the marker and the space before it leave the name. */
  lemma ParseMarkedExample()
    ensures ParseLine("Apple **x3**") == StockItem("Apple", "3")
  {
    AppleName();
    MarkerInApple("Apple **x3**");
  }

  lemma AppleName()
    ensures NameOf("Apple **x3**") == "Apple"
  {
    AppleLayout();
    NameOfMarkedLine("Apple", " ", "3");
    AppleTrimmed();
  }

  lemma AppleLayout()
    ensures "Apple" + " " + "**x" + "3" + "**" == "Apple **x3**"
  {
  }

  lemma AppleTrimmed()
    ensures Trim("Apple") == "Apple"
  {
    TrimOfItself("Apple");
  }

  /** A line without a marker: the whole line is the name and the stock is "0". */
  lemma ParseUnmarkedExample()
    ensures ParseLine("Banana") == StockItem("Banana", "0")
  {
    BananaName();
    BananaStock();
  }

  lemma BananaName()
    ensures NameOf("Banana") == "Banana"
  {
    PlainLineName("Banana");
  }

  /** A line with no whitespace at its edges and no `*` at its end is its own name. */
  lemma PlainLineName(s: string)
    requires NoEdgeSpace(s) && (s == [] || s[|s| - 1] != '*')
    ensures NameOf(s) == s
  {
    NameWithoutTrailingMarker(s);
    TrimOfItself(s);
  }

  lemma BananaStock()
    ensures StockOf("Banana") == "0"
  {
    NoMarkerWithoutX("Banana");
    StockWithoutMarker("Banana");
  }

  /** A marker followed by a space still gives the stock, but stays in the name. */
  lemma ParseSpaceAfterMarkerExample()
    ensures ParseLine("Apple **x3** ") == StockItem("Apple **x3**", "3")
  {
    SpacedAppleName();
    MarkerInApple("Apple **x3** ");
  }

  lemma SpacedAppleName()
    ensures NameOf("Apple **x3** ") == "Apple **x3**"
  {
    assert "Apple **x3** " == "Apple **x3**" + " ";
    NameOfSpacedLine("Apple **x3** ", "Apple **x3**");
  }

  /** A line that is a trimmed text plus one space is named by that text. */
  lemma NameOfSpacedLine(line: string, core: string)
    requires line == core + " " && NoEdgeSpace(core)
    ensures NameOf(line) == core
  {
    NameWithoutTrailingMarker(line);
    TrimSpaceSuffix(core, " ");
    TrimOfItself(core);
  }

  /** The two example lines parse in order into their records. */
  lemma ExtractCountsExample()
    ensures ExtractCounts(["Apple **x3**", "Banana"]) == [StockItem("Apple", "3"), StockItem("Banana", "0")]
  {
    ParseMarkedExample();
    ParseUnmarkedExample();
  }

  /** The leftmost marker of both "Apple" examples sits at index 6 and holds "3". */
  lemma MarkerInApple(s: string)
    requires s == "Apple **x3**" || s == "Apple **x3** "
    ensures StockOf(s) == "3"
  {
    forall p: nat | p < 6 ensures !MarkerAt(s, p) {
      assert s[p..p + 3][0] == s[p];
    }
    assert s[6..9] == "**x";
    DigitRunExact(s, 9, 1);
    assert MarkerAt(s, 6);
    assert FindMarker(s, 0) == Some(6);
    assert s[9..10] == "3";
  }

  // ------------------------------------------------------------ GET

  /**
   * The lines of a listed category for `item.match`: the strings of the
   * list, or None when one of them is not a string (it has no `match`
   * method, and calling it throws a TypeError).
   */
  function Lines(elems: seq<Value>): (r: Option<seq<string>>)
    ensures r.Some? <==> forall i :: 0 <= i < |elems| ==> elems[i].Str?
    ensures r.Some? ==> |r.value| == |elems| && forall i :: 0 <= i < |elems| ==> r.value[i] == elems[i].s
  {
    if elems == [] then Some([])
    else
      assert forall i :: 1 <= i < |elems| ==> elems[i] == elems[1..][i - 1];
      if !elems[0].Str? then None
      else
        match Lines(elems[1..])
        case None => None
        case Some(rest) => Some([elems[0].s] + rest)
  }

  /** A category whose parsing throws: present and truthy, but not a list, or a list holding a non-string. */
  predicate ListThrows(list: Option<Value>) {
    TruthyProp(list) && (!list.value.Arr? || exists i :: 0 <= i < |list.value.elems| && !list.value.elems[i].Str?)
  }

  /** `extractCounts(list || [])`; None when `map` or `match` throws. */
  function CountsOrEmpty(list: Option<Value>): (r: Option<seq<StockItem>>)
    ensures r.None? <==> ListThrows(list)
    ensures r.Some? && !TruthyProp(list) ==> r.value == []
    ensures r.Some? && TruthyProp(list) ==>
              && list.value.Arr? && |r.value| == |list.value.elems|
              && forall i :: 0 <= i < |r.value| ==> list.value.elems[i].Str? && r.value[i] == ParseLine(list.value.elems[i].s)
  {
    if !TruthyProp(list) then Some([])
    else if !list.value.Arr? then None
    else
      match Lines(list.value.elems)
      case None => None
      case Some(lines) => Some(ExtractCounts(lines))
  }

  /** `formattedData.Data`: the timestamp and the five parsed categories. */
  datatype StockData = StockData(
    updatedAt: Value,
    gear: seq<StockItem>, seeds: seq<StockItem>, egg: seq<StockItem>,
    honey: seq<StockItem>, cosmetics: seq<StockItem>)

  /** `formattedData`, the body of the answer: the data under the key `Data`. */
  datatype FormattedData = FormattedData(Data: StockData)

  /** Some category of the two documents makes `extractCounts` throw. */
  predicate SomeListThrows(main: Value, special: Value) {
    || ListThrows(Prop(main, "gear")) || ListThrows(Prop(main, "seeds")) || ListThrows(Prop(main, "egg"))
    || ListThrows(Prop(special, "honey")) || ListThrows(Prop(special, "cosmetics"))
  }

  /**
   * The assembly of `formattedData` from the two decoded documents: a
   * null document throws at its first property read, and a category that
   * is not a list of strings throws in `extractCounts` (None). Otherwise
   * the upstream `updatedAt` when it is truthy, whatever its type, and
   * `now` when it is missing or falsy; each category parsed, a missing or
   * falsy one empty.
   */
  function Format(main: Value, special: Value, now: int): (d: Option<FormattedData>)
    ensures d.None? <==> main.Null? || special.Null? || SomeListThrows(main, special)
    ensures d.Some? && TruthyProp(Prop(main, "updatedAt")) ==> d.value.Data.updatedAt == Prop(main, "updatedAt").value
    ensures d.Some? && !TruthyProp(Prop(main, "updatedAt")) ==> d.value.Data.updatedAt == Num(now as real)
    ensures d.Some? ==>
              && Some(d.value.Data.gear) == CountsOrEmpty(Prop(main, "gear"))
              && Some(d.value.Data.seeds) == CountsOrEmpty(Prop(main, "seeds"))
              && Some(d.value.Data.egg) == CountsOrEmpty(Prop(main, "egg"))
              && Some(d.value.Data.honey) == CountsOrEmpty(Prop(special, "honey"))
              && Some(d.value.Data.cosmetics) == CountsOrEmpty(Prop(special, "cosmetics"))
  {
    if main.Null? || special.Null? then None
    else
      var updatedAt := Prop(main, "updatedAt");
      var gear, seeds, egg := CountsOrEmpty(Prop(main, "gear")), CountsOrEmpty(Prop(main, "seeds")), CountsOrEmpty(Prop(main, "egg"));
      var honey, cosmetics := CountsOrEmpty(Prop(special, "honey")), CountsOrEmpty(Prop(special, "cosmetics"));
      if gear.None? || seeds.None? || egg.None? || honey.None? || cosmetics.None? then None
      else
        Some(FormattedData(StockData(
          if TruthyProp(updatedAt) then updatedAt.value else Num(now as real),
          gear.value, seeds.value, egg.value, honey.value, cosmetics.value)))
  }

  /**
   * `GET`: both upstream documents are needed; a failure of either is a
   * 500 with its message (the main document's when both fail), and a
   * TypeError while formatting is a 500 with the engine's message.
   */
  function GetStock(main: Fetch<Value>, special: Fetch<Value>, now: int): (r: Response<FormattedData>)
    ensures r.Ok? <==> main.Received? && special.Received? && Format(main.body, special.body, now).Some?
    ensures r.Ok? ==> r.body == Format(main.body, special.body, now).value
    ensures !main.Received? ==> r == Fail(500, FetchFailure(main))
    ensures main.Received? && !special.Received? ==> r == Fail(500, FetchFailure(special))
    ensures main.Received? && special.Received? && Format(main.body, special.body, now).None? ==> r == Fail(500, EngineError)
  {
    if !main.Received? then Fail(500, FetchFailure(main))
    else if !special.Received? then Fail(500, FetchFailure(special))
    else
      match Format(main.body, special.body, now)
      case None => Fail(500, EngineError)
      case Some(d) => Ok(d)
  }
}
