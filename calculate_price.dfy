/**
 * The price route: check the `Name` and `Weight` query parameters, build
 * the `tool` record the valuation function expects, and answer with
 * `{ value: <result> }`. Both the float parser and the valuation function
 * are parameters: their behaviour is not part of this model.
 */
module CalculatePrice {
  import opened Wrappers
  import opened Text
  import opened Json
  import opened Http

  const MissingParameters := "Missing required parameters: Name, Weight"
  const InvalidWeight := "Weight must be a valid number"
  const InternalError := "Internal server error"

  /** The `tool` object: `Name`, `Weight.value`, `Variant.value` and `attributes`. */
  datatype Tool = Tool(name: string, weight: real, variant: string, attributes: seq<string>)

  /** `variant || 'Normal'`. */
  function VariantOf(variant: Option<string>): (r: string)
    ensures r != ""
    ensures variant.Some? && variant.value != "" ==> r == variant.value
    ensures variant.None? || variant.value == "" ==> r == "Normal"
  {
    if variant.Some? && variant.value != "" then variant.value else "Normal"
  }

  /** Every piece trimmed, in order. */
  function TrimAll(pieces: seq<string>): (r: seq<string>)
    ensures |r| == |pieces|
    ensures forall i :: 0 <= i < |r| ==> IsTrimOf(pieces[i], r[i])
  {
    seq(|pieces|, i requires 0 <= i < |pieces| => Trim(pieces[i]))
  }

  /**
   * `mutation ? mutation.split(',').map(m => m.trim()) : []`: nothing for
   * a missing or empty parameter, otherwise one attribute per comma-separated
   * piece, empty pieces kept, each trimmed.
   */
  function Attributes(mutation: Option<string>): (r: seq<string>)
    ensures mutation.None? || mutation.value == "" ==> r == []
    ensures mutation.Some? && mutation.value != "" ==>
              |r| == Count(mutation.value, ',') + 1
              && forall i :: 0 <= i < |r| ==> IsTrimOf(Split(mutation.value, ',')[i], r[i]) && ',' !in r[i]
  {
    if mutation.Some? && mutation.value != "" then
      var r := TrimAll(Split(mutation.value, ','));
      forall i | 0 <= i < |r| ensures ',' !in r[i] {
        TrimIsPiece(Split(mutation.value, ',')[i], r[i]);
      }
      r
    else []
  }

  /** A trim is a piece of its input, so it holds no character the input lacks. */
  lemma TrimIsPiece(s: string, r: string)
    requires IsTrimOf(s, r)
    ensures forall c :: c in r ==> c in s
  {
    var a: nat :| TrimAt(s, r, a);
    forall c | c in r ensures c in s {
      var k :| 0 <= k < |r| && r[k] == c;
      assert s[a..a + |r|][k] == s[a + k];
    }
  }

  /** The `tool` object built from the parameters and the parsed weight. */
  function BuildTool(name: string, weight: real, variant: Option<string>, mutation: Option<string>): (t: Tool)
    ensures t.name == name && t.weight == weight
    ensures t.variant == VariantOf(variant) && t.attributes == Attributes(mutation)
  {
    Tool(name, weight, VariantOf(variant), Attributes(mutation))
  }

  /** The parameters are present and nonempty, and the weight parses: what the valuation function is called with. */
  predicate Accepted(q: Query, parseFloat: string -> Option<real>) {
    ParamOrEmpty(q, "Name") != "" && ParamOrEmpty(q, "Weight") != "" && parseFloat(ParamOrEmpty(q, "Weight")).Some?
  }

  /** The tool an accepted request hands to the valuation function. */
  function ToolOf(q: Query, parseFloat: string -> Option<real>): (t: Tool)
    requires Accepted(q, parseFloat)
    ensures Param(q, "Name") == Some(t.name) && t.name != ""
    ensures parseFloat(ParamOrEmpty(q, "Weight")) == Some(t.weight)
    ensures t.variant == VariantOf(Param(q, "Variant")) && t.attributes == Attributes(Param(q, "Mutation"))
  {
    BuildTool(ParamOrEmpty(q, "Name"), parseFloat(ParamOrEmpty(q, "Weight")).value, Param(q, "Variant"), Param(q, "Mutation"))
  }

  /**
   * `GET` as written. `parseFloat` gives None for NaN; `calculateFruit`
   * gives None when it throws. The 400 for an unparseable weight is thrown
   * inside the `try`, so the `catch` turns it into the 500 like any other
   * failure.
   */
  function CalculatePrice(q: Query, parseFloat: string -> Option<real>, calculateFruit: Tool -> Option<real>): (r: Response<Value>)
    ensures ParamOrEmpty(q, "Name") == "" || ParamOrEmpty(q, "Weight") == "" ==> r == Fail(400, Message(MissingParameters))
    ensures r.Ok? <==> Accepted(q, parseFloat) && calculateFruit(ToolOf(q, parseFloat)).Some?
    ensures r.Ok? ==> r.body == Obj(map["value" := Num(calculateFruit(ToolOf(q, parseFloat)).value)])
    ensures ParamOrEmpty(q, "Name") != "" && ParamOrEmpty(q, "Weight") != "" && !r.Ok? ==> r == Fail(500, Message(InternalError))
  {
    var name := ParamOrEmpty(q, "Name");
    var weight := ParamOrEmpty(q, "Weight");
    if name == "" || weight == "" then Fail(400, Message(MissingParameters))
    else
      match Attempt(q, parseFloat, calculateFruit)
      case Success(value) => Ok(Obj(map["value" := Num(value)]))
      case Failure(_) => Fail(500, Message(InternalError))
  }

  /** The body of the `try`: the error it throws, or the valuation. */
  function Attempt(q: Query, parseFloat: string -> Option<real>, calculateFruit: Tool -> Option<real>): (r: Result<real, Response<Value>>)
    requires ParamOrEmpty(q, "Name") != "" && ParamOrEmpty(q, "Weight") != ""
    ensures parseFloat(ParamOrEmpty(q, "Weight")).None? ==> r == Failure(Fail(400, Message(InvalidWeight)))
    ensures r.Success? <==> Accepted(q, parseFloat) && calculateFruit(ToolOf(q, parseFloat)).Some?
    ensures r.Success? ==> Some(r.value) == calculateFruit(ToolOf(q, parseFloat))
  {
    match parseFloat(ParamOrEmpty(q, "Weight"))
    case None => Failure(Fail(400, Message(InvalidWeight)))
    case Some(w) =>
      match calculateFruit(ToolOf(q, parseFloat))
      case Some(v) => Success(v)
      case None => Failure(Fail(500, Message(InternalError)))
  }

  /**
   * An unparseable weight is answered with 500 "Internal server error":
   * the 400 "Weight must be a valid number" never leaves the handler.
   */
  lemma UnparseableWeightIs500(parseFloat: string -> Option<real>, calculateFruit: Tool -> Option<real>)
    requires parseFloat("abc") == None
    ensures CalculatePrice([("Name", "Apple"), ("Weight", "abc")], parseFloat, calculateFruit) == Fail(500, Message(InternalError))
    ensures CalculatePrice([("Name", "Apple"), ("Weight", "abc")], parseFloat, calculateFruit) != Fail(400, Message(InvalidWeight))
  {
    var q := [("Name", "Apple"), ("Weight", "abc")];
    assert Param(q, "Name") == Some("Apple");
    assert Param(q[1..], "Weight") == Some("abc");
    assert Param(q, "Weight") == Some("abc");
  }

  /**
   * `GET` as evidently intended: the error thrown for an unparseable weight
   * reaches the client, and only a failing valuation becomes the 500.
   */
  function CalculatePriceIntended(q: Query, parseFloat: string -> Option<real>, calculateFruit: Tool -> Option<real>): (r: Response<Value>)
    ensures r.Ok? <==> Accepted(q, parseFloat) && calculateFruit(ToolOf(q, parseFloat)).Some?
    ensures r.Ok? ==> r.body == Obj(map["value" := Num(calculateFruit(ToolOf(q, parseFloat)).value)])
    ensures !r.Ok? ==> (r.status == 400 <==> !Accepted(q, parseFloat))
    ensures ParamOrEmpty(q, "Name") != "" && ParamOrEmpty(q, "Weight") != "" && !Accepted(q, parseFloat) ==> r == Fail(400, Message(InvalidWeight))
  {
    var name := ParamOrEmpty(q, "Name");
    var weight := ParamOrEmpty(q, "Weight");
    if name == "" || weight == "" then Fail(400, Message(MissingParameters))
    else
      match Attempt(q, parseFloat, calculateFruit)
      case Success(value) => Ok(Obj(map["value" := Num(value)]))
      case Failure(e) => e
  }

  /** The two versions differ only on requests whose weight does not parse. */
  lemma IntendedAgreesElsewhere(q: Query, parseFloat: string -> Option<real>, calculateFruit: Tool -> Option<real>)
    requires ParamOrEmpty(q, "Weight") == "" || parseFloat(ParamOrEmpty(q, "Weight")).Some?
    ensures CalculatePriceIntended(q, parseFloat, calculateFruit) == CalculatePrice(q, parseFloat, calculateFruit)
  {
  }

  // ------------------------------------------------------------ attributes

  /**
   * Comma-free pieces without whitespace at their edges come back unchanged
   * from a join and the split-and-trim, empty pieces and their order included.
   */
  lemma AttributesOfJoin(pieces: seq<string>)
    requires |pieces| >= 1 && Join(pieces, ',') != ""
    requires forall i :: 0 <= i < |pieces| ==> ',' !in pieces[i] && NoEdgeSpace(pieces[i])
    ensures Attributes(Some(Join(pieces, ','))) == pieces
  {
    SplitJoin(pieces, ',');
    TrimAllOfTrimmed(pieces);
  }

  /** Pieces without whitespace at their edges are left as they are by `TrimAll`. */
  lemma TrimAllOfTrimmed(pieces: seq<string>)
    requires forall i :: 0 <= i < |pieces| ==> NoEdgeSpace(pieces[i])
    ensures TrimAll(pieces) == pieces
  {
    var r := TrimAll(pieces);
    forall i | 0 <= i < |pieces| ensures r[i] == pieces[i] {
      TrimOfItself(pieces[i]);
      TrimOfUnique(pieces[i], r[i], pieces[i]);
    }
  }

  /** Whitespace around the commas makes no difference to the attributes. */
  lemma AttributesIgnoreSpaceAroundCommas(m: string, m': string)
    requires m != "" && m' != "" && |Split(m, ',')| == |Split(m', ',')|
    requires forall i :: 0 <= i < |Split(m, ',')| ==> Trim(Split(m, ',')[i]) == Trim(Split(m', ',')[i])
    ensures Attributes(Some(m)) == Attributes(Some(m'))
  {
    var a, a' := Attributes(Some(m)), Attributes(Some(m'));
    forall i | 0 <= i < |a| ensures a[i] == a'[i] {
      TrimOfUnique(Split(m, ',')[i], a[i], Trim(Split(m, ',')[i]));
      TrimOfUnique(Split(m', ',')[i], a'[i], Trim(Split(m', ',')[i]));
    }
  }

  // ------------------------------------------------------------ the worked example

  /** `Name=Apple&Weight=2.5&Variant=Golden&Mutation=Frozen,Wet`. */
  const AppleQuery: Query := [("Name", "Apple"), ("Weight", "2.5"), ("Variant", "Golden"), ("Mutation", "Frozen,Wet")]

  /** The example request reaches the valuation function with the expected tool. */
  lemma AppleTool(parseFloat: string -> Option<real>)
    requires parseFloat("2.5") == Some(2.5)
    ensures Accepted(AppleQuery, parseFloat)
    ensures ToolOf(AppleQuery, parseFloat) == Tool("Apple", 2.5, "Golden", ["Frozen", "Wet"])
  {
    AppleParams();
    FrozenWet();
  }

  lemma AppleParams()
    ensures Param(AppleQuery, "Name") == Some("Apple") && Param(AppleQuery, "Weight") == Some("2.5")
    ensures Param(AppleQuery, "Variant") == Some("Golden") && Param(AppleQuery, "Mutation") == Some("Frozen,Wet")
  {
    var q := AppleQuery;
    assert q[1..] == [("Weight", "2.5"), ("Variant", "Golden"), ("Mutation", "Frozen,Wet")];
    assert q[1..][1..] == [("Variant", "Golden"), ("Mutation", "Frozen,Wet")];
    assert q[1..][1..][1..] == [("Mutation", "Frozen,Wet")];
  }

  lemma FrozenWet()
    ensures Attributes(Some("Frozen,Wet")) == ["Frozen", "Wet"]
  {
    var pieces := ["Frozen", "Wet"];
    assert Join(pieces, ',') == "Frozen,Wet" by {
      assert pieces[1..] == ["Wet"];
    }
    assert ',' !in pieces[0] && ',' !in pieces[1];
    AttributesOfJoin(pieces);
  }

  /** Without `Weight` the example request is refused with 400 before anything else. */
  lemma AppleWithoutWeight(parseFloat: string -> Option<real>, calculateFruit: Tool -> Option<real>)
    ensures CalculatePrice([("Name", "Apple"), ("Variant", "Golden"), ("Mutation", "Frozen,Wet")], parseFloat, calculateFruit)
            == Fail(400, Message(MissingParameters))
  {
    var q := [("Name", "Apple"), ("Variant", "Golden"), ("Mutation", "Frozen,Wet")];
    assert forall i :: 0 <= i < |q| ==> q[i].0 != "Weight";
  }
}
