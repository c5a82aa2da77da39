/** Option nodes (TypeParser.parseOptionTree): a name and either one positional
    parameter stored under "value" or named parameters from PAIR children. */
module Options {
  import opened Ast
  import opened Errors
  import opened Literals

  /** An option with its parameters; a later parameter of the same name replaces an earlier one. */
  datatype SchemaOption = SchemaOption(name: string, parameters: map<string, Literal>)

  /** A PAIR child that contributes a named parameter. */
  predicate IsNamedPair(c: Node)
  {
    c.kind == PairToken && |c.children| == 2
  }

  /** The single-positional-parameter form: exactly two children, the second not a PAIR. */
  predicate IsPositional(cs: seq<Node>)
  {
    |cs| == 2 && cs[1].kind != PairToken && cs[1].kind != NoToken
  }

  /** The named parameters the children from here on add to `acc`, in order. */
  function NamedParameters(cs: seq<Node>, acc: map<string, Literal>): Result<map<string, Literal>>
  {
    if cs == [] then Ok(acc)
    else if cs[0].kind == NoToken then Err(NullReference)
    else if IsNamedPair(cs[0]) then
      match ParseLiteral(cs[0].children[1].text)
      case Err(e) => Err(e)
      case Ok(v) => NamedParameters(cs[1..], acc[cs[0].children[0].text := v])
    else NamedParameters(cs[1..], acc)
  }

  /** The option an option node denotes. */
  function OptionOf(n: Node): (r: Result<SchemaOption>)
    ensures r.Ok? ==> |n.children| > 0 && r.value.name == n.children[0].text
  {
    var cs := n.children;
    if |cs| == 0 then Err(NullReference)
    else if |cs| == 2 && cs[1].kind == NoToken then Err(NullReference)
    else if IsPositional(cs) then
      match ParseLiteral(cs[1].text)
      case Err(e) => Err(e)
      case Ok(v) => Ok(SchemaOption(cs[0].text, map["value" := v]))
    else
      match NamedParameters(cs[1..], map[])
      case Err(e) => Err(e)
      case Ok(m) => Ok(SchemaOption(cs[0].text, m))
  }

  /** The last named pair among `cs` whose name is `k`, an independent reference
      for which parameter value wins. */
  function LastPair(cs: seq<Node>, k: string): (r: Option<Node>)
    ensures r.Some? ==> IsNamedPair(r.value) && r.value.children[0].text == k
    ensures r.Some? <==> exists j :: 0 <= j < |cs| && IsNamedPair(cs[j]) && cs[j].children[0].text == k
  {
    if cs == [] then None
    else
      var later := LastPair(cs[1..], k);
      assert forall j :: 1 <= j < |cs| ==> cs[j] == cs[1..][j - 1];
      if later.Some? then later
      else if IsNamedPair(cs[0]) && cs[0].children[0].text == k then Some(cs[0])
      else None
  }

  /** The pair LastPair finds sits at some index `j`, and no named pair after
      `j` carries the same name. */
  lemma {:induction false} LastPairIsLast(cs: seq<Node>, k: string) returns (j: nat)
    requires LastPair(cs, k).Some?
    ensures j < |cs| && cs[j] == LastPair(cs, k).value
    ensures forall j' :: j < j' < |cs| ==> !(IsNamedPair(cs[j']) && cs[j'].children[0].text == k)
  {
    var later := LastPair(cs[1..], k);
    if later.Some? {
      var j1 := LastPairIsLast(cs[1..], k);
      j := j1 + 1;
      forall j' | j < j' < |cs| ensures !(IsNamedPair(cs[j']) && cs[j'].children[0].text == k) {
        assert cs[j'] == cs[1..][j' - 1];
      }
    } else {
      j := 0;
      forall j' | 0 < j' < |cs| ensures !(IsNamedPair(cs[j']) && cs[j'].children[0].text == k) {
        assert cs[j'] == cs[1..][j' - 1];
      }
    }
  }

  /** The named parameters: a name is present exactly when some named pair
      carries it (or it was there before), and its value is the literal of the
      last pair that carries it. */
  lemma NamedParametersContent(cs: seq<Node>, acc: map<string, Literal>, m: map<string, Literal>)
    requires NamedParameters(cs, acc) == Ok(m)
    ensures forall k :: k in m <==> k in acc || LastPair(cs, k).Some?
    ensures forall k :: LastPair(cs, k).Some? ==>
      ParseLiteral(LastPair(cs, k).value.children[1].text) == Ok(m[k])
    ensures forall k :: k in acc && LastPair(cs, k).None? ==> m[k] == acc[k]
  {
    forall k ensures (k in m <==> k in acc || LastPair(cs, k).Some?) {
      NamedParametersKeys(cs, acc, m, k);
    }
    forall k | LastPair(cs, k).Some? ensures ParseLiteral(LastPair(cs, k).value.children[1].text) == Ok(m[k]) {
      NamedParametersKeys(cs, acc, m, k);
      NamedParametersValue(cs, acc, m, k);
    }
    forall k | k in acc && LastPair(cs, k).None? ensures m[k] == acc[k] {
      NamedParametersKept(cs, acc, m, k);
    }
  }

  lemma {:induction false} NamedParametersKeys(cs: seq<Node>, acc: map<string, Literal>, m: map<string, Literal>, k: string)
    requires NamedParameters(cs, acc) == Ok(m)
    ensures k in m <==> k in acc || LastPair(cs, k).Some?
  {
    if cs != [] {
      if IsNamedPair(cs[0]) {
        var v := ParseLiteral(cs[0].children[1].text).value;
        NamedParametersKeys(cs[1..], acc[cs[0].children[0].text := v], m, k);
      } else {
        NamedParametersKeys(cs[1..], acc, m, k);
      }
    }
  }

  lemma {:induction false} NamedParametersValue(cs: seq<Node>, acc: map<string, Literal>, m: map<string, Literal>, k: string)
    requires NamedParameters(cs, acc) == Ok(m)
    requires LastPair(cs, k).Some? && k in m
    ensures ParseLiteral(LastPair(cs, k).value.children[1].text) == Ok(m[k])
  {
    if IsNamedPair(cs[0]) {
      var v := ParseLiteral(cs[0].children[1].text).value;
      if LastPair(cs[1..], k).Some? {
        NamedParametersValue(cs[1..], acc[cs[0].children[0].text := v], m, k);
      } else {
        NamedParametersKept(cs[1..], acc[cs[0].children[0].text := v], m, k);
      }
    } else {
      NamedParametersValue(cs[1..], acc, m, k);
    }
  }

  lemma {:induction false} NamedParametersKept(cs: seq<Node>, acc: map<string, Literal>, m: map<string, Literal>, k: string)
    requires NamedParameters(cs, acc) == Ok(m)
    requires k in acc && LastPair(cs, k).None?
    ensures k in m && m[k] == acc[k]
  {
    if cs != [] {
      if IsNamedPair(cs[0]) {
        var v := ParseLiteral(cs[0].children[1].text).value;
        NamedParametersKept(cs[1..], acc[cs[0].children[0].text := v], m, k);
      } else {
        NamedParametersKept(cs[1..], acc, m, k);
      }
    }
  }

  /** Exactly two children with a non-PAIR second child give one parameter, "value". */
  lemma PositionalOption(n: Node)
    requires IsPositional(n.children)
    ensures OptionOf(n).Ok? <==> ParseLiteral(n.children[1].text).Ok?
    ensures OptionOf(n).Ok? ==>
      OptionOf(n).value.parameters == map["value" := ParseLiteral(n.children[1].text).value]
      && |OptionOf(n).value.parameters| == 1
  {
  }

  /** The named form fails exactly at a nil child or at a named pair whose literal fails. */
  lemma {:induction false} NamedParametersOk(cs: seq<Node>, acc: map<string, Literal>)
    ensures NamedParameters(cs, acc).Ok? <==>
      (forall j :: 0 <= j < |cs| ==> cs[j].kind != NoToken)
      && (forall j :: 0 <= j < |cs| && IsNamedPair(cs[j]) ==> ParseLiteral(cs[j].children[1].text).Ok?)
  {
    if cs != [] {
      assert forall j :: 1 <= j < |cs| ==> cs[j] == cs[1..][j - 1];
      if cs[0].kind != NoToken {
        if IsNamedPair(cs[0]) {
          if ParseLiteral(cs[0].children[1].text).Ok? {
            NamedParametersOk(cs[1..], acc[cs[0].children[0].text := ParseLiteral(cs[0].children[1].text).value]);
          }
        } else {
          NamedParametersOk(cs[1..], acc);
        }
      }
    }
  }

  /** Otherwise the option is read exactly when no child after the name is nil
      and every named pair's literal is; only named pairs add parameters, the
      last pair of a name winning, and every other child is ignored. */
  lemma NamedOption(n: Node)
    requires |n.children| > 0 && !IsPositional(n.children)
    ensures OptionOf(n).Ok? <==>
      (forall j :: 1 <= j < |n.children| ==> n.children[j].kind != NoToken)
      && (forall j :: 1 <= j < |n.children| && IsNamedPair(n.children[j]) ==>
            ParseLiteral(n.children[j].children[1].text).Ok?)
    ensures OptionOf(n).Ok? ==> forall k :: k in OptionOf(n).value.parameters <==>
      exists j :: 1 <= j < |n.children| && IsNamedPair(n.children[j]) && n.children[j].children[0].text == k
    ensures OptionOf(n).Ok? ==> forall k :: k in OptionOf(n).value.parameters ==>
      ParseLiteral(LastPair(n.children[1..], k).value.children[1].text) == Ok(OptionOf(n).value.parameters[k])
  {
    var cs := n.children;
    NamedParametersOk(cs[1..], map[]);
    assert forall j :: 1 <= j < |cs| ==> cs[j] == cs[1..][j - 1];
    if !OptionOf(n).Ok? {
      return;
    }
    var m := OptionOf(n).value.parameters;
    NamedParametersContent(cs[1..], map[], m);
    forall k ensures LastPair(cs[1..], k).Some? <==>
      exists j :: 1 <= j < |cs| && IsNamedPair(cs[j]) && cs[j].children[0].text == k
    {
      if LastPair(cs[1..], k).Some? {
        var j :| 0 <= j < |cs[1..]| && IsNamedPair(cs[1..][j]) && cs[1..][j].children[0].text == k;
        assert cs[j + 1] == cs[1..][j];
      }
      if exists j :: 1 <= j < |cs| && IsNamedPair(cs[j]) && cs[j].children[0].text == k {
        var j :| 1 <= j < |cs| && IsNamedPair(cs[j]) && cs[j].children[0].text == k;
        assert cs[1..][j - 1] == cs[j];
      }
    }
  }

  /** parseOptionTree: the option's name, then either the positional parameter
      or a loop over the children adding each named pair. */
  method ParseOptionTree(n: Node) returns (r: Result<SchemaOption>)
    ensures r == OptionOf(n)
  {
    var cs := n.children;
    if |cs| == 0 || (|cs| == 2 && cs[1].kind == NoToken) {
      return Err(NullReference);
    }
    var name := cs[0].text;
    var parameters: map<string, Literal> := map[];
    if |cs| == 2 && cs[1].kind != PairToken {
      var v := ParseLiteral(cs[1].text);
      if v.Err? {
        return Err(v.error);
      }
      parameters := parameters["value" := v.value];
    } else {
      var x := 1;
      while x < |cs|
        invariant 1 <= x <= |cs|
        invariant NamedParameters(cs[x..], parameters) == NamedParameters(cs[1..], map[])
      {
        var child := cs[x];
        assert cs[x..][0] == child && cs[x..][1..] == cs[x + 1..];
        if child.kind == NoToken {
          return Err(NullReference);
        }
        if child.kind == PairToken && |child.children| == 2 {
          var v := ParseLiteral(child.children[1].text);
          if v.Err? {
            return Err(v.error);
          }
          parameters := parameters[child.children[0].text := v.value];
        }
        x := x + 1;
      }
    }
    return Ok(SchemaOption(name, parameters));
  }
}
