/** The type-expression resolver (TypeParser.parseType): a recursive-descent
    decoder over the flattened tokens of a property's type. The source removes
    tokens from the front of a shared list; the model threads a cursor. */
module TypeExpressions {
  import opened Ast
  import opened Errors
  import opened Types

  /** The decoding of the tokens: the resolved type and the tokens left over. */
  function DecodeType(resolve: string -> Option<Type>, toks: seq<Node>): (r: Result<(Type, seq<Node>)>)
    ensures r.Ok? ==> |r.value.1| < |toks|
    decreases |toks|
  {
    if |toks| == 0 then Err(IndexOutOfBounds)
    else match toks[0].kind
      case NoToken => Err(NullReference)
      case PrimitiveMarker =>
        if |toks| < 2 then Err(IndexOutOfBounds)
        else (
          match resolve(toks[1].text)
          case Some(t) => Ok((t, toks[2..]))
          case None => Err(TypeNotFound(toks[1].text)))
      case ListMarker => (
        match DecodeType(resolve, toks[1..])
        case Err(x) => Err(x)
        case Ok((e, rest)) => Ok((List(e), rest)))
      case SetMarker => (
        match DecodeType(resolve, toks[1..])
        case Err(x) => Err(x)
        case Ok((e, rest)) => Ok((Set(e), rest)))
      case MapMarker => (
        match DecodeType(resolve, toks[1..])
        case Err(x) => Err(x)
        case Ok((k, rest)) =>
          match DecodeType(resolve, rest)
          case Err(x) => Err(x)
          case Ok((v, rest')) => Ok((Map(k, v), rest')))
      case _ => Err(UnknownTypeMarker)
  }

/** The ways decoding fails at its first tokens: no tokens at all, a missing
      node, a marker that is none of the four, or a type name nothing resolves. */
  lemma DecodeTypeErrors(resolve: string -> Option<Type>, toks: seq<Node>)
    ensures |toks| == 0 ==> DecodeType(resolve, toks) == Err(IndexOutOfBounds)
    ensures |toks| > 0 && toks[0].kind == NoToken ==> DecodeType(resolve, toks) == Err(NullReference)
    ensures |toks| > 0 && toks[0].kind !in {NoToken, PrimitiveMarker, ListMarker, SetMarker, MapMarker}
            ==> DecodeType(resolve, toks) == Err(UnknownTypeMarker)
    ensures |toks| >= 2 && toks[0].kind == PrimitiveMarker && resolve(toks[1].text).None?
            ==> DecodeType(resolve, toks) == Err(TypeNotFound(toks[1].text))
  {
  }

    // ----- the encoder, the decoder's partner -----

  /** A type expression as written in a schema: a type name or a container of type expressions. */
  datatype TypeExpr =
    | Named(name: string)
    | ListOf(element: TypeExpr)
    | SetOf(element: TypeExpr)
    | MapOf(key: TypeExpr, value: TypeExpr)

  /** The flattened tokens the grammar produces for a type expression. */
  function Encode(e: TypeExpr): seq<Node>
  {
    match e
    case Named(n) => [Node(PrimitiveMarker, "", []), Node(OtherToken, n, [])]
    case ListOf(x) => [Node(ListMarker, "", [])] + Encode(x)
    case SetOf(x) => [Node(SetMarker, "", [])] + Encode(x)
    case MapOf(k, v) => [Node(MapMarker, "", [])] + Encode(k) + Encode(v)
  }

  /** Resolving every name of a type expression, left to right; the first name
      that does not resolve is the error. */
  function Resolve(resolve: string -> Option<Type>, e: TypeExpr): Result<Type>
  {
    match e
    case Named(n) => (match resolve(n) case Some(t) => Ok(t) case None => Err(TypeNotFound(n)))
    case ListOf(x) => (match Resolve(resolve, x) case Ok(t) => Ok(List(t)) case Err(err) => Err(err))
    case SetOf(x) => (match Resolve(resolve, x) case Ok(t) => Ok(Set(t)) case Err(err) => Err(err))
    case MapOf(k, v) => MapResult(Resolve(resolve, k), Resolve(resolve, v))
  }

  /** A map of the resolved key and value types; the key's error comes first. */
  function MapResult(rk: Result<Type>, rv: Result<Type>): Result<Type>
  {
    match rk
    case Err(err) => Err(err)
    case Ok(kt) => (match rv case Ok(vt) => Ok(Map(kt, vt)) case Err(err) => Err(err))
  }

  function WithRest(r: Result<Type>, rest: seq<Node>): Result<(Type, seq<Node>)>
  {
    match r
    case Ok(t) => Ok((t, rest))
    case Err(x) => Err(x)
  }

  /** Round trip: decoding the tokens of a type expression followed by any other
      tokens yields the resolved type with exactly those other tokens left over,
      or the first name that does not resolve. */
  lemma {:induction false} DecodeEncode(resolve: string -> Option<Type>, e: TypeExpr, suffix: seq<Node>)
    ensures DecodeType(resolve, Encode(e) + suffix) == WithRest(Resolve(resolve, e), suffix)
  {
    match e
    case Named(n) =>
      var toks := Encode(e) + suffix;
      assert toks[0].kind == PrimitiveMarker;
      assert toks[1].text == n && toks[2..] == suffix;
    case ListOf(x) =>
      DecodeEncode(resolve, x, suffix);
      DecodeEncodeList(resolve, x, suffix);
    case SetOf(x) =>
      DecodeEncode(resolve, x, suffix);
      DecodeEncodeSet(resolve, x, suffix);
    case MapOf(k, v) =>
      DecodeEncode(resolve, k, Encode(v) + suffix);
      DecodeEncode(resolve, v, suffix);
      DecodeEncodeMap(resolve, Encode(k), Encode(v), Resolve(resolve, k), Resolve(resolve, v), suffix);
      EncodeMapShape(k, v, suffix);
  }

  lemma EncodeMapShape(k: TypeExpr, v: TypeExpr, suffix: seq<Node>)
    ensures Encode(MapOf(k, v)) + suffix == [Node(MapMarker, "", [])] + (Encode(k) + (Encode(v) + suffix))
  {
  }

  lemma DecodeEncodeList(resolve: string -> Option<Type>, x: TypeExpr, suffix: seq<Node>)
    requires DecodeType(resolve, Encode(x) + suffix) == WithRest(Resolve(resolve, x), suffix)
    ensures DecodeType(resolve, Encode(ListOf(x)) + suffix) == WithRest(Resolve(resolve, ListOf(x)), suffix)
  {
    var toks := Encode(ListOf(x)) + suffix;
    assert toks[0].kind == ListMarker;
    assert toks[1..] == Encode(x) + suffix;
    match Resolve(resolve, x)
    case Ok(t) =>
      assert DecodeType(resolve, toks) == Ok((List(t), suffix));
    case Err(e) =>
      assert DecodeType(resolve, toks) == Err(e);
  }

  lemma DecodeEncodeSet(resolve: string -> Option<Type>, x: TypeExpr, suffix: seq<Node>)
    requires DecodeType(resolve, Encode(x) + suffix) == WithRest(Resolve(resolve, x), suffix)
    ensures DecodeType(resolve, Encode(SetOf(x)) + suffix) == WithRest(Resolve(resolve, SetOf(x)), suffix)
  {
    var toks := Encode(SetOf(x)) + suffix;
    assert toks[0].kind == SetMarker;
    assert toks[1..] == Encode(x) + suffix;
    match Resolve(resolve, x)
    case Ok(t) =>
      assert DecodeType(resolve, toks) == Ok((Set(t), suffix));
    case Err(e) =>
      assert DecodeType(resolve, toks) == Err(e);
  }

  /** The map step of the round trip, over the key's and the value's tokens. */
  lemma DecodeEncodeMap(resolve: string -> Option<Type>, ek: seq<Node>, ev: seq<Node>, rk: Result<Type>, rv: Result<Type>, suffix: seq<Node>)
    requires DecodeType(resolve, ek + (ev + suffix)) == WithRest(rk, ev + suffix)
    requires DecodeType(resolve, ev + suffix) == WithRest(rv, suffix)
    ensures DecodeType(resolve, [Node(MapMarker, "", [])] + (ek + (ev + suffix))) == WithRest(MapResult(rk, rv), suffix)
  {
    var toks := [Node(MapMarker, "", [])] + (ek + (ev + suffix));
    assert toks[0].kind == MapMarker && toks[1..] == ek + (ev + suffix);
    if rk.Ok? && rv.Ok? {
      assert DecodeType(resolve, toks) == Ok((Map(rk.value, rv.value), suffix));
    }
  }

  /** What the decoder leaves over is a suffix of its input: tokens are only
      ever removed from the front. */
  lemma {:induction false} DecodeLeavesSuffix(resolve: string -> Option<Type>, toks: seq<Node>)
    requires DecodeType(resolve, toks).Ok?
    ensures var rest := DecodeType(resolve, toks).value.1; rest == toks[|toks| - |rest|..]
    decreases |toks|
  {
    match toks[0].kind
    case PrimitiveMarker =>
    case ListMarker =>
      DecodeLeavesSuffix(resolve, toks[1..]);
    case SetMarker =>
      DecodeLeavesSuffix(resolve, toks[1..]);
    case MapMarker =>
      DecodeLeavesSuffix(resolve, toks[1..]);
      DecodeLeavesSuffix(resolve, DecodeType(resolve, toks[1..]).value.1);
  }

  /** The tokens after one type expression, judged by its markers alone. */
  function TypeRest(toks: seq<Node>): (r: Option<seq<Node>>)
    ensures r.Some? ==> |r.value| < |toks|
    decreases |toks|
  {
    if |toks| == 0 then None
    else match toks[0].kind
      case PrimitiveMarker => if |toks| < 2 then None else Some(toks[2..])
      case ListMarker => TypeRest(toks[1..])
      case SetMarker => TypeRest(toks[1..])
      case MapMarker => (
        match TypeRest(toks[1..])
        case None => None
        case Some(rest) => TypeRest(rest))
      case _ => None
  }

  /** How far the decoder reads does not depend on how the names resolve: a
      successful decoding leaves exactly the tokens the markers delimit. */
  lemma {:induction false} DecodeRest(resolve: string -> Option<Type>, toks: seq<Node>)
    requires DecodeType(resolve, toks).Ok?
    ensures TypeRest(toks) == Some(DecodeType(resolve, toks).value.1)
    decreases |toks|
  {
    match toks[0].kind
    case PrimitiveMarker =>
    case ListMarker =>
      DecodeRest(resolve, toks[1..]);
    case SetMarker =>
      DecodeRest(resolve, toks[1..]);
    case MapMarker =>
      DecodeRest(resolve, toks[1..]);
      DecodeRest(resolve, DecodeType(resolve, toks[1..]).value.1);
  }

  /** The number of tokens a successful decoding consumed. */
  function Consumed(toks: seq<Node>, r: Result<(Type, seq<Node>)>): nat
    requires r.Ok? && |r.value.1| <= |toks|
  {
    |toks| - |r.value.1|
  }

  /** The decoder consumes exactly one sub-expression: what it returns depends
      only on the tokens it consumed, and whatever follows them is left untouched. */
  lemma {:induction false} DecodeIgnoresRest(resolve: string -> Option<Type>, toks: seq<Node>, suffix: seq<Node>)
    requires DecodeType(resolve, toks).Ok?
    ensures var r := DecodeType(resolve, toks);
      DecodeType(resolve, toks[..Consumed(toks, r)] + suffix) == Ok((r.value.0, suffix))
    decreases |toks|, 1
  {
    match toks[0].kind
    case PrimitiveMarker =>
      var toks' := toks[..2] + suffix;
      assert toks'[0] == toks[0] && toks'[1] == toks[1] && toks'[2..] == suffix;
    case ListMarker =>
      DecodeIgnoresRest(resolve, toks[1..], suffix);
      IgnoresRestUnary(resolve, toks, suffix);
    case SetMarker =>
      DecodeIgnoresRest(resolve, toks[1..], suffix);
      IgnoresRestUnary(resolve, toks, suffix);
    case MapMarker =>
      IgnoresRestMapCase(resolve, toks, suffix);
  }

  lemma {:induction false} IgnoresRestMapCase(resolve: string -> Option<Type>, toks: seq<Node>, suffix: seq<Node>)
    requires DecodeType(resolve, toks).Ok? && toks[0].kind == MapMarker
    ensures var r := DecodeType(resolve, toks);
      DecodeType(resolve, toks[..Consumed(toks, r)] + suffix) == Ok((r.value.0, suffix))
    decreases |toks|, 0
  {
    var kr := DecodeType(resolve, toks[1..]);
    assert kr.Ok?;
    var rest := kr.value.1;
    var vr := DecodeType(resolve, rest);
    assert vr.Ok?;
    assert DecodeType(resolve, toks) == Ok((Map(kr.value.0, vr.value.0), vr.value.1));
    var c1 := Consumed(toks[1..], kr);
    var c2 := Consumed(rest, vr);
    DecodeIgnoresRest(resolve, rest, suffix);
    DecodeIgnoresRest(resolve, toks[1..], rest[..c2] + suffix);
    DecodeLeavesSuffix(resolve, toks[1..]);
    MapPieces(resolve, toks, c1, rest, c2, suffix, kr.value.0, vr.value.0);
  }

  /** The map case's pieces, located in the input: the key tokens right after
      the marker and the value tokens right after them. */
  lemma MapPieces(resolve: string -> Option<Type>, toks: seq<Node>, c1: nat, rest: seq<Node>, c2: nat,
                  suffix: seq<Node>, kt: Type, vt: Type)
    requires 1 + c1 <= |toks| && toks[0].kind == MapMarker && rest == toks[1..][c1..] && c2 <= |rest|
    requires DecodeType(resolve, rest[..c2] + suffix) == Ok((vt, suffix))
    requires DecodeType(resolve, toks[1..][..c1] + (rest[..c2] + suffix)) == Ok((kt, rest[..c2] + suffix))
    ensures DecodeType(resolve, toks[..1 + c1 + c2] + suffix) == Ok((Map(kt, vt), suffix))
  {
    IgnoresRestMap(resolve, toks[0], toks[1..][..c1], rest[..c2], suffix, kt, vt);
    SplitAfterHead(toks, c1, rest, c2, suffix);
  }

  /** Cutting a sequence after its head, then after `c1` more elements, then after `c2` more. */
  lemma SplitAfterHead<T>(s: seq<T>, c1: nat, rest: seq<T>, c2: nat, tail: seq<T>)
    requires 1 + c1 <= |s| && rest == s[1..][c1..] && c2 <= |rest|
    ensures s[..1 + c1 + c2] + tail == [s[0]] + (s[1..][..c1] + (rest[..c2] + tail))
  {
    assert s[..1 + c1 + c2] == [s[0]] + s[1..][..c1] + rest[..c2];
  }

  lemma IgnoresRestUnary(resolve: string -> Option<Type>, toks: seq<Node>, suffix: seq<Node>)
    requires DecodeType(resolve, toks).Ok?
    requires toks[0].kind == ListMarker || toks[0].kind == SetMarker
    requires var inner := DecodeType(resolve, toks[1..]);
      inner.Ok? ==> DecodeType(resolve, toks[1..][..Consumed(toks[1..], inner)] + suffix) == Ok((inner.value.0, suffix))
    ensures var r := DecodeType(resolve, toks);
      DecodeType(resolve, toks[..Consumed(toks, r)] + suffix) == Ok((r.value.0, suffix))
  {
    var inner := DecodeType(resolve, toks[1..]);
    assert inner.Ok?;
    var c := Consumed(toks[1..], inner);
    var r := DecodeType(resolve, toks);
    assert r.value.1 == inner.value.1 && Consumed(toks, r) == 1 + c;
    assert r.value.0 == if toks[0].kind == ListMarker then List(inner.value.0) else Set(inner.value.0);
    UnaryStep(resolve, toks[0], toks[1..][..c], suffix, inner.value.0);
    assert toks[..1 + c] + suffix == [toks[0]] + (toks[1..][..c] + suffix);
  }

  lemma UnaryStep(resolve: string -> Option<Type>, head: Node, elemToks: seq<Node>, suffix: seq<Node>, et: Type)
    requires head.kind == ListMarker || head.kind == SetMarker
    requires DecodeType(resolve, elemToks + suffix) == Ok((et, suffix))
    ensures DecodeType(resolve, [head] + (elemToks + suffix))
         == Ok((if head.kind == ListMarker then List(et) else Set(et), suffix))
  {
    var toks := [head] + (elemToks + suffix);
    assert toks[0] == head && toks[1..] == elemToks + suffix;
  }

  lemma IgnoresRestMap(resolve: string -> Option<Type>, head: Node, keyToks: seq<Node>, valueToks: seq<Node>,
                       suffix: seq<Node>, kt: Type, vt: Type)
    requires head.kind == MapMarker
    requires DecodeType(resolve, valueToks + suffix) == Ok((vt, suffix))
    requires DecodeType(resolve, keyToks + (valueToks + suffix)) == Ok((kt, valueToks + suffix))
    ensures DecodeType(resolve, [head] + (keyToks + (valueToks + suffix))) == Ok((Map(kt, vt), suffix))
  {
    var toks := [head] + (keyToks + (valueToks + suffix));
    assert toks[0] == head && toks[1..] == keyToks + (valueToks + suffix);
  }

  /** Running out of tokens part-way through a type expression is an error. */
  lemma TruncatedFails(resolve: string -> Option<Type>, e: TypeExpr, k: nat)
    requires k < |Encode(e)|
    ensures DecodeType(resolve, Encode(e)[..k]).Err?
  {
    var toks := Encode(e)[..k];
    if DecodeType(resolve, toks).Ok? {
      var r := DecodeType(resolve, toks);
      var c := Consumed(toks, r);
      var whole := Encode(e);
      DecodeEncode(resolve, e, []);
      assert whole + [] == whole;
      assert toks[..c] + whole[c..] == whole;
      DecodeIgnoresRest(resolve, toks, whole[c..]);
    }
  }

  /** The sample property type map<list<set<int>>, string>, with int and string
      resolving to primitives, decodes with nothing left over. */
  lemma SampleMapType(resolve: string -> Option<Type>)
    requires resolve("int") == Some(Primitive("int")) && resolve("string") == Some(Primitive("string"))
    ensures DecodeType(resolve, Encode(MapOf(ListOf(SetOf(Named("int"))), Named("string"))))
         == Ok((Map(List(Set(Primitive("int"))), Primitive("string")), []))
  {
    var e := MapOf(ListOf(SetOf(Named("int"))), Named("string"));
    DecodeEncode(resolve, e, []);
    assert Encode(e) + [] == Encode(e);
  }

  /** parseType over a cursor: `pos` is the first token not yet removed, `next`
      the first one left after this type expression. */
  method ParseType(resolve: string -> Option<Type>, toks: seq<Node>, pos: nat) returns (r: Result<Type>, next: nat)
    requires pos <= |toks|
    ensures r.Ok? ==> pos < next <= |toks|
    ensures DecodeType(resolve, toks[pos..]) == if r.Ok? then Ok((r.value, toks[next..])) else Err(r.error)
    decreases |toks| - pos
  {
    if pos == |toks| {
      return Err(IndexOutOfBounds), pos;
    }
    var marker := toks[pos];
    next := pos + 1;
    assert toks[pos..][1..] == toks[next..];
    match marker.kind {
      case NoToken =>
        r := Err(NullReference);
      case PrimitiveMarker =>
        if next == |toks| {
          return Err(IndexOutOfBounds), next;
        }
        var typeName := toks[next].text;
        next := next + 1;
        assert toks[pos..][2..] == toks[next..];
        var t := resolve(typeName);
        if t.None? {
          return Err(TypeNotFound(typeName)), next;
        }
        r := Ok(t.value);
      case ListMarker =>
        var element;
        element, next := ParseType(resolve, toks, next);
        r := if element.Ok? then Ok(List(element.value)) else element;
      case SetMarker =>
        var element;
        element, next := ParseType(resolve, toks, next);
        r := if element.Ok? then Ok(Set(element.value)) else element;
      case MapMarker =>
        var key, value;
        key, next := ParseType(resolve, toks, next);
        if key.Err? {
          return key, next;
        }
        value, next := ParseType(resolve, toks, next);
        r := if value.Ok? then Ok(Map(key.value, value.value)) else value;
      case _ =>
        r := Err(UnknownTypeMarker);
    }
  }
}
