/** Pass 2 of the schema compiler as specification functions: populating
    properties (parsePropertyTree), enum values (parseEnumTree) and data types
    (parseDataTree) on the shells pass 1 registered. Each returns the new
    registry; the data and enum routines also return the error that aborted
    them, because what they did before the error stays done. */
module Population {
  import opened Ast
  import opened Errors
  import opened Types
  import opened Literals
  import opened Options
  import opened Comments
  import opened TypeExpressions

  /** The option name that designates the identity property. */
  const IdentityOption: string := "identity"

  /** The compiler's configuration: the naming flag stored on every property,
      and the registry's scoped lookup. */
  datatype Config = Config(useCamelCaseKeys: bool, scoped: ScopedLookup)

  /** Type names resolved from within the data type `scope`. */
  function Resolver(cfg: Config, reg: Registry, scope: string): string -> Option<Type>
  {
    (name: string) => cfg.scoped(reg, scope, name)
  }

  // ----- comments: the last one wins -----

  /** The last comment node among `cs`, if any. */
  function LastComment(cs: seq<Node>): (r: Option<Node>)
    ensures r.Some? ==> r.value.kind == CommentToken
  {
    if cs == [] then None
    else
      var later := LastComment(cs[1..]);
      if later.Some? then later
      else if cs[0].kind == CommentToken then Some(cs[0])
      else None
  }

  /** The comment after processing `cs` in order, starting from `c0`. */
  function CommentAfter(cs: seq<Node>, c0: Option<string>): Option<string>
  {
    match LastComment(cs)
    case None => c0
    case Some(n) => Some(CommentText(n.children))
  }

  // ----- properties -----

  /** An option node whose name is `name`. */
  predicate IsOptionNamed(c: Node, name: string)
  {
    c.kind == OptionToken && |c.children| > 0 && c.children[0].text == name
  }

  predicate HasIdentity(opts: seq<SchemaOption>)
  {
    exists i :: 0 <= i < |opts| && opts[i].name == IdentityOption
  }

  /** The loop over the children left after the type expression: comments set
      the comment, options are collected, every other child is skipped. */
  function Trailing(cs: seq<Node>, opts: seq<SchemaOption>, comment: Option<string>)
    : Result<(seq<SchemaOption>, Option<string>)>
  {
    if cs == [] then Ok((opts, comment))
    else match cs[0].kind
      case NoToken => Err(NullReference)
      case CommentToken => (
        match CommentOf(cs[0])
        case Err(e) => Err(e)
        case Ok(t) => Trailing(cs[1..], opts, Some(t)))
      case OptionToken => (
        match OptionOf(cs[0])
        case Err(e) => Err(e)
        case Ok(o) => Trailing(cs[1..], opts + [o], comment))
      case _ => Trailing(cs[1..], opts, comment)
  }

  /** The loop over the collected options: each identity option designates the property at `idx`. */
  function IdentityAfter(opts: seq<SchemaOption>, cur: Option<nat>, idx: nat): Option<nat>
  {
    if opts == [] then cur
    else IdentityAfter(opts[1..], if opts[0].name == IdentityOption then Some(idx) else cur, idx)
  }

  /** parsePropertyTree on the data type `owner`: the owner with one more
      property, or the error; nothing changes on an error. */
  function PropertyEffect(cfg: Config, reg: Registry, n: Node, owner: string): Result<Registry>
    requires owner in reg && reg[owner].DataType?
  {
    if |n.children| == 0 then Err(NullReference)
    else match DecodeType(Resolver(cfg, reg, owner), n.children[1..])
      case Err(e) => Err(e)
      case Ok((t, rest)) => (
        match Trailing(rest, [], None)
        case Err(e) => Err(e)
        case Ok((opts, comment)) =>
          var d := reg[owner];
          var p := NewProperty(owner, n.children[0].text, t, comment, cfg.useCamelCaseKeys);
          Ok(reg[owner := d.(properties := d.properties + [p],
                             identity := IdentityAfter(opts, d.identity, |d.properties|))])
      )
  }

  /** The last comment among the trailing children wins. */
  lemma {:induction false} TrailingComment(cs: seq<Node>, opts: seq<SchemaOption>, comment: Option<string>)
    requires Trailing(cs, opts, comment).Ok?
    ensures Trailing(cs, opts, comment).value.1 == CommentAfter(cs, comment)
  {
    if cs != [] {
      var c := cs[0];
      var opts' := if c.kind == OptionToken then opts + [OptionOf(c).value] else opts;
      var comment' := if c.kind == CommentToken then Some(CommentText(c.children)) else comment;
      TrailingComment(cs[1..], opts', comment');
    }
  }

  /** An identity option is collected exactly when some trailing option node is named identity. */
  lemma {:induction false} TrailingIdentity(cs: seq<Node>, opts: seq<SchemaOption>, comment: Option<string>)
    requires Trailing(cs, opts, comment).Ok?
    ensures HasIdentity(Trailing(cs, opts, comment).value.0) <==>
      HasIdentity(opts) || exists j :: 0 <= j < |cs| && IsOptionNamed(cs[j], IdentityOption)
  {
    if cs != [] {
      var c := cs[0];
      var opts' := if c.kind == OptionToken then opts + [OptionOf(c).value] else opts;
      var comment' := if c.kind == CommentToken then Some(CommentText(c.children)) else comment;
      TrailingIdentity(cs[1..], opts', comment');
      assert HasIdentity(opts') <==> HasIdentity(opts) || IsOptionNamed(c, IdentityOption) by {
        if c.kind == OptionToken {
          OptionAppended(opts, OptionOf(c).value);
        }
      }
      var pre := exists j :: 0 <= j < |cs| && IsOptionNamed(cs[j], IdentityOption);
      var post := exists j :: 0 <= j < |cs[1..]| && IsOptionNamed(cs[1..][j], IdentityOption);
      assert pre <==> IsOptionNamed(c, IdentityOption) || post by {
        if pre {
          var j :| 0 <= j < |cs| && IsOptionNamed(cs[j], IdentityOption);
          if j > 0 { assert IsOptionNamed(cs[1..][j - 1], IdentityOption); }
        }
        if post {
          var j :| 0 <= j < |cs[1..]| && IsOptionNamed(cs[1..][j], IdentityOption);
          assert cs[j + 1] == cs[1..][j];
        }
      }
    }
  }

  lemma OptionAppended(opts: seq<SchemaOption>, o: SchemaOption)
    ensures HasIdentity(opts + [o]) <==> HasIdentity(opts) || o.name == IdentityOption
  {
    var opts' := opts + [o];
    if HasIdentity(opts') && !HasIdentity(opts) {
      var i :| 0 <= i < |opts'| && opts'[i].name == IdentityOption;
      assert i == |opts|;
    }
    if HasIdentity(opts) {
      var i :| 0 <= i < |opts| && opts[i].name == IdentityOption;
      assert opts'[i] == opts[i];
    }
    if o.name == IdentityOption {
      assert opts'[|opts|].name == IdentityOption;
    }
  }

  /** The identity ends up on the property at `idx` exactly when some option is
      named identity; otherwise it is unchanged. */
  lemma {:induction false} IdentityAfterContent(opts: seq<SchemaOption>, cur: Option<nat>, idx: nat)
    ensures IdentityAfter(opts, cur, idx) == if HasIdentity(opts) then Some(idx) else cur
  {
    if opts != [] {
      var cur' := if opts[0].name == IdentityOption then Some(idx) else cur;
      IdentityAfterContent(opts[1..], cur', idx);
      assert HasIdentity(opts) <==> opts[0].name == IdentityOption || HasIdentity(opts[1..]) by {
        if HasIdentity(opts) {
          var i :| 0 <= i < |opts| && opts[i].name == IdentityOption;
          if i > 0 { assert opts[1..][i - 1] == opts[i]; }
        }
        if HasIdentity(opts[1..]) {
          var i :| 0 <= i < |opts[1..]| && opts[1..][i].name == IdentityOption;
          assert opts[i + 1] == opts[1..][i];
        }
      }
    }
  }

  /** Property population: exactly one property is appended after the existing
      ones, named by the first child, of the class its resolved type calls for,
      with the last trailing comment; the owner's identity becomes this property
      when an identity option is present and is unchanged otherwise; no other
      part of the registry changes. */
  lemma PropertyPopulation(cfg: Config, reg: Registry, n: Node, owner: string)
    requires owner in reg && reg[owner].DataType?
    requires PropertyEffect(cfg, reg, n, owner).Ok?
    ensures var reg' := PropertyEffect(cfg, reg, n, owner).value;
      var d := reg[owner];
      var d' := reg'[owner];
      var decoded := DecodeType(Resolver(cfg, reg, owner), n.children[1..]).value;
      var p := d'.properties[|d.properties|];
      && reg'.Keys == reg.Keys
      && (forall k :: k in reg && k != owner ==> reg'[k] == reg[k])
      && d'.DataType? && SameShell(d, d') && d'.comment == d.comment
      && |d'.properties| == |d.properties| + 1 && d'.properties[..|d.properties|] == d.properties
      && p.owner == owner && p.name == n.children[0].text && p.propertyType == decoded.0
      && KindMatches(p.kind, p.propertyType) && p.useCamelCaseKeys == cfg.useCamelCaseKeys
      && p.comment == CommentAfter(decoded.1, None)
      && d'.identity == if exists j :: 0 <= j < |decoded.1| && IsOptionNamed(decoded.1[j], IdentityOption)
                        then Some(|d.properties|) else d.identity
  {
    var decoded := DecodeType(Resolver(cfg, reg, owner), n.children[1..]).value;
    TrailingComment(decoded.1, [], None);
    TrailingIdentity(decoded.1, [], None);
    var tr := Trailing(decoded.1, [], None).value;
    IdentityAfterContent(tr.0, reg[owner].identity, |reg[owner].properties|);
    assert !HasIdentity([]);
  }

  /** Adding a property changes only its owner, and keeps the owner's shell. */
  lemma PropertyEvolves(cfg: Config, reg: Registry, n: Node, owner: string)
    requires owner in reg && reg[owner].DataType?
    requires PropertyEffect(cfg, reg, n, owner).Ok?
    ensures OnlyChanges(reg, PropertyEffect(cfg, reg, n, owner).value, owner)
  {
  }

  // ----- frames of pass 2 -----

  /** `k` names the type `q` or a type declared, at any depth, inside it. */
  predicate Within(k: string, q: string)
  {
    k == q || q + "." <= k
  }

  /** Pass 2 adds no types and keeps every shell. */
  ghost predicate KeepsShells(reg: Registry, reg': Registry)
  {
    && reg'.Keys == reg.Keys
    && (forall k {:trigger reg'[k]} :: k in reg ==> SameShell(reg[k], reg'[k]))
  }

  /** Shells are kept and only the entry `q` may change. */
  ghost predicate OnlyChanges(reg: Registry, reg': Registry, q: string)
  {
    KeepsShells(reg, reg') && (forall k {:trigger reg'[k]} :: k in reg && k != q ==> reg'[k] == reg[k])
  }

  /** Shells are kept and only `q` and the types declared inside it may change. */
  ghost predicate Evolves(reg: Registry, reg': Registry, q: string)
  {
    KeepsShells(reg, reg') && (forall k {:trigger reg'[k]} :: k in reg && !Within(k, q) ==> reg'[k] == reg[k])
  }

  /** Every data type is still registered, and still a data type. */
  ghost predicate KeepsDataTypes(reg: Registry, reg': Registry)
  {
    forall k :: k in reg && reg[k].DataType? ==> k in reg' && reg'[k].DataType?
  }

  lemma KeepsShellsChain(reg: Registry, reg1: Registry, reg2: Registry)
    requires KeepsShells(reg, reg1) && KeepsShells(reg1, reg2)
    ensures KeepsShells(reg, reg2)
  {
  }

  lemma EvolvesChain(reg: Registry, reg1: Registry, reg2: Registry, q: string)
    requires Evolves(reg, reg1, q) && Evolves(reg1, reg2, q)
    ensures Evolves(reg, reg2, q)
  {
  }

  lemma OnlyChangesEvolves(reg: Registry, reg': Registry, q: string)
    requires OnlyChanges(reg, reg', q)
    ensures Evolves(reg, reg', q)
  {
  }

  /** What changes inside a type nested in `q` changes inside `q`, and `q` itself is not inside it. */
  lemma EvolvesNested(reg: Registry, reg': Registry, q: string, name: string)
    requires Evolves(reg, reg', Qualify(Some(q), name))
    ensures Evolves(reg, reg', q)
    ensures !Within(q, Qualify(Some(q), name))
  {
    var e := Qualify(Some(q), name);
    forall k | k in reg && !Within(k, q) ensures reg'[k] == reg[k] {
      if k != e && e + "." <= k {
        PrefixTransitive(q + ".", e + ".", k);
      }
    }
  }

  /** The declared name of a declaration or property node: its first child's text. */
  function DeclName(n: Node): string
  {
    if |n.children| > 0 then n.children[0].text else ""
  }

  // ----- enum types -----

  /** The loop over an enum's children: comments set the comment, every other child is a value. */
  function EnumValues(reg: Registry, q: string, cs: seq<Node>): (r: (Registry, Option<Error>))
    requires q in reg && reg[q].EnumType?
    ensures OnlyChanges(reg, r.0, q)
  {
    if cs == [] then (reg, None)
    else match cs[0].kind
      case NoToken => (reg, Some(NullReference))
      case CommentToken => (
        match CommentOf(cs[0])
        case Err(e) => (reg, Some(e))
        case Ok(t) => EnumValues(reg[q := WithComment(reg[q], Some(t))], q, cs[1..]))
      case _ => EnumValues(reg[q := reg[q].(values := reg[q].values + [cs[0].text])], q, cs[1..])
  }

  /** parseEnumTree: fetch the enum registered under its qualified name, then
      add its values; no other entry changes. */
  function EnumEffect(reg: Registry, n: Node, parent: Option<string>): (r: (Registry, Option<Error>))
    ensures |n.children| == 0 ==> r.0 == reg
    ensures OnlyChanges(reg, r.0, Qualify(parent, DeclName(n)))
  {
    if |n.children| == 0 then (reg, Some(NullReference))
    else
      var q := Qualify(parent, n.children[0].text);
      if q !in reg then (reg, Some(TypeLookupMiss(q)))
      else if !reg[q].EnumType? then (reg, Some(WrongTypeKind(q)))
      else
        EnumValues(reg, q, n.children[1..])
  }

  /** The texts of the non-comment children, in order, duplicates kept. */
  function NonCommentTexts(cs: seq<Node>): seq<string>
  {
    if cs == [] then []
    else (if cs[0].kind == CommentToken then [] else [cs[0].text]) + NonCommentTexts(cs[1..])
  }

  /** An enum's values are the texts of its non-comment children appended in
      declaration order; its comment is the last comment child's. */
  lemma {:induction false} EnumValuesContent(reg: Registry, q: string, cs: seq<Node>)
    requires q in reg && reg[q].EnumType?
    requires EnumValues(reg, q, cs).1.None?
    ensures var reg' := EnumValues(reg, q, cs).0;
      reg'[q].values == reg[q].values + NonCommentTexts(cs)
      && reg'[q].comment == CommentAfter(cs, reg[q].comment)
  {
    if cs == [] {
      assert reg[q].values + [] == reg[q].values;
    } else {
      var c := cs[0];
      var reg1 := if c.kind == CommentToken then reg[q := WithComment(reg[q], Some(CommentText(c.children)))]
                  else reg[q := reg[q].(values := reg[q].values + [c.text])];
      assert EnumValues(reg, q, cs) == EnumValues(reg1, q, cs[1..]);
      EnumValuesContent(reg1, q, cs[1..]);
      assert NonCommentTexts(cs) == (if c.kind == CommentToken then [] else [c.text]) + NonCommentTexts(cs[1..]);
      assert reg1[q].values == reg[q].values + (if c.kind == CommentToken then [] else [c.text]);
    }
  }

  /** Enum population on the enum fetched under the parent's qualified name, a dot and the enum's name. */
  lemma EnumPopulation(reg: Registry, n: Node, parent: Option<string>)
    requires EnumEffect(reg, n, parent).1.None?
    ensures |n.children| > 0
    ensures var q := Qualify(parent, n.children[0].text);
      var reg' := EnumEffect(reg, n, parent).0;
      q in reg && reg[q].EnumType? && q in reg'
      && reg'[q].values == reg[q].values + NonCommentTexts(n.children[1..])
      && reg'[q].comment == CommentAfter(n.children[1..], reg[q].comment)
  {
    EnumValuesContent(reg, Qualify(parent, n.children[0].text), n.children[1..]);
  }

  // ----- data types -----

  /** parseDataTree: fetch the data type registered under its qualified name,
      then dispatch each remaining child; only that type and the types declared
      inside it change. */
  function DataEffect(cfg: Config, reg: Registry, n: Node, parent: Option<string>): (r: (Registry, Option<Error>))
    ensures |n.children| == 0 ==> r.0 == reg
    ensures KeepsDataTypes(reg, r.0)
    decreases n, 1
  {
    if |n.children| == 0 then (reg, Some(NullReference))
    else
      var q := Qualify(parent, n.children[0].text);
      if q !in reg then (reg, Some(TypeLookupMiss(q)))
      else if !reg[q].DataType? then (reg, Some(WrongTypeKind(q)))
      else
        DataMembers(cfg, reg, q, n, 1)
  }

  /** The loop over a data node's children from index `i`, one child at a
      time; the first error stops it. */
  function DataMembers(cfg: Config, reg: Registry, q: string, n: Node, i: nat): (r: (Registry, Option<Error>))
    requires q in reg && reg[q].DataType? && 1 <= i <= |n.children|
    ensures KeepsDataTypes(reg, r.0)
    decreases n, 0, |n.children| - i
  {
    if i == |n.children| then (reg, None)
    else
      var r1 := DataMember(cfg, reg, q, n.children[i]);
      if r1.1.Some? then r1
      else DataMembers(cfg, r1.0, q, n, i + 1)
  }

  /** One pass of that loop: dispatch child `c` of data type `q` by its kind,
      to nested data and enum declarations, properties and comments; other
      kinds are skipped. */
  function DataMember(cfg: Config, reg: Registry, q: string, c: Node): (r: (Registry, Option<Error>))
    requires q in reg && reg[q].DataType?
    ensures KeepsDataTypes(reg, r.0)
    decreases c, 2
  {
    match c.kind
    case NoToken => (reg, Some(NullReference))
    case DataToken => DataEffect(cfg, reg, c, Some(q))
    case EnumToken => EnumEffect(reg, c, Some(q))
    case PropertyToken => (
      match PropertyEffect(cfg, reg, c, q)
      case Err(e) => (reg, Some(e))
      case Ok(r1) => (r1, None))
    case CommentToken => (
      match CommentOf(c)
      case Err(e) => (reg, Some(e))
      case Ok(t) => (reg[q := WithComment(reg[q], Some(t))], None))
    case _ => (reg, None)
  }

  /** Populating a data type keeps every shell and changes only that type and
      the types declared inside it. */
  lemma DataEffectEvolves(cfg: Config, reg: Registry, n: Node, parent: Option<string>)
    ensures Evolves(reg, DataEffect(cfg, reg, n, parent).0, Qualify(parent, DeclName(n)))
    decreases n, 1
  {
    if |n.children| > 0 {
      var q := Qualify(parent, n.children[0].text);
      if q in reg && reg[q].DataType? { DataMembersEvolves(cfg, reg, q, n, 1); }
    }
  }

  /** The loop over a data node's children changes only `q` and the types declared inside it. */
  lemma DataMembersEvolves(cfg: Config, reg: Registry, q: string, n: Node, i: nat)
    requires q in reg && reg[q].DataType? && 1 <= i <= |n.children|
    ensures Evolves(reg, DataMembers(cfg, reg, q, n, i).0, q)
    decreases n, 0, |n.children| - i
  {
    if i < |n.children| {
      DataMemberEvolves(cfg, reg, q, n.children[i]);
      var r1 := DataMember(cfg, reg, q, n.children[i]);
      if r1.1.None? {
        DataMembersEvolves(cfg, r1.0, q, n, i + 1);
        EvolvesChain(reg, r1.0, DataMembers(cfg, r1.0, q, n, i + 1).0, q);
      }
    }
  }

  /** One child of a data node changes only `q` and the types declared inside it:
      a nested declaration changes the types inside its own name, which lie
      inside `q`; a property or a comment changes `q` alone. */
  lemma DataMemberEvolves(cfg: Config, reg: Registry, q: string, c: Node)
    requires q in reg && reg[q].DataType?
    ensures Evolves(reg, DataMember(cfg, reg, q, c).0, q)
    decreases c, 2
  {
    match c.kind {
      case DataToken =>
        DataEffectEvolves(cfg, reg, c, Some(q));
        EvolvesNested(reg, DataEffect(cfg, reg, c, Some(q)).0, q, DeclName(c));
      case EnumToken =>
        OnlyChangesEvolves(reg, EnumEffect(reg, c, Some(q)).0, Qualify(Some(q), DeclName(c)));
        EvolvesNested(reg, EnumEffect(reg, c, Some(q)).0, q, DeclName(c));
      case PropertyToken =>
        if PropertyEffect(cfg, reg, c, q).Ok? {
          PropertyEvolves(cfg, reg, c, q);
          OnlyChangesEvolves(reg, PropertyEffect(cfg, reg, c, q).value, q);
        }
      case _ =>
    }
  }

  /** The number of property children among `cs`. */
  function CountProperties(cs: seq<Node>): nat
  {
    if cs == [] then 0 else (if cs[0].kind == PropertyToken then 1 else 0) + CountProperties(cs[1..])
  }

  /** What a property records apart from its type: its owner, its name, its
      comment and the naming flag. None of these depend on how the type
      expression resolves. */
  datatype Heading = Heading(owner: string, name: string, comment: Option<string>, useCamelCaseKeys: bool)

  function HeadingOf(p: Property): Heading
  {
    Heading(p.owner, p.name, p.comment, p.useCamelCaseKeys)
  }

  /** The headings of properties, in order. */
  function Headings(ps: seq<Property>): (r: seq<Heading>)
    ensures |r| == |ps|
  {
    if ps == [] then [] else [HeadingOf(ps[0])] + Headings(ps[1..])
  }

  lemma {:induction false} HeadingsAppend(a: seq<Property>, b: seq<Property>)
    ensures Headings(a + b) == Headings(a) + Headings(b)
  {
    if a == [] {
      assert a + b == b;
    } else {
      assert (a + b)[1..] == a[1..] + b;
      HeadingsAppend(a[1..], b);
    }
  }

  /** The comment a property node gives its property: the last comment among
      the children after its type expression. */
  function PropertyComment(c: Node): Option<string>
  {
    if |c.children| == 0 then None
    else match TypeRest(c.children[1..])
      case None => None
      case Some(rest) => CommentAfter(rest, None)
  }

  /** The heading a property child gives the property it appends to data type
      `q`; other children append none. */
  function MemberHeading(q: string, flag: bool, c: Node): seq<Heading>
  {
    if c.kind == PropertyToken then [Heading(q, DeclName(c), PropertyComment(c), flag)] else []
  }

  /** The headings the property children among `cs` give the properties they
      append to data type `q`, in child order. */
  function MemberHeadings(q: string, flag: bool, cs: seq<Node>): seq<Heading>
  {
    if cs == [] then []
    else
      MemberHeading(q, flag, cs[0])
      + MemberHeadings(q, flag, cs[1..])
  }

  /** A property node whose children after its type expression include an
      identity option. */
  predicate MarksIdentity(c: Node)
  {
    && c.kind == PropertyToken && |c.children| > 0
    && TypeRest(c.children[1..]).Some?
    && exists j :: 0 <= j < |TypeRest(c.children[1..]).value| &&
         IsOptionNamed(TypeRest(c.children[1..]).value[j], IdentityOption)
  }

  /** The identity after the property children among `cs` are added in order,
      the first of them at index `next`: each one that carries an identity
      option becomes the identity. */
  function IdentityAfterMembers(cs: seq<Node>, next: nat, cur: Option<nat>): Option<nat>
  {
    if cs == [] then cur
    else if cs[0].kind != PropertyToken then IdentityAfterMembers(cs[1..], next, cur)
    else IdentityAfterMembers(cs[1..], next + 1, if MarksIdentity(cs[0]) then Some(next) else cur)
  }

  /** Without property children carrying an identity option the identity stays as it was. */
  lemma {:induction false} UnmarkedIdentity(cs: seq<Node>, next: nat, cur: Option<nat>)
    requires forall k :: 0 <= k < |cs| ==> !MarksIdentity(cs[k])
    ensures IdentityAfterMembers(cs, next, cur) == cur
  {
    if cs != [] {
      assert forall k :: 0 <= k < |cs[1..]| ==> cs[1..][k] == cs[k + 1];
      UnmarkedIdentity(cs[1..], if cs[0].kind == PropertyToken then next + 1 else next, cur);
    }
  }

  /** The identity is the property of the last property child that carries an
      identity option, numbered by the property children before it. */
  lemma {:induction false} LastMarkedIdentity(cs: seq<Node>, next: nat, cur: Option<nat>, j: nat)
    requires j < |cs| && MarksIdentity(cs[j])
    requires forall k :: j < k < |cs| ==> !MarksIdentity(cs[k])
    ensures IdentityAfterMembers(cs, next, cur) == Some(next + CountProperties(cs[..j]))
  {
    assert forall k :: 0 <= k < |cs[1..]| ==> cs[1..][k] == cs[k + 1];
    if j == 0 {
      UnmarkedIdentity(cs[1..], next + 1, Some(next));
      assert cs[..0] == [];
    } else {
      var next' := if cs[0].kind == PropertyToken then next + 1 else next;
      var cur' := if MarksIdentity(cs[0]) then Some(next) else cur;
      LastMarkedIdentity(cs[1..], next', cur', j - 1);
      assert cs[..j][0] == cs[0] && cs[..j][1..] == cs[1..][..j - 1];
    }
  }

  /** The identity is either unchanged or a property numbered `next` or later. */
  lemma {:induction false} IdentityAfterBound(cs: seq<Node>, next: nat, cur: Option<nat>)
    ensures var r := IdentityAfterMembers(cs, next, cur); r == cur || (r.Some? && r.value >= next)
  {
    if cs != [] {
      if cs[0].kind == PropertyToken {
        IdentityAfterBound(cs[1..], next + 1, if MarksIdentity(cs[0]) then Some(next) else cur);
      } else {
        IdentityAfterBound(cs[1..], next, cur);
      }
    }
  }

  /** A property child carrying an identity option leaves the identity on its
      own property or on a later one. */
  lemma {:induction false} IdentityAtLeast(cs: seq<Node>, next: nat, cur: Option<nat>, j: nat)
    requires j < |cs| && MarksIdentity(cs[j])
    ensures var r := IdentityAfterMembers(cs, next, cur);
      r.Some? && r.value >= next + CountProperties(cs[..j])
  {
    if j == 0 {
      IdentityAfterBound(cs[1..], next + 1, Some(next));
      assert cs[..0] == [];
    } else {
      var next' := if cs[0].kind == PropertyToken then next + 1 else next;
      var cur' := if cs[0].kind == PropertyToken && MarksIdentity(cs[0]) then Some(next) else cur;
      assert cs[1..][j - 1] == cs[j];
      IdentityAtLeast(cs[1..], next', cur', j - 1);
      assert cs[..j][0] == cs[0] && cs[..j][1..] == cs[1..][..j - 1];
    }
  }

  lemma {:induction false} CountPropertiesAppend(a: seq<Node>, b: seq<Node>)
    ensures CountProperties(a + b) == CountProperties(a) + CountProperties(b)
  {
    if a == [] {
      assert a + b == b;
    } else {
      assert (a + b)[0] == a[0] && (a + b)[1..] == a[1..] + b;
      CountPropertiesAppend(a[1..], b);
    }
  }

  /** `d'` is the data type `d` after the children `cs` of its declaration:
      the earlier properties stay a prefix, followed by one property per
      property child, in child order, owned by `q` and named and commented as
      that child declares; the identity is given by the identity fold over the
      property children; the last comment child gives the comment. */
  predicate Populated(d: Decl, d': Decl, q: string, flag: bool, cs: seq<Node>)
  {
    && d.DataType? && d'.DataType?
    && d.properties <= d'.properties
    && |d'.properties| == |d.properties| + CountProperties(cs)
    && Headings(d'.properties) == Headings(d.properties) + MemberHeadings(q, flag, cs)
    && d'.identity == IdentityAfterMembers(cs, |d.properties|, d.identity)
    && d'.comment == CommentAfter(cs, d.comment)
  }

  /** Data population: the loop over the children from `i` leaves the data type
      populated by exactly those children; nested declarations leave it alone. */
  lemma {:induction false} DataMembersContent(cfg: Config, reg: Registry, q: string, n: Node, i: nat, d': Decl)
    requires q in reg && reg[q].DataType? && 1 <= i <= |n.children|
    requires DataMembers(cfg, reg, q, n, i).1.None?
    requires q in DataMembers(cfg, reg, q, n, i).0 && d' == DataMembers(cfg, reg, q, n, i).0[q]
    ensures Populated(reg[q], d', q, cfg.useCamelCaseKeys, n.children[i..])
    decreases |n.children| - i
  {
    if i < |n.children| {
      var r1 := MemberEffect(cfg, reg, q, n, i, d');
      DataMembersContent(cfg, r1, q, n, i + 1, d');
      ContentStep(reg[q], r1[q], d', q, cfg.useCamelCaseKeys, n.children, i);
    } else {
      assert Headings(reg[q].properties) + [] == Headings(reg[q].properties);
      assert n.children[i..] == [];
    }
  }

  /** A data type after one child, and after the children following it: the
      content lemma's step. */
  lemma ContentStep(d0: Decl, d1: Decl, d2: Decl, q: string, flag: bool, children: seq<Node>, i: nat)
    requires i < |children| && ChildPopulated(d0, d1, q, flag, children[i])
    requires Populated(d1, d2, q, flag, children[i + 1..])
    ensures Populated(d0, d2, q, flag, children[i..])
  {
    var cs := children[i..];
    assert cs[0] == children[i] && cs[1..] == children[i + 1..];
    CommentAfterStep(cs, d0.comment);
    PropertiesStep(d0.properties, d1.properties, d2.properties, q, flag, cs);
    IdentityStep(cs, |d0.properties|, |d1.properties|, d0.identity, d1.identity);
  }

  /** `d'` is the data type `d` after the one child `c` of its declaration. */
  predicate ChildPopulated(d: Decl, d': Decl, q: string, flag: bool, c: Node)
  {
    && d.DataType? && d'.DataType?
    && d.properties <= d'.properties
    && |d'.properties| == |d.properties| + (if c.kind == PropertyToken then 1 else 0)
    && Headings(d'.properties)
       == Headings(d.properties) + MemberHeading(q, flag, c)
    && d'.identity == (if MarksIdentity(c) then Some(|d.properties|) else d.identity)
    && d'.comment == (if c.kind == CommentToken then Some(CommentText(c.children)) else d.comment)
  }

  /** MemberStep, its facts about the data type packed for the induction: the
      loop's result from child `i` is its result from child `i + 1` on `r1`. */
  lemma MemberEffect(cfg: Config, reg: Registry, q: string, n: Node, i: nat, d': Decl) returns (r1: Registry)
    requires q in reg && reg[q].DataType? && 1 <= i < |n.children|
    requires DataMembers(cfg, reg, q, n, i).1.None?
    requires q in DataMembers(cfg, reg, q, n, i).0 && d' == DataMembers(cfg, reg, q, n, i).0[q]
    ensures q in r1 && r1[q].DataType?
    ensures DataMembers(cfg, r1, q, n, i + 1).1.None?
    ensures q in DataMembers(cfg, r1, q, n, i + 1).0 && d' == DataMembers(cfg, r1, q, n, i + 1).0[q]
    ensures ChildPopulated(reg[q], r1[q], q, cfg.useCamelCaseKeys, n.children[i])
  {
    r1 := MemberStep(cfg, reg, q, n.children[i]);
  }

  /** The properties after one child and after the children following it are
      the properties after all of them. */
  lemma PropertiesStep(ps0: seq<Property>, ps1: seq<Property>, ps2: seq<Property>, q: string, flag: bool, cs: seq<Node>)
    requires cs != []
    requires ps0 <= ps1 && |ps1| == |ps0| + (if cs[0].kind == PropertyToken then 1 else 0)
    requires Headings(ps1)
      == Headings(ps0) + MemberHeading(q, flag, cs[0])
    requires ps1 <= ps2 && |ps2| == |ps1| + CountProperties(cs[1..])
    requires Headings(ps2) == Headings(ps1) + MemberHeadings(q, flag, cs[1..])
    ensures ps0 <= ps2 && |ps2| == |ps0| + CountProperties(cs)
    ensures Headings(ps2) == Headings(ps0) + MemberHeadings(q, flag, cs)
  {
    PrefixTransitive(ps0, ps1, ps2);
    ConcatStep(Headings(ps0), Headings(ps1), Headings(ps2), MemberHeading(q, flag, cs[0]), MemberHeadings(q, flag, cs[1..]));
  }

  lemma ConcatStep<T>(h0: seq<T>, h1: seq<T>, h2: seq<T>, first: seq<T>, rest: seq<T>)
    requires h1 == h0 + first && h2 == h1 + rest
    ensures h2 == h0 + (first + rest)
  {
  }

  /** The identity after one child and then the children following it is the
      identity after all of them. */
  lemma IdentityStep(cs: seq<Node>, next0: nat, next1: nat, id0: Option<nat>, id1: Option<nat>)
    requires cs != []
    requires next1 == next0 + (if cs[0].kind == PropertyToken then 1 else 0)
    requires id1 == if MarksIdentity(cs[0]) then Some(next0) else id0
    ensures IdentityAfterMembers(cs[1..], next1, id1) == IdentityAfterMembers(cs, next0, id0)
  {
  }

  /** What one child of a data node does to that data type itself: a property
      child is exactly one property population, appending its property and
      designating it the identity when it carries an identity option; a comment
      replaces the comment; nested declarations change nothing about it. */
  lemma MemberStep(cfg: Config, reg: Registry, q: string, c: Node) returns (r1: Registry)
    requires q in reg && reg[q].DataType?
    requires DataMember(cfg, reg, q, c).1.None?
    ensures r1 == DataMember(cfg, reg, q, c).0
    ensures q in r1 && r1[q].DataType?
    ensures c.kind == PropertyToken ==>
      PropertyEffect(cfg, reg, c, q).Ok? && r1 == PropertyEffect(cfg, reg, c, q).value
    ensures reg[q].properties <= r1[q].properties
    ensures |r1[q].properties| == |reg[q].properties| + (if c.kind == PropertyToken then 1 else 0)
    ensures Headings(r1[q].properties)
         == Headings(reg[q].properties)
            + MemberHeading(q, cfg.useCamelCaseKeys, c)
    ensures r1[q].identity == if MarksIdentity(c) then Some(|reg[q].properties|) else reg[q].identity
    ensures r1[q].comment == if c.kind == CommentToken then Some(CommentText(c.children)) else reg[q].comment
  {
    match c.kind {
      case DataToken =>
        r1 := DataEffect(cfg, reg, c, Some(q)).0;
        DataEffectEvolves(cfg, reg, c, Some(q));
        EvolvesNested(reg, r1, q, DeclName(c));
        assert Headings(reg[q].properties) + [] == Headings(reg[q].properties);
      case EnumToken =>
        r1 := EnumEffect(reg, c, Some(q)).0;
        EvolvesNested(reg, r1, q, DeclName(c));
        assert Headings(reg[q].properties) + [] == Headings(reg[q].properties);
      case PropertyToken =>
        PropertyPopulation(cfg, reg, c, q);
        r1 := PropertyEffect(cfg, reg, c, q).value;
        DecodeRest(Resolver(cfg, reg, q), c.children[1..]);
        PropertyStepHeadings(reg[q].properties, r1[q].properties,
                             Heading(q, DeclName(c), PropertyComment(c), cfg.useCamelCaseKeys));
      case CommentToken =>
        r1 := reg[q := WithComment(reg[q], Some(CommentText(c.children)))];
        assert Headings(reg[q].properties) + [] == Headings(reg[q].properties);
      case NoToken =>
        assert false;
      case _ =>
        r1 := reg;
        assert Headings(reg[q].properties) + [] == Headings(reg[q].properties);
    }
  }

  /** One property appended after the existing ones adds its name after theirs. */
  lemma PropertyStepHeadings(ps: seq<Property>, ps': seq<Property>, h: Heading)
    requires |ps'| == |ps| + 1 && ps'[..|ps|] == ps && HeadingOf(ps'[|ps|]) == h
    ensures Headings(ps') == Headings(ps) + [h]
  {
    var p := ps'[|ps|];
    assert ps' == ps + [p];
    HeadingsAppend(ps, [p]);
    assert Headings([p]) == [h];
  }

  /** Processing one more child moves the last comment forward only for a comment child. */
  lemma CommentAfterStep(cs: seq<Node>, c0: Option<string>)
    requires cs != []
    ensures CommentAfter(cs, c0)
         == CommentAfter(cs[1..], if cs[0].kind == CommentToken then Some(CommentText(cs[0].children)) else c0)
  {
  }

  /** Data population on the type fetched under the parent's qualified name, a dot and the type's name. */
  lemma DataPopulation(cfg: Config, reg: Registry, n: Node, parent: Option<string>)
    requires DataEffect(cfg, reg, n, parent).1.None?
    ensures |n.children| > 0
    ensures var q := Qualify(parent, n.children[0].text);
      var reg' := DataEffect(cfg, reg, n, parent).0;
      q in reg && reg[q].DataType? && q in reg'
      && reg[q].properties <= reg'[q].properties
      && |reg'[q].properties| == |reg[q].properties| + CountProperties(n.children[1..])
      && Headings(reg'[q].properties)
         == Headings(reg[q].properties) + MemberHeadings(q, cfg.useCamelCaseKeys, n.children[1..])
      && reg'[q].identity == IdentityAfterMembers(n.children[1..], |reg[q].properties|, reg[q].identity)
      && reg'[q].comment == CommentAfter(n.children[1..], reg[q].comment)
  {
    var q := Qualify(parent, n.children[0].text);
    DataMembersContent(cfg, reg, q, n, 1, DataMembers(cfg, reg, q, n, 1).0[q]);
    assert Populated(reg[q], DataEffect(cfg, reg, n, parent).0[q], q, cfg.useCamelCaseKeys, n.children[1..]);
  }

  /** The identity part of DataPopulation, on its own. */
  lemma DataIdentity(cfg: Config, reg: Registry, n: Node, parent: Option<string>)
    requires DataEffect(cfg, reg, n, parent).1.None?
    ensures |n.children| > 0
    ensures var q := Qualify(parent, n.children[0].text);
      q in reg && q in DataEffect(cfg, reg, n, parent).0
      && DataEffect(cfg, reg, n, parent).0[q].identity
         == IdentityAfterMembers(n.children[1..], |reg[q].properties|, reg[q].identity)
  {
    DataPopulation(cfg, reg, n, parent);
  }

  /** Of two property children of one data declaration that both carry an
      identity option, the later one wins: once the declaration is populated the
      identity is the later one's property or the property of a child after it,
      never the earlier one's. */
  lemma LaterIdentityWins(cfg: Config, reg: Registry, n: Node, parent: Option<string>, j1: nat, j2: nat)
    requires DataEffect(cfg, reg, n, parent).1.None?
    requires 1 <= j1 < j2 < |n.children| && MarksIdentity(n.children[j1]) && MarksIdentity(n.children[j2])
    ensures var q := Qualify(parent, n.children[0].text);
      var reg' := DataEffect(cfg, reg, n, parent).0;
      && q in reg && q in reg'
      && var base := |reg[q].properties|;
         && reg'[q].identity.Some?
         && reg'[q].identity.value >= base + CountProperties(n.children[1..j2])
         && base + CountProperties(n.children[1..j2]) > base + CountProperties(n.children[1..j1])
  {
    DataIdentity(cfg, reg, n, parent);
    var q := Qualify(parent, n.children[0].text);
    var cs := n.children[1..];
    assert cs[j2 - 1] == n.children[j2] && cs[..j2 - 1] == n.children[1..j2];
    IdentityAtLeast(cs, |reg[q].properties|, reg[q].identity, j2 - 1);
    CountPast(n.children, j1, j2);
  }

  /** A property child between `1` and `j2` adds to the count before `j2`. */
  lemma CountPast(ch: seq<Node>, j1: nat, j2: nat)
    requires 1 <= j1 < j2 <= |ch| && ch[j1].kind == PropertyToken
    ensures CountProperties(ch[1..j2]) > CountProperties(ch[1..j1])
  {
    assert ch[1..j2] == ch[1..j1] + ([ch[j1]] + ch[j1 + 1..j2]);
    CountPropertiesAppend(ch[1..j1], [ch[j1]] + ch[j1 + 1..j2]);
    CountPropertiesAppend([ch[j1]], ch[j1 + 1..j2]);
  }

  /** When the last property child carrying an identity option is child `j`,
      the populated type's identity is exactly that child's property. */
  lemma LastIdentityWins(cfg: Config, reg: Registry, n: Node, parent: Option<string>, j: nat)
    requires DataEffect(cfg, reg, n, parent).1.None?
    requires 1 <= j < |n.children| && MarksIdentity(n.children[j])
    requires forall k :: j < k < |n.children| ==> !MarksIdentity(n.children[k])
    ensures var q := Qualify(parent, n.children[0].text);
      var reg' := DataEffect(cfg, reg, n, parent).0;
      && q in reg && q in reg'
      && reg'[q].identity == Some(|reg[q].properties| + CountProperties(n.children[1..j]))
  {
    DataIdentity(cfg, reg, n, parent);
    var q := Qualify(parent, n.children[0].text);
    var cs := n.children[1..];
    assert cs[j - 1] == n.children[j] && cs[..j - 1] == n.children[1..j];
    assert forall k :: j - 1 < k < |cs| ==> cs[k] == n.children[k + 1];
    LastMarkedIdentity(cs, |reg[q].properties|, reg[q].identity, j - 1);
  }

  // ----- pass 2 keeps the type graph well formed -----

  /** Keeping every shell keeps names, scopes and nested types consistent. */
  lemma EvolvesKeepsShape(reg: Registry, reg': Registry)
    requires KeepsShells(reg, reg')
    requires WellNamed(reg) && ParentsAreData(reg) && ChildrenRegistered(reg)
    ensures WellNamed(reg') && ParentsAreData(reg') && ChildrenRegistered(reg')
  {
    forall k | k in reg' && reg'[k].DataType?
      ensures reg'[k].childTypes == reg[k].childTypes && reg[k].DataType?
    {
      assert SameShell(reg[k], reg'[k]);
    }
  }

  lemma PropertyKeepsOwned(cfg: Config, reg: Registry, n: Node, owner: string)
    requires owner in reg && reg[owner].DataType? && PropertiesOwned(reg)
    requires PropertyEffect(cfg, reg, n, owner).Ok?
    ensures PropertiesOwned(PropertyEffect(cfg, reg, n, owner).value)
  {
    PropertyPopulation(cfg, reg, n, owner);
    var reg' := PropertyEffect(cfg, reg, n, owner).value;
    var old_ := reg[owner].properties;
    forall j | 0 <= j < |old_| ensures reg'[owner].properties[j] == old_[j] {
      assert reg'[owner].properties[..|old_|][j] == reg'[owner].properties[j];
    }
  }

  lemma {:induction false} EnumKeepsOwned(reg: Registry, q: string, cs: seq<Node>)
    requires q in reg && reg[q].EnumType? && PropertiesOwned(reg)
    ensures PropertiesOwned(EnumValues(reg, q, cs).0)
  {
    if cs != [] {
      var c := cs[0];
      if c.kind == CommentToken && CommentOf(c).Ok? {
        EnumKeepsOwned(reg[q := WithComment(reg[q], Some(CommentOf(c).value))], q, cs[1..]);
      } else if c.kind != NoToken && c.kind != CommentToken {
        EnumKeepsOwned(reg[q := reg[q].(values := reg[q].values + [c.text])], q, cs[1..]);
      }
    }
  }

  lemma DataEffectKeepsOwned(cfg: Config, reg: Registry, n: Node, parent: Option<string>)
    requires PropertiesOwned(reg)
    ensures PropertiesOwned(DataEffect(cfg, reg, n, parent).0)
    decreases n, 1
  {
    if |n.children| > 0 {
      var q := Qualify(parent, n.children[0].text);
      if q in reg && reg[q].DataType? {
        DataMembersKeepsOwned(cfg, reg, q, n, 1);
      }
    }
  }

  lemma DataMembersKeepsOwned(cfg: Config, reg: Registry, q: string, n: Node, i: nat)
    requires q in reg && reg[q].DataType? && 1 <= i <= |n.children| && PropertiesOwned(reg)
    ensures PropertiesOwned(DataMembers(cfg, reg, q, n, i).0)
    decreases n, 0, |n.children| - i
  {
    if i < |n.children| {
      DataMemberKeepsOwned(cfg, reg, q, n.children[i]);
      var r1 := DataMember(cfg, reg, q, n.children[i]);
      if r1.1.None? { DataMembersKeepsOwned(cfg, r1.0, q, n, i + 1); }
    }
  }

  lemma DataMemberKeepsOwned(cfg: Config, reg: Registry, q: string, c: Node)
    requires q in reg && reg[q].DataType? && PropertiesOwned(reg)
    ensures PropertiesOwned(DataMember(cfg, reg, q, c).0)
    decreases c, 2
  {
    match c.kind {
      case DataToken =>
        DataEffectKeepsOwned(cfg, reg, c, Some(q));
      case EnumToken =>
        if |c.children| > 0 {
          var e := Qualify(Some(q), c.children[0].text);
          if e in reg && reg[e].EnumType? { EnumKeepsOwned(reg, e, c.children[1..]); }
        }
      case PropertyToken =>
        if PropertyEffect(cfg, reg, c, q).Ok? { PropertyKeepsOwned(cfg, reg, c, q); }
      case _ =>
    }
  }

  /** Populating a data type keeps the registry well formed, whether it
      completes or stops at an error part-way. */
  lemma DataEffectKeepsWellFormed(cfg: Config, reg: Registry, n: Node, parent: Option<string>)
    requires WellFormed(reg)
    ensures WellFormed(DataEffect(cfg, reg, n, parent).0)
  {
    DataEffectKeepsOwned(cfg, reg, n, parent);
    DataEffectEvolves(cfg, reg, n, parent);
    EvolvesKeepsShape(reg, DataEffect(cfg, reg, n, parent).0);
  }

  /** Populating an enum keeps the registry well formed. */
  lemma EnumEffectKeepsWellFormed(reg: Registry, n: Node, parent: Option<string>)
    requires WellFormed(reg)
    ensures WellFormed(EnumEffect(reg, n, parent).0)
  {
    if |n.children| > 0 {
      var q := Qualify(parent, n.children[0].text);
      if q in reg && reg[q].EnumType? { EnumKeepsOwned(reg, q, n.children[1..]); }
    }
    EvolvesKeepsShape(reg, EnumEffect(reg, n, parent).0);
  }
}
