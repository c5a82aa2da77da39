/** The type graph: resolved types, properties, declared data and enum types,
    and the registry that holds them by qualified name. */
module Types {
  import opened Errors

  datatype Type =
    | Primitive(name: string)
    | Blob
    | List(element: Type)
    | Set(element: Type)
    | Map(key: Type, value: Type)
    | UserEnum(qname: string)
    | UserData(qname: string)

  /** Which property class the property factory instantiates. */
  datatype PropertyKind =
    | PrimitiveProperty
    | BlobProperty
    | UserEnumProperty
    | UserDataProperty
    | ListProperty
    | SetProperty
    | MapProperty

  /** A property of a data type; `owner` is the qualified name of the enclosing data type. */
  datatype Property = Property(
    owner: string,
    name: string,
    kind: PropertyKind,
    propertyType: Type,
    comment: Option<string>,
    useCamelCaseKeys: bool)

  /** A registry entry. Data and enum types start as empty shells in pass 1 and
      are decorated in pass 2; `identity` is an index into `properties`. */
  datatype Decl =
    | Builtin(builtin: Type)
    | DataType(
        name: string,
        parent: Option<string>,
        properties: seq<Property>,
        identity: Option<nat>,
        childTypes: seq<string>,
        comment: Option<string>)
    | EnumType(
        name: string,
        parent: Option<string>,
        values: seq<string>,
        comment: Option<string>)

  type Registry = map<string, Decl>

  /** The registry's scoped lookup (getScopedGuiceyType): given the registry, the
      qualified name of the scoping data type and a referenced name, the type
      it resolves to, if any. Its search order is not part of this model. */
  type ScopedLookup = (Registry, string, string) -> Option<Type>

  /** The qualified name of a type declared under `parent`. */
  function Qualify(parent: Option<string>, name: string): (q: string)
    ensures parent.None? ==> q == name
    ensures parent.Some? ==> parent.value + "." <= q && |q| == |parent.value| + 1 + |name|
    ensures parent.Some? ==> q[|parent.value| + 1..] == name
  {
    if parent.None? then name else parent.value + "." + name
  }

  /** The characters every type declared inside `parent` starts with. */
  function ScopePrefix(parent: Option<string>): string
  {
    if parent.None? then "" else parent.value + "."
  }

  /** The expected type variant of each property class. */
  predicate KindMatches(k: PropertyKind, t: Type)
  {
    match k
    case PrimitiveProperty => t.Primitive?
    case BlobProperty => t.Blob?
    case UserEnumProperty => t.UserEnum?
    case UserDataProperty => t.UserData?
    case ListProperty => t.List?
    case SetProperty => t.Set?
    case MapProperty => t.Map?
  }

  /** The property factory: an exhaustive match on the resolved type's variant. */
  function NewProperty(owner: string, name: string, t: Type, comment: Option<string>, useCamelCaseKeys: bool): (p: Property)
    ensures p.owner == owner && p.name == name && p.propertyType == t
    ensures p.comment == comment && p.useCamelCaseKeys == useCamelCaseKeys
    ensures KindMatches(p.kind, t)
  {
    var kind := match t
      case Primitive(_) => PrimitiveProperty
      case Blob => BlobProperty
      case UserEnum(_) => UserEnumProperty
      case UserData(_) => UserDataProperty
      case List(_) => ListProperty
      case Set(_) => SetProperty
      case Map(_, _) => MapProperty;
    Property(owner, name, kind, t, comment, useCamelCaseKeys)
  }

  /** A user type with its comment replaced (setComment); a builtin has none. */
  function WithComment(d: Decl, c: Option<string>): (r: Decl)
    ensures SameShell(d, r)
    ensures !d.Builtin? ==> r.comment == c
    ensures d.DataType? ==> r.properties == d.properties && r.identity == d.identity
    ensures d.EnumType? ==> r.values == d.values
  {
    match d
    case Builtin(_) => d
    case DataType(name, parent, props, id, kids, _) => DataType(name, parent, props, id, kids, c)
    case EnumType(name, parent, vals, _) => EnumType(name, parent, vals, c)
  }

  /** Same variant, name and scope; for data types also the same nested types.
      Pass 2 changes nothing else about a registered type than its decorations. */
  predicate SameShell(a: Decl, b: Decl)
  {
    match a
    case Builtin(_) => b == a
    case DataType(n, p, _, _, cts, _) => b.DataType? && b.name == n && b.parent == p && b.childTypes == cts
    case EnumType(n, p, _, _) => b.EnumType? && b.name == n && b.parent == p
  }

  /** Being a prefix is transitive. */
  lemma PrefixTransitive<T>(a: seq<T>, b: seq<T>, c: seq<T>)
    requires a <= b && b <= c
    ensures a <= c
  {
    assert c[..|a|] == c[..|b|][..|a|];
  }

  lemma ExtendsTransitive(a: Decl, b: Decl, c: Decl)
    requires Extends(a, b) && Extends(b, c)
    ensures Extends(a, c)
  {
    if a.DataType? { PrefixTransitive(a.childTypes, b.childTypes, c.childTypes); }
  }

  /** `b` is `a` with possibly more nested types appended (what pass 1 does to an existing entry). */
  predicate Extends(a: Decl, b: Decl)
  {
    match a
    case DataType(n, p, ps, id, cts, c) =>
      b.DataType? && b.name == n && b.parent == p && b.properties == ps && b.identity == id
      && b.comment == c && cts <= b.childTypes
    case _ => b == a
  }

  // ----- well-formedness of the type graph -----

  /** Every user type is registered under its parent's qualified name, a dot and its own name. */
  ghost predicate WellNamed(reg: Registry)
  {
    forall k :: k in reg && !reg[k].Builtin? ==> k == Qualify(reg[k].parent, reg[k].name)
  }

  /** The enclosing scope of every user type is a registered data type. */
  ghost predicate ParentsAreData(reg: Registry)
  {
    forall k :: k in reg && !reg[k].Builtin? && reg[k].parent.Some? ==>
      reg[k].parent.value in reg && reg[reg[k].parent.value].DataType?
  }

  /** Every nested type a data type lists is registered inside its scope. */
  ghost predicate ChildrenRegistered(reg: Registry)
  {
    forall k, j :: k in reg && reg[k].DataType? && 0 <= j < |reg[k].childTypes| ==>
      reg[k].childTypes[j] in reg && k + "." <= reg[k].childTypes[j]
  }

  /** Every property belongs to the data type that lists it and has the class its type calls for;
      the identity designation points into the property sequence. */
  ghost predicate PropertiesOwned(reg: Registry)
  {
    && (forall k, j :: k in reg && reg[k].DataType? && 0 <= j < |reg[k].properties| ==>
          reg[k].properties[j].owner == k && KindMatches(reg[k].properties[j].kind, reg[k].properties[j].propertyType))
    && (forall k :: k in reg && reg[k].DataType? && reg[k].identity.Some? ==>
          reg[k].identity.value < |reg[k].properties|)
  }

  ghost predicate WellFormed(reg: Registry)
  {
    WellNamed(reg) && ParentsAreData(reg) && ChildrenRegistered(reg) && PropertiesOwned(reg)
  }
}
