/** The TypeParser object: it holds the registry both passes mutate, the
    naming flag and the quiet flag, and walks the tree with loops that update
    the registry entry by entry. Every method is proved to leave exactly the
    registry, and return exactly the error, that the specification functions
    of pass 1, pass 2 and the whole compilation describe. */
module Parser {
  import opened Ast
  import opened Errors
  import opened Types
  import opened Options
  import opened Comments
  import opened TypeExpressions
  import opened Population
  import opened Registration
  import opened Compilation

  class TypeParser {
    const useCamelCaseKeys: bool
    const isQuiet: bool
    /** The registry's scoped lookup (getScopedGuiceyType), whose search order is not part of this model. */
    const scoped: ScopedLookup
    /** The type registry: builtins and user types by qualified name. */
    var registry: Registry

    constructor(registry0: Registry, useCamelCaseKeys: bool, isQuiet: bool, scoped: ScopedLookup)
      ensures registry == registry0
      ensures this.useCamelCaseKeys == useCamelCaseKeys && this.isQuiet == isQuiet && this.scoped == scoped
    {
      this.useCamelCaseKeys := useCamelCaseKeys;
      this.isQuiet := isQuiet;
      this.scoped := scoped;
      registry := registry0;
    }

    function Cfg(): Config
    {
      Config(useCamelCaseKeys, scoped)
    }

    // ----- the registry and owner mutators the compiler calls -----

    /** addType: registers a new type, or fails on a name already taken. */
    method AddType(q: string, d: Decl) returns (err: Option<Error>)
      modifies this
      ensures q in old(registry) ==> err == Some(DuplicateType(q)) && registry == old(registry)
      ensures q !in old(registry) ==> err.None? && registry == old(registry)[q := d]
    {
      if q in registry {
        return Some(DuplicateType(q));
      }
      registry := registry[q := d];
      return None;
    }

    /** addChildType on the data type `p`. */
    method AddChildType(p: string, q: string)
      requires p in registry && registry[p].DataType?
      modifies this
      ensures registry == old(registry)[p := old(registry)[p].(childTypes := old(registry)[p].childTypes + [q])]
    {
      registry := registry[p := registry[p].(childTypes := registry[p].childTypes + [q])];
    }

    /** addProperty on the data type `owner`: appended after the existing properties. */
    method AddProperty(owner: string, p: Property)
      requires owner in registry && registry[owner].DataType?
      modifies this
      ensures registry == old(registry)[owner := old(registry)[owner].(properties := old(registry)[owner].properties + [p])]
    {
      registry := registry[owner := registry[owner].(properties := registry[owner].properties + [p])];
    }

    /** setIdentityProperty on the data type `owner`, designated by the property's position. */
    method SetIdentityProperty(owner: string, idx: nat)
      requires owner in registry && registry[owner].DataType?
      modifies this
      ensures registry == old(registry)[owner := old(registry)[owner].(identity := Some(idx))]
    {
      registry := registry[owner := registry[owner].(identity := Some(idx))];
    }

    /** setComment on the user type `q`. */
    method SetComment(q: string, c: string)
      requires q in registry
      modifies this
      ensures registry == old(registry)[q := WithComment(old(registry)[q], Some(c))]
    {
      registry := registry[q := WithComment(registry[q], Some(c))];
    }

    /** addValue on the enum `q`: appended after the existing values. */
    method AddValue(q: string, v: string)
      requires q in registry && registry[q].EnumType?
      modifies this
      ensures registry == old(registry)[q := old(registry)[q].(values := old(registry)[q].values + [v])]
    {
      registry := registry[q := registry[q].(values := registry[q].values + [v])];
    }

    // ----- pass 2 -----

    /** parsePropertyTree: resolve the type, collect trailing comments and
        options, append the property, apply identity options. On an error the
        registry is unchanged. */
    method ParsePropertyTree(n: Node, owner: string) returns (err: Option<Error>)
      requires owner in registry && registry[owner].DataType?
      modifies this
      ensures match PropertyEffect(Cfg(), old(registry), n, owner)
        case Ok(r) => err.None? && registry == r
        case Err(e) => err == Some(e) && registry == old(registry)
    {
      if |n.children| == 0 {
        return Some(NullReference);
      }
      var propertyName := n.children[0].text;
      var children := n.children[1..];
      var propertyType, next := ParseType(Resolver(Cfg(), registry, owner), children, 0);
      assert children[0..] == children;
      if propertyType.Err? {
        return Some(propertyType.error);
      }
      var rest := children[next..];
      var trailing := CollectTrailing(rest);
      if trailing.Err? {
        return Some(trailing.error);
      }
      var (options, comment) := trailing.value;
      var idx := |registry[owner].properties|;
      var property := NewProperty(owner, propertyName, propertyType.value, comment, useCamelCaseKeys);
      AddProperty(owner, property);
      ApplyIdentityOptions(owner, options, idx);
      return None;
    }

    /** The loop over the children after a property's type expression: the
        options in order and the last comment. */
    method CollectTrailing(rest: seq<Node>) returns (r: Result<(seq<SchemaOption>, Option<string>)>)
      ensures r == Trailing(rest, [], None)
    {
      var options: seq<SchemaOption> := [];
      var comment: Option<string> := None;
      var i := 0;
      while i < |rest|
        invariant 0 <= i <= |rest|
        invariant Trailing(rest[i..], options, comment) == Trailing(rest, [], None)
      {
        var child := rest[i];
        assert rest[i..][1..] == rest[i + 1..];
        match child.kind {
          case NoToken =>
            return Err(NullReference);
          case CommentToken =>
            var c := ParseCommentTree(child);
            if c.Err? {
              return Err(c.error);
            }
            comment := Some(c.value);
          case OptionToken =>
            var o := ParseOptionTree(child);
            if o.Err? {
              return Err(o.error);
            }
            options := options + [o.value];
          case _ =>
        }
        i := i + 1;
      }
      assert rest[|rest|..] == [];
      return Ok((options, comment));
    }

    /** The loop over a property's options: each identity option designates the property at `idx`. */
    method ApplyIdentityOptions(owner: string, options: seq<SchemaOption>, idx: nat)
      requires owner in registry && registry[owner].DataType?
      modifies this
      ensures registry == old(registry)[owner := old(registry)[owner].(identity := IdentityAfter(options, old(registry)[owner].identity, idx))]
    {
      for k := 0 to |options|
        invariant owner in registry && registry[owner].DataType?
        invariant registry == old(registry)[owner := old(registry)[owner].(identity := registry[owner].identity)]
        invariant IdentityAfter(options[k..], registry[owner].identity, idx) == IdentityAfter(options, old(registry)[owner].identity, idx)
      {
        assert options[k..][1..] == options[k + 1..];
        if options[k].name == IdentityOption {
          SetIdentityProperty(owner, idx);
        }
      }
      assert options[|options|..] == [];
    }

    /** parseEnumTree: fetch the enum by qualified name and add its values and comment. */
    method ParseEnumTree(n: Node, parent: Option<string>) returns (err: Option<Error>)
      modifies this
      ensures (registry, err) == EnumEffect(old(registry), n, parent)
    {
      if |n.children| == 0 {
        return Some(NullReference);
      }
      var q := ScopePrefix(parent) + n.children[0].text;
      assert q == Qualify(parent, n.children[0].text);
      if q !in registry {
        return Some(TypeLookupMiss(q));
      }
      if !registry[q].EnumType? {
        return Some(WrongTypeKind(q));
      }
      for i := 1 to |n.children|
        invariant q in registry && registry[q].EnumType?
        invariant EnumValues(registry, q, n.children[i..]) == EnumValues(old(registry), q, n.children[1..])
      {
        var child := n.children[i];
        assert n.children[i..][1..] == n.children[i + 1..];
        if child.kind == NoToken {
          return Some(NullReference);
        } else if child.kind == CommentToken {
          var c := ParseCommentTree(child);
          if c.Err? {
            return Some(c.error);
          }
          SetComment(q, c.value);
        } else {
          AddValue(q, child.text);
        }
      }
      assert n.children[|n.children|..] == [];
      return None;
    }

    /** parseDataTree: fetch the data type by qualified name and dispatch its
        nested data, enum, property and comment children. */
    method ParseDataTree(n: Node, parent: Option<string>) returns (err: Option<Error>)
      modifies this
      ensures (registry, err) == DataEffect(Cfg(), old(registry), n, parent)
      decreases n, 1
    {
      if |n.children| == 0 {
        return Some(NullReference);
      }
      var q := ScopePrefix(parent) + n.children[0].text;
      assert q == Qualify(parent, n.children[0].text);
      if q !in registry {
        return Some(TypeLookupMiss(q));
      }
      if !registry[q].DataType? {
        return Some(WrongTypeKind(q));
      }
      for i := 1 to |n.children|
        invariant q in registry && registry[q].DataType?
        invariant DataMembers(Cfg(), registry, q, n, i) == DataMembers(Cfg(), old(registry), q, n, 1)
      {
        var e := ParseDataMember(n.children[i], q);
        if e.Some? {
          return e;
        }
      }
      return None;
    }

    /** One pass of parseDataTree's loop: dispatch `child` of the data type `q`. */
    method ParseDataMember(child: Node, q: string) returns (err: Option<Error>)
      requires q in registry && registry[q].DataType?
      modifies this
      ensures (registry, err) == DataMember(Cfg(), old(registry), q, child)
      decreases child, 2
    {
      match child.kind {
        case NoToken =>
          return Some(NullReference);
        case DataToken =>
          err := ParseDataTree(child, Some(q));
        case EnumToken =>
          err := ParseEnumTree(child, Some(q));
        case PropertyToken =>
          err := ParsePropertyTree(child, q);
        case CommentToken =>
          var c := ParseCommentTree(child);
          if c.Err? {
            return Some(c.error);
          }
          SetComment(q, c.value);
          return None;
        case _ =>
          return None;
      }
    }

    // ----- pass 1 -----

    /** registerAllUserTypes: create, link and register this node's shell,
        then visit the children; a failed registration is caught here and
        skips this node's children only. */
    method RegisterAllUserTypes(n: Node, parent: Option<string>)
      requires ParentOk(registry, parent)
      modifies this
      ensures registry == Registered(old(registry), n, parent)
      decreases n
    {
      var scope: Option<string> := None;
      if IsShellNode(n) {
        var q := ScopePrefix(parent) + n.children[0].text;
        assert q == Qualify(parent, n.children[0].text);
        if parent.Some? {
          AddChildType(parent.value, q);
        }
        var e := AddType(q, NewShell(n, parent));
        if e.Some? {
          return;
        }
        if n.kind == DataToken {
          scope := Some(q);
        }
      }
      for i := 0 to |n.children|
        invariant ParentOk(registry, scope)
        invariant RegisteredFrom(registry, n, i, scope) == Registered(old(registry), n, parent)
      {
        ghost var before := registry;
        RegisterAllUserTypes(n.children[i], scope);
        assert RegisteredFrom(before, n, i, scope) == RegisteredFrom(registry, n, i + 1, scope);
      }
    }

    // ----- the whole compilation -----

    /** parse: pass 1 over the whole tree, then pass 2 over the root's children. */
    method Parse(tree: Option<Node>) returns (err: Option<Error>)
      modifies this
      ensures (registry, err) == Compiled(Cfg(), old(registry), tree)
    {
      if tree.None? {
        return None;
      }
      var root := tree.value;
      RegisterAllUserTypes(root, None);
      if |root.children| == 0 {
        return Some(NullReference);
      }
      ghost var registered := registry;
      for i := 0 to |root.children|
        invariant TopLevel(Cfg(), registry, root.children[i..]) == TopLevel(Cfg(), registered, root.children)
      {
        var typeTree := root.children[i];
        assert root.children[i..][1..] == root.children[i + 1..];
        match typeTree.kind {
          case NoToken =>
            return Some(NullReference);
          case EofToken =>
          case DataToken =>
            var e := ParseDataTree(typeTree, None);
            if e.Some? {
              return e;
            }
          case EnumToken =>
            var e := ParseEnumTree(typeTree, None);
            if e.Some? {
              return e;
            }
          case _ =>
        }
      }
      assert root.children[|root.children|..] == [];
      return None;
    }
  }
}
