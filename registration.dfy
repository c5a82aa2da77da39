/** Pass 1 of the schema compiler as specification functions
    (registerAllUserTypes): a depth-first walk that creates a shell for every
    data and enum declaration, lists it under its enclosing data type and
    registers it under its qualified name. */
module Registration {
  import opened Ast
  import opened Errors
  import opened Types

  /** A data or enum node with at least one child declares a type named by child 0. */
  predicate IsShellNode(n: Node)
  {
    (n.kind == DataToken || n.kind == EnumToken) && |n.children| > 0
  }

  /** The enclosing type handed down the walk is a registered data type, or there is none. */
  predicate ParentOk(reg: Registry, parent: Option<string>)
  {
    parent.Some? ==> parent.value in reg && reg[parent.value].DataType?
  }

  /** Pass 1 only adds types and appends nested types to existing data types. */
  predicate Grows(reg: Registry, reg': Registry)
  {
    reg.Keys <= reg'.Keys && forall k :: k in reg ==> Extends(reg[k], reg'[k])
  }

  lemma GrowsTransitive(a: Registry, b: Registry, c: Registry)
    requires Grows(a, b) && Grows(b, c)
    ensures Grows(a, c)
  {
    forall k | k in a ensures Extends(a[k], c[k]) { ExtendsTransitive(a[k], b[k], c[k]); }
  }

  /** addChildType: the enclosing data type lists `q` after its earlier nested types. */
  function AddChild(reg: Registry, parent: Option<string>, q: string): (r: Registry)
    requires ParentOk(reg, parent)
    ensures Grows(reg, r) && r.Keys == reg.Keys
    ensures parent.None? ==> r == reg
    ensures parent.Some? ==> r[parent.value].childTypes == reg[parent.value].childTypes + [q]
    ensures forall k :: k in reg && (parent.None? || k != parent.value) ==> r[k] == reg[k]
  {
    if parent.None? then reg
    else
      var p := parent.value;
      assert reg[p].childTypes <= reg[p].childTypes + [q];
      reg[p := reg[p].(childTypes := reg[p].childTypes + [q])]
  }

  /** The new shell a declaration node creates: no properties, values, nested types, identity or comment. */
  function NewShell(n: Node, parent: Option<string>): (d: Decl)
    requires IsShellNode(n)
    ensures !d.Builtin? && d.name == n.children[0].text && d.parent == parent && d.comment.None?
    ensures d.DataType? <==> n.kind == DataToken
    ensures d.DataType? ==> d.properties == [] && d.identity.None? && d.childTypes == []
    ensures d.EnumType? ==> d.values == []
  {
    if n.kind == DataToken then DataType(n.children[0].text, parent, [], None, [], None)
    else EnumType(n.children[0].text, parent, [], None)
  }

  /** registerAllUserTypes(n, parent). A qualified name that is already
      registered makes addType throw after the shell was already listed under
      its parent; the exception is caught at this node, so this node's children
      are not visited while its siblings still are. */
  function Registered(reg: Registry, n: Node, parent: Option<string>): (r: Registry)
    requires ParentOk(reg, parent)
    ensures Grows(reg, r)
    decreases n, 1
  {
    if IsShellNode(n) then
      var q := Qualify(parent, n.children[0].text);
      var reg1 := AddChild(reg, parent, q);
      if q in reg1 then reg1
      else
        var reg2 := reg1[q := NewShell(n, parent)];
        var scope := if n.kind == DataToken then Some(q) else None;
        var r := RegisteredFrom(reg2, n, 0, scope);
        GrowsTransitive(reg, reg2, r);
        r
    else RegisteredFrom(reg, n, 0, None)
  }

  /** The loop over a node's children from index `i`, each visited with the same enclosing type. */
  function RegisteredFrom(reg: Registry, n: Node, i: nat, scope: Option<string>): (r: Registry)
    requires ParentOk(reg, scope) && i <= |n.children|
    ensures Grows(reg, r)
    decreases n, 0, |n.children| - i
  {
    if i == |n.children| then reg
    else
      var reg1 := Registered(reg, n.children[i], scope);
      var r := RegisteredFrom(reg1, n, i + 1, scope);
      GrowsTransitive(reg, reg1, r);
      r
  }

  /** The qualified names of the declaration nodes among `cs`, declared inside `q`. */
  function ShellNames(q: string, cs: seq<Node>): seq<string>
  {
    if cs == [] then []
    else ShellName(q, cs[0]) + ShellNames(q, cs[1..])
  }

  /** The qualified name `c` declares inside `q`, if `c` is a declaration. */
  function ShellName(q: string, c: Node): seq<string>
  {
    if IsShellNode(c) then [Qualify(Some(q), c.children[0].text)] else []
  }

  /** Every declaration is registered under its qualified name, whether it is new or already there. */
  lemma DeclarationRegistered(reg: Registry, n: Node, parent: Option<string>)
    requires ParentOk(reg, parent) && IsShellNode(n)
    ensures Qualify(parent, n.children[0].text) in Registered(reg, n, parent)
  {
  }

  /** A declaration whose qualified name is already registered is still listed
      under its enclosing type, but its own subtree is not visited. */
  lemma DuplicateSkipsSubtree(reg: Registry, n: Node, parent: Option<string>)
    requires ParentOk(reg, parent) && IsShellNode(n)
    requires Qualify(parent, n.children[0].text) in reg
    ensures Registered(reg, n, parent) == AddChild(reg, parent, Qualify(parent, n.children[0].text))
  {
  }

  /** Every declaration child of a node is registered, whatever happens while
      visiting its siblings: an exception never leaves the node it arose at. */
  lemma {:induction false} EveryChildRegistered(reg: Registry, n: Node, i: nat, scope: Option<string>)
    requires ParentOk(reg, scope) && i <= |n.children|
    ensures forall j :: i <= j < |n.children| && IsShellNode(n.children[j]) ==>
      Qualify(scope, n.children[j].children[0].text) in RegisteredFrom(reg, n, i, scope)
    decreases |n.children| - i
  {
    if i < |n.children| {
      var reg1 := Registered(reg, n.children[i], scope);
      EveryChildRegistered(reg1, n, i + 1, scope);
      if IsShellNode(n.children[i]) {
        DeclarationRegistered(reg, n.children[i], scope);
        assert RegisteredFrom(reg, n, i, scope) == RegisteredFrom(reg1, n, i + 1, scope);
      }
    }
  }

  /** An entry already registered is left alone by a walk that does not start right below it. */
  lemma {:induction false} RegisteredUntouched(reg: Registry, n: Node, parent: Option<string>, k: string)
    requires ParentOk(reg, parent) && k in reg && parent != Some(k)
    ensures Registered(reg, n, parent)[k] == reg[k]
    decreases n, 1
  {
    if IsShellNode(n) {
      var q := Qualify(parent, n.children[0].text);
      var reg1 := AddChild(reg, parent, q);
      if q !in reg1 {
        var reg2 := reg1[q := NewShell(n, parent)];
        RegisteredFromUntouched(reg2, n, 0, if n.kind == DataToken then Some(q) else None, k);
      }
    } else {
      RegisteredFromUntouched(reg, n, 0, None, k);
    }
  }

  lemma {:induction false} RegisteredFromUntouched(reg: Registry, n: Node, i: nat, scope: Option<string>, k: string)
    requires ParentOk(reg, scope) && i <= |n.children| && k in reg && scope != Some(k)
    ensures RegisteredFrom(reg, n, i, scope)[k] == reg[k]
    decreases n, 0, |n.children| - i
  {
    if i < |n.children| {
      RegisteredUntouched(reg, n.children[i], scope, k);
      RegisteredFromUntouched(Registered(reg, n.children[i], scope), n, i + 1, scope, k);
    }
  }

  /** Visiting one child of the data type `q` appends that child's qualified
      name to `q`'s nested types when the child is a declaration, even one
      whose registration fails, and changes nothing else about `q`. */
  lemma ChildStep(reg: Registry, c: Node, q: string)
    requires q in reg && reg[q].DataType?
    ensures var r := Registered(reg, c, Some(q));
      r[q] == reg[q].(childTypes := reg[q].childTypes + ShellName(q, c))
  {
    if IsShellNode(c) {
      var q' := Qualify(Some(q), c.children[0].text);
      var reg1 := AddChild(reg, Some(q), q');
      if q' !in reg1 {
        var reg2 := reg1[q' := NewShell(c, Some(q))];
        RegisteredFromUntouched(reg2, c, 0, if c.kind == DataToken then Some(q') else None, q);
      }
    } else {
      RegisteredFromUntouched(reg, c, 0, None, q);
    }
  }

  lemma {:induction false} ChildrenListed(reg: Registry, n: Node, i: nat, q: string)
    requires q in reg && reg[q].DataType? && i <= |n.children|
    ensures var r := RegisteredFrom(reg, n, i, Some(q));
      r[q] == reg[q].(childTypes := reg[q].childTypes + ShellNames(q, n.children[i..]))
    decreases |n.children| - i
  {
    if i == |n.children| {
      assert reg[q].childTypes + [] == reg[q].childTypes;
    } else {
      var c := n.children[i];
      var reg1 := Registered(reg, c, Some(q));
      ChildStep(reg, c, q);
      ChildrenListed(reg1, n, i + 1, q);
      assert ShellNames(q, n.children[i..]) == ShellName(q, c) + ShellNames(q, n.children[i + 1..]) by {
        var cs := n.children[i..];
        assert cs[0] == c && cs[1..] == n.children[i + 1..];
      }
      AppendTwice(reg[q], reg1[q], RegisteredFrom(reg1, n, i + 1, Some(q))[q],
                  ShellName(q, c), ShellNames(q, n.children[i + 1..]));
    }
  }

  lemma AppendTwice(d: Decl, d1: Decl, d2: Decl, s1: seq<string>, s2: seq<string>)
    requires d.DataType?
    requires d1 == d.(childTypes := d.childTypes + s1)
    requires d2 == d1.(childTypes := d1.childTypes + s2)
    ensures d2 == d.(childTypes := d.childTypes + (s1 + s2))
  {
    assert (d.childTypes + s1) + s2 == d.childTypes + (s1 + s2);
  }

  /** A new declaration becomes a shell of its node's kind, named by child 0,
      scoped by its enclosing data type, without properties, identity or
      comment; a new data type lists exactly its own declaration children as
      nested types, in order. */
  lemma FreshShell(reg: Registry, n: Node, parent: Option<string>)
    requires ParentOk(reg, parent) && IsShellNode(n)
    requires Qualify(parent, n.children[0].text) !in reg
    ensures var q := Qualify(parent, n.children[0].text);
      var r := Registered(reg, n, parent);
      && q in r && r[q].name == n.children[0].text && r[q].parent == parent && r[q].comment.None?
      && (n.kind == DataToken ==> r[q] == DataType(n.children[0].text, parent, [], None, ShellNames(q, n.children), None))
      && (n.kind == EnumToken ==> r[q] == EnumType(n.children[0].text, parent, [], None))
  {
    var q := Qualify(parent, n.children[0].text);
    var reg1 := AddChild(reg, parent, q);
    var reg2 := reg1[q := NewShell(n, parent)];
    if n.kind == DataToken {
      ChildrenListed(reg2, n, 0, q);
      assert n.children[0..] == n.children;
    } else {
      RegisteredFromUntouched(reg2, n, 0, None, q);
    }
  }

  // ----- pass 1 keeps the type graph well formed -----

  lemma {:induction false} RegisteredKeepsWellFormed(reg: Registry, n: Node, parent: Option<string>)
    requires ParentOk(reg, parent) && WellFormed(reg)
    ensures WellFormed(Registered(reg, n, parent))
    decreases n, 1
  {
    if IsShellNode(n) {
      var q := Qualify(parent, n.children[0].text);
      var reg1 := AddChild(reg, parent, q);
      if q in reg1 {
        AddChildKeepsWellFormed(reg, parent, q);
      } else {
        var reg2 := reg1[q := NewShell(n, parent)];
        NewShellKeepsWellFormed(reg, n, parent);
        RegisteredFromKeepsWellFormed(reg2, n, 0, if n.kind == DataToken then Some(q) else None);
      }
    } else {
      RegisteredFromKeepsWellFormed(reg, n, 0, None);
    }
  }

  lemma {:induction false} RegisteredFromKeepsWellFormed(reg: Registry, n: Node, i: nat, scope: Option<string>)
    requires ParentOk(reg, scope) && i <= |n.children| && WellFormed(reg)
    ensures WellFormed(RegisteredFrom(reg, n, i, scope))
    decreases n, 0, |n.children| - i
  {
    if i < |n.children| {
      RegisteredKeepsWellFormed(reg, n.children[i], scope);
      RegisteredFromKeepsWellFormed(Registered(reg, n.children[i], scope), n, i + 1, scope);
    }
  }

  /** Listing an already registered name under a scope it extends keeps the registry well formed. */
  lemma AddChildKeepsWellFormed(reg: Registry, parent: Option<string>, q: string)
    requires ParentOk(reg, parent) && WellFormed(reg)
    requires q in AddChild(reg, parent, q) && ScopePrefix(parent) <= q
    ensures WellFormed(AddChild(reg, parent, q))
  {
    var r := AddChild(reg, parent, q);
    if parent.Some? {
      var p := parent.value;
      forall k, j | k in r && r[k].DataType? && 0 <= j < |r[k].childTypes|
        ensures r[k].childTypes[j] in r && k + "." <= r[k].childTypes[j]
      {
        if k == p && j == |reg[p].childTypes| {
        } else {
          assert r[k].childTypes[j] == reg[k].childTypes[j];
        }
      }
    }
  }

  /** Registering a new shell under its qualified name keeps the registry well formed. */
  lemma NewShellKeepsWellFormed(reg: Registry, n: Node, parent: Option<string>)
    requires ParentOk(reg, parent) && WellFormed(reg) && IsShellNode(n)
    requires Qualify(parent, n.children[0].text) !in reg
    ensures var q := Qualify(parent, n.children[0].text);
      WellFormed(AddChild(reg, parent, q)[q := NewShell(n, parent)])
  {
    NewShellKeepsNames(reg, n, parent);
    NewShellKeepsChildren(reg, n, parent);
  }

  lemma NewShellKeepsNames(reg: Registry, n: Node, parent: Option<string>)
    requires ParentOk(reg, parent) && WellFormed(reg) && IsShellNode(n)
    requires Qualify(parent, n.children[0].text) !in reg
    ensures var q := Qualify(parent, n.children[0].text);
      var r := AddChild(reg, parent, q)[q := NewShell(n, parent)];
      WellNamed(r) && ParentsAreData(r) && PropertiesOwned(r)
  {
  }

  lemma NewShellKeepsChildren(reg: Registry, n: Node, parent: Option<string>)
    requires ParentOk(reg, parent) && WellFormed(reg) && IsShellNode(n)
    requires Qualify(parent, n.children[0].text) !in reg
    ensures var q := Qualify(parent, n.children[0].text);
      ChildrenRegistered(AddChild(reg, parent, q)[q := NewShell(n, parent)])
  {
    var q := Qualify(parent, n.children[0].text);
    var reg1 := AddChild(reg, parent, q);
    var r := reg1[q := NewShell(n, parent)];
    forall k, j | k in r && r[k].DataType? && 0 <= j < |r[k].childTypes|
      ensures r[k].childTypes[j] in r && k + "." <= r[k].childTypes[j]
    {
      if k != q {
        if parent.Some? && k == parent.value && j == |reg[k].childTypes| {
        } else {
          assert r[k].childTypes[j] == reg[k].childTypes[j];
        }
      }
    }
  }
}
