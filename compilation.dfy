/** The whole compilation (parse): pass 1 over the entire tree, then pass 2
    over the root's direct children. Pass 2 is not guarded, so the first error
    it meets ends the compilation, keeping what was done before it. */
module Compilation {
  import opened Ast
  import opened Errors
  import opened Types
  import opened Population
  import opened Registration

  /** The pass-2 loop over the root's children: end-of-file markers and kinds
      other than data and enum are skipped. */
  function TopLevel(cfg: Config, reg: Registry, cs: seq<Node>): (r: (Registry, Option<Error>))
    ensures KeepsShells(reg, r.0)
  {
    if cs == [] then (reg, None)
    else match cs[0].kind
      case NoToken => (reg, Some(NullReference))
      case DataToken =>
        var r1 := DataEffect(cfg, reg, cs[0], None);
        DataEffectEvolves(cfg, reg, cs[0], None);
        if r1.1.Some? then r1
        else
          var r2 := TopLevel(cfg, r1.0, cs[1..]);
          KeepsShellsChain(reg, r1.0, r2.0);
          r2
      case EnumToken =>
        var r1 := EnumEffect(reg, cs[0], None);
        if r1.1.Some? then r1
        else
          var r2 := TopLevel(cfg, r1.0, cs[1..]);
          KeepsShellsChain(reg, r1.0, r2.0);
          r2
      case _ => TopLevel(cfg, reg, cs[1..])
  }

  /** parse(tree): nothing for a missing tree; otherwise both passes. A root
      without children fails in pass 2 because its child list is null. */
  function Compiled(cfg: Config, reg: Registry, tree: Option<Node>): (r: (Registry, Option<Error>))
  {
    match tree
    case None => (reg, None)
    case Some(root) =>
      var reg1 := Registered(reg, root, None);
      if |root.children| == 0 then (reg1, Some(NullReference))
      else TopLevel(cfg, reg1, root.children)
  }

  /** The children pass 2 acts on: data and enum declarations, and nil nodes, whose token it dereferences. */
  predicate Dispatched(c: Node)
  {
    c.kind == DataToken || c.kind == EnumToken || c.kind == NoToken
  }

  function DispatchedOnly(cs: seq<Node>): (r: seq<Node>)
    ensures forall j :: 0 <= j < |r| ==> Dispatched(r[j])
    ensures |r| <= |cs|
  {
    if cs == [] then []
    else (if Dispatched(cs[0]) then [cs[0]] else []) + DispatchedOnly(cs[1..])
  }

  /** Pass 2 at the top level acts only on data and enum declarations: removing
      every other child (end-of-file markers, stray tokens) changes nothing. */
  lemma {:induction false} TopLevelIgnoresOthers(cfg: Config, reg: Registry, cs: seq<Node>)
    ensures TopLevel(cfg, reg, cs) == TopLevel(cfg, reg, DispatchedOnly(cs))
    decreases cs
  {
    if cs != [] {
      var c := cs[0];
      if Dispatched(c) {
        assert DispatchedOnly(cs) == [c] + DispatchedOnly(cs[1..]);
        assert DispatchedOnly(cs)[0] == c && DispatchedOnly(cs)[1..] == DispatchedOnly(cs[1..]);
        if c.kind == DataToken {
          TopLevelIgnoresOthers(cfg, DataEffect(cfg, reg, c, None).0, cs[1..]);
        } else if c.kind == EnumToken {
          TopLevelIgnoresOthers(cfg, EnumEffect(reg, c, None).0, cs[1..]);
        }
      } else {
        assert DispatchedOnly(cs) == [] + DispatchedOnly(cs[1..]);
        assert [] + DispatchedOnly(cs[1..]) == DispatchedOnly(cs[1..]);
        TopLevelIgnoresOthers(cfg, reg, cs[1..]);
      }
    }
  }

  /** Without a tree the registry is left as it was. */
  lemma NoTreeNoChange(cfg: Config, reg: Registry)
    ensures Compiled(cfg, reg, None) == (reg, None)
  {
  }

  lemma {:induction false} TopLevelKeepsWellFormed(cfg: Config, reg: Registry, cs: seq<Node>)
    requires WellFormed(reg)
    ensures WellFormed(TopLevel(cfg, reg, cs).0)
    decreases cs
  {
    if cs != [] {
      var c := cs[0];
      if c.kind == DataToken {
        DataEffectKeepsWellFormed(cfg, reg, c, None);
        TopLevelKeepsWellFormed(cfg, DataEffect(cfg, reg, c, None).0, cs[1..]);
      } else if c.kind == EnumToken {
        EnumEffectKeepsWellFormed(reg, c, None);
        TopLevelKeepsWellFormed(cfg, EnumEffect(reg, c, None).0, cs[1..]);
      } else if c.kind != NoToken {
        TopLevelKeepsWellFormed(cfg, reg, cs[1..]);
      }
    }
  }

  /** A compilation that starts from a well-formed registry leaves one, even when it stops at an error. */
  lemma CompiledKeepsWellFormed(cfg: Config, reg: Registry, tree: Option<Node>)
    requires WellFormed(reg)
    ensures WellFormed(Compiled(cfg, reg, tree).0)
  {
    if tree.Some? {
      RegisteredKeepsWellFormed(reg, tree.value, None);
      if |tree.value.children| > 0 {
        TopLevelKeepsWellFormed(cfg, Registered(reg, tree.value, None), tree.value.children);
      }
    }
  }

  /** Every type the compilation knows was known before or registered by pass 1,
      and no type known before is lost; below a root that is not itself a
      declaration (the nil node holding several), every top-level declaration is
      registered under its own name. */
  lemma CompiledRegistry(cfg: Config, reg: Registry, root: Node)
    requires !IsShellNode(root)
    ensures var r := Compiled(cfg, reg, Some(root)).0;
      && r.Keys == Registered(reg, root, None).Keys
      && reg.Keys <= r.Keys
      && (forall j :: 0 <= j < |root.children| && IsShellNode(root.children[j]) ==>
            root.children[j].children[0].text in r)
  {
    EveryChildRegistered(reg, root, 0, None);
  }
}
