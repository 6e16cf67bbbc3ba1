/**
 * The definition registry of definition_register.py: every assignment site
 * gets the next free bit position, and the registry remembers, per assigned
 * target text, the (bit, node) pairs registered for it and, per bit, the node
 * that owns it.
 */
module DefinitionRegistry {
  import opened Masks

  /** A graph node handle: the node's index in the graph's node table. */
  type NodeId = nat

  /** One `(gen_bit, node)` pair of `defs_dict`; its gen bit is `1 << bit`. */
  datatype Def = Def(bit: nat, node: NodeId)

  /** The OR of the gen bits of a list of definitions (the `reduce` in get_gen_kill). */
  function BitsOf(ds: seq<Def>): Mask {
    if ds == [] then {} else BitsOf(ds[..|ds| - 1]) + {ds[|ds| - 1].bit}
  }

  lemma {:induction false} BitsOfAppend(ds: seq<Def>, d: Def)
    ensures BitsOf(ds + [d]) == BitsOf(ds) + {d.bit}
  {
    assert (ds + [d])[..|ds|] == ds;
  }

  /** A bit is in `BitsOf(ds)` exactly when some pair of `ds` carries it. */
  lemma {:induction false} BitsOfMember(ds: seq<Def>, k: nat)
    ensures k in BitsOf(ds) <==> exists j :: 0 <= j < |ds| && ds[j].bit == k
  {
    if ds != [] {
      var init := ds[..|ds| - 1];
      BitsOfMember(init, k);
      assert forall j :: 0 <= j < |init| ==> init[j] == ds[j];
      if k in BitsOf(init) {
        var j :| 0 <= j < |init| && init[j].bit == k;
        assert ds[j].bit == k;
      }
    }
  }

  /** The list registered for a target; `[]` for a target never assigned. */
  function DefsFor(dict: map<string, seq<Def>>, assign: string): seq<Def> {
    if assign in dict then dict[assign] else []
  }

  /** The gen bits of every definition registered for `assign`. */
  function TargetBits(dict: map<string, seq<Def>>, assign: string): Mask {
    BitsOf(DefsFor(dict, assign))
  }

  /** The table after `add_to_defs(assign, d)`: `d` appended to the target's list. */
  function Registered(dict: map<string, seq<Def>>, assign: string, d: Def): (r: map<string, seq<Def>>)
    ensures r.Keys == dict.Keys + {assign}
    ensures DefsFor(r, assign) == DefsFor(dict, assign) + [d]
    ensures forall a :: a != assign ==> DefsFor(r, a) == DefsFor(dict, a)
  {
    dict[assign := DefsFor(dict, assign) + [d]]
  }

  /**
   * The specification of get_def_bitmask: the union of the gen bits of all
   * definitions of the listed targets.
   */
  function DefBitmask(dict: map<string, seq<Def>>, vars: set<string>): Mask {
    set a, k | a in vars && k in TargetBits(dict, a) :: k
  }

  /** The inner loop of get_def_bitmask: OR the gen bits of one target's list. */
  method OrBits(ds: seq<Def>) returns (bits: Mask)
    ensures bits == BitsOf(ds)
  {
    bits := {};
    var i := 0;
    while i < |ds|
      invariant 0 <= i <= |ds|
      invariant bits == BitsOf(ds[..i])
    {
      assert ds[..i + 1] == ds[..i] + [ds[i]];
      BitsOfAppend(ds[..i], ds[i]);
      bits := bits + {ds[i].bit};
      i := i + 1;
    }
    assert ds[..i] == ds;
  }

  /** Adding one target to the listed set adds exactly that target's bits. */
  lemma {:induction false} DefBitmaskStep(dict: map<string, seq<Def>>, done: set<string>, a: string)
    ensures DefBitmask(dict, done + {a}) == DefBitmask(dict, done) + TargetBits(dict, a)
  {
    DefBitmaskUnion(dict, done, {a});
    DefBitmaskSingle(dict, a);
  }

  /** Every bit registered in `dict` is below `n`. */
  ghost predicate AllBelow(dict: map<string, seq<Def>>, n: nat) {
    forall a, j :: a in dict && 0 <= j < |dict[a]| ==> dict[a][j].bit < n
  }

  /**
   * The registry invariant over its three fields: one `defs_list` entry per
   * bit handed out, and every pair in `defs_dict` names a bit below
   * `next_bit` and the node `defs_list` records for that bit.
   */
  ghost predicate ValidState(dict: map<string, seq<Def>>, list: seq<NodeId>, nextBit: nat) {
    |list| == nextBit &&
    AllBelow(dict, nextBit) &&
    (forall a, j :: a in dict && 0 <= j < |dict[a]| ==> list[dict[a][j].bit] == dict[a][j].node)
  }

  /** get_gen_kill keeps the invariant. */
  lemma {:induction false} RegisterKeepsValid(dict: map<string, seq<Def>>, list: seq<NodeId>, n: nat, assign: string, node: NodeId)
    requires ValidState(dict, list, n)
    ensures ValidState(Registered(dict, assign, Def(n, node)), list + [node], n + 1)
  {
    var r: map<string, seq<Def>> := Registered(dict, assign, Def(n, node));
    forall a: string, j: int | a in r && 0 <= j < |r[a]|
      ensures r[a][j].bit < n + 1 && (list + [node])[r[a][j].bit] == r[a][j].node
    {
      if a == assign && j == |r[a]| - 1 {
        assert r[a][j] == Def(n, node);
      } else {
        assert a in dict && r[a][j] == dict[a][j];
      }
    }
  }

  lemma {:induction false} TargetBitsBelow(dict: map<string, seq<Def>>, n: nat, a: string)
    requires AllBelow(dict, n)
    ensures TargetBits(dict, a) <= Below(n)
  {
    forall k | k in TargetBits(dict, a) ensures k < n {
      BitsOfMember(DefsFor(dict, a), k);
      var j :| 0 <= j < |DefsFor(dict, a)| && DefsFor(dict, a)[j].bit == k;
    }
  }

  /**
   * Registering bit `n` for `assign`: the target's bits grow by exactly `{n}`,
   * the new bit is not among the earlier ones (so gen & kill == 0), and no
   * other target's bits change.
   */
  lemma {:induction false} RegisteredBits(dict: map<string, seq<Def>>, n: nat, assign: string, node: NodeId)
    requires AllBelow(dict, n)
    ensures TargetBits(Registered(dict, assign, Def(n, node)), assign) == TargetBits(dict, assign) + {n}
    ensures n !in TargetBits(dict, assign)
    ensures forall a :: a != assign ==> TargetBits(Registered(dict, assign, Def(n, node)), a) == TargetBits(dict, a)
  {
    BitsOfAppend(DefsFor(dict, assign), Def(n, node));
    TargetBitsBelow(dict, n, assign);
  }

  /**
   * A later registration leaves every earlier bit where it was: the set of
   * bits below `n` registered for any target is the same before and after,
   * so a kill mask handed out earlier still describes the registry.
   */
  lemma {:induction false} EarlierBitsStable(dict: map<string, seq<Def>>, n: nat, assign: string, node: NodeId, a: string, j: nat)
    requires AllBelow(dict, n) && j < n
    ensures j in TargetBits(Registered(dict, assign, Def(n, node)), a) <==> j in TargetBits(dict, a)
  {
    RegisteredBits(dict, n, assign, node);
  }

  /** Listing a target that was never assigned adds nothing to `get_def_bitmask`. */
  lemma {:induction false} UnassignedContributeNothing(dict: map<string, seq<Def>>, vars: set<string>)
    ensures DefBitmask(dict, vars) == DefBitmask(dict, vars * dict.Keys)
  {
    forall k | k in DefBitmask(dict, vars) ensures k in DefBitmask(dict, vars * dict.Keys) {
      var a :| a in vars && k in TargetBits(dict, a);
      assert a in dict.Keys;
    }
  }

  /** `get_def_bitmask` distributes over a union of variable sets. */
  lemma {:induction false} DefBitmaskUnion(dict: map<string, seq<Def>>, v1: set<string>, v2: set<string>)
    ensures DefBitmask(dict, v1 + v2) == DefBitmask(dict, v1) + DefBitmask(dict, v2)
  {
  }

  lemma {:induction false} DefBitmaskSingle(dict: map<string, seq<Def>>, a: string)
    ensures DefBitmask(dict, {a}) == TargetBits(dict, a)
  {
  }

  lemma {:induction false} DefBitmaskBelow(dict: map<string, seq<Def>>, n: nat, vars: set<string>)
    requires AllBelow(dict, n)
    ensures DefBitmask(dict, vars) <= Below(n)
  {
    forall k | k in DefBitmask(dict, vars) ensures k < n {
      var a :| a in vars && k in TargetBits(dict, a);
      TargetBitsBelow(dict, n, a);
    }
  }

  /** The registry: `defs_dict`, `defs_list` and `next_bit`. */
  class DefinitionRegister {
    var defsDict: map<string, seq<Def>>
    var defsList: seq<NodeId>
    var nextBit: nat

    /** `defs_list[i]` is the node registered with bit `1 << i`; see ValidState. */
    ghost predicate Valid()
      reads this
    {
      ValidState(defsDict, defsList, nextBit)
    }

    constructor ()
      ensures Valid()
      ensures defsDict == map[] && defsList == [] && nextBit == 0
    {
      defsDict := map[];
      defsList := [];
      nextBit := 0;
    }

    /** add_to_defs: append `data` to the target's list and return that list. */
    method AddToDefs(assign: string, data: Def) returns (d: seq<Def>)
      modifies this`defsDict
      ensures defsDict == Registered(old(defsDict), assign, data)
      ensures d == defsDict[assign]
    {
      if assign !in defsDict {
        defsDict := defsDict[assign := []];
      }
      defsDict := defsDict[assign := defsDict[assign] + [data]];
      d := defsDict[assign];
    }

    /**
     * get_gen_kill: hand out the next bit for `node`, which defines `assign`.
     * The kill mask holds the bits of every earlier definition of the same
     * target and never the node's own bit.
     */
    method GetGenKill(node: NodeId, assign: string) returns (gen: Mask, kill: Mask)
      requires Valid()
      modifies this
      ensures Valid()
      ensures gen == Bit(old(nextBit)) && nextBit == old(nextBit) + 1
      ensures defsList == old(defsList) + [node]
      ensures defsDict == Registered(old(defsDict), assign, Def(old(nextBit), node))
      ensures kill == TargetBits(old(defsDict), assign)
      ensures kill * gen == {}
      ensures kill == TargetBits(defsDict, assign) - gen
    {
      var genBit := nextBit;
      gen := Bit(genBit);
      defsList := defsList + [node];
      var d := AddToDefs(assign, Def(genBit, node));
      kill := BitsOf(d);
      kill := kill - gen;
      RegisteredBits(old(defsDict), genBit, assign, node);
      RegisterKeepsValid(old(defsDict), old(defsList), genBit, assign, node);
      nextBit := nextBit + 1;
    }

    /** get_def_int: the node registered with bit `1 << i`. */
    function GetDefInt(i: nat): (n: NodeId)
      requires i < |defsList|
      reads this
      ensures Valid() ==> forall a, j :: a in defsDict && 0 <= j < |defsDict[a]| && defsDict[a][j].bit == i ==>
        n == defsDict[a][j].node
    {
      defsList[i]
    }

    /** get_def_bitmask: OR together the gen bits of the listed targets. */
    method GetDefBitmask(assignVars: set<string>) returns (bitmask: Mask)
      requires Valid()
      ensures bitmask == DefBitmask(defsDict, assignVars)
      ensures bitmask <= Below(nextBit)
    {
      var dict := defsDict;
      bitmask := {};
      var rest := assignVars;
      while rest != {}
        invariant rest <= assignVars
        invariant bitmask == DefBitmask(dict, assignVars - rest)
        decreases |rest|
      {
        var assign :| assign in rest;
        ghost var done := assignVars - rest;
        rest := rest - {assign};
        assert assignVars - rest == done + {assign};
        DefBitmaskStep(dict, done, assign);
        if assign in dict {
          var bits := OrBits(dict[assign]);
          bitmask := bitmask + bits;
        } else {
          assert TargetBits(dict, assign) == {};
        }
      }
      assert assignVars - rest == assignVars;
      DefBitmaskBelow(dict, nextBit, assignVars);
    }

    /** reset: forget every definition; run before every graph build. */
    method Reset()
      modifies this
      ensures Valid()
      ensures defsDict == map[] && defsList == [] && nextBit == 0
    {
      defsDict := map[];
      defsList := [];
      nextBit := 0;
    }
  }
}
