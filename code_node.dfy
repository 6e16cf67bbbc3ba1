/**
 * The statement node of the control-flow graph (code_node.py): its taint
 * status, its location, the variables, functions and constants its statement
 * mentions, and its reaching-definitions masks.
 */
module CodeNodes {
  import opened Wrappers
  import opened Masks
  import opened DefinitionRegistry

  /** The `Tainted` enum. */
  datatype Taint = Tainted | NotTainted | MaybeTainted | MaybeTaintedTracked

  /** The enum's integer values. */
  function EnumValue(t: Taint): int {
    match t
    case Tainted => 1
    case NotTainted => 0
    case MaybeTainted => -1
    case MaybeTaintedTracked => -2
  }

  /** `bool(t.value)`: only NOT_TAINTED, whose value is 0, is false. */
  function AsBool(t: Taint): (b: bool)
    ensures b <==> t != NotTainted
  {
    EnumValue(t) != 0
  }

  /** The two statuses `is_tainted` leaves a node in. */
  predicate Settled(t: Taint) {
    t == Tainted || t == NotTainted
  }

  /** A `(file, line)` pair of the line map; `(None, None)` is entry 0. */
  datatype Loc = Loc(file: Option<string>, line: Option<int>)

  /** The location `("", -1)` of the joining `empty` nodes. */
  const EmptyLoc: Loc := Loc(Some(""), Some(-1))

  /**
   * A CodeNode. `vars`, `funcs` and `consts` are the statement's tracked
   * names; `isCall` says the node type was set to FunctionCall.
   */
  datatype CodeNode = CodeNode(
    loc: Loc, stmt: string, text: string,
    vars: set<string>, funcs: set<string>, consts: set<string>,
    tainted: Taint,
    inset: Mask, gen: Mask, kill: Mask, outset: Mask,
    isCall: bool)

  /**
   * The constructor. A node with an assigned target takes a fresh gen bit and
   * its kill mask from the registry and starts with OUT = gen; a node without
   * one leaves the registry alone and has empty gen, kill and OUT. `handle`
   * is the handle the node gets when it is added to the graph, which is what
   * the registry records for the new bit.
   */
  method NewCodeNode(reg: DefinitionRegister, handle: NodeId, loc: Loc, stmt: string, text: string,
                     assign: Option<string>, tainted: Taint) returns (cn: CodeNode)
    requires reg.Valid()
    modifies reg
    ensures reg.Valid()
    ensures cn.loc == loc && cn.stmt == stmt && cn.text == text && cn.tainted == tainted
    ensures cn.vars == {} && cn.funcs == {} && cn.consts == {} && cn.inset == {} && !cn.isCall
    ensures assign.None? ==>
      cn.gen == {} && cn.kill == {} && cn.outset == {} &&
      reg.defsDict == old(reg.defsDict) && reg.defsList == old(reg.defsList) && reg.nextBit == old(reg.nextBit)
    ensures assign.Some? ==>
      cn.gen == Bit(old(reg.nextBit)) && cn.outset == cn.gen &&
      cn.kill == TargetBits(old(reg.defsDict), assign.value) &&
      reg.nextBit == old(reg.nextBit) + 1 && reg.defsList == old(reg.defsList) + [handle] &&
      reg.defsDict == Registered(old(reg.defsDict), assign.value, Def(old(reg.nextBit), handle))
  {
    var gen: Mask := {};
    var kill: Mask := {};
    if assign.Some? {
      gen, kill := reg.GetGenKill(handle, assign.value);
    }
    cn := CodeNode(loc, stmt, text, {}, {}, {}, tainted, {}, gen, kill, gen, false);
  }

  /**
   * The nodes `cn` depends on: the registered owners of the bits of
   * `IN & get_def_bitmask(vars)`. The bound on `k` always holds for a valid
   * registry and only keeps the function total.
   */
  function NodeDeps(dict: map<string, seq<Def>>, list: seq<NodeId>, cn: CodeNode): set<NodeId> {
    set k | k in cn.inset * DefBitmask(dict, cn.vars) && k < |list| :: list[k]
  }

  /**
   * calculate_use_defs: the definitions reaching the node that define a
   * variable the statement reads.
   */
  method CalculateUseDefs(reg: DefinitionRegister, cn: CodeNode) returns (m: Mask)
    requires reg.Valid()
    ensures forall k :: k in m <==> k in cn.inset && exists a :: a in cn.vars && k in TargetBits(reg.defsDict, a)
    ensures m <= Below(reg.nextBit)
  {
    var bitmask := reg.GetDefBitmask(cn.vars);
    m := cn.inset * bitmask;
  }

  /** The registered owners of the bits of `b` below position `i`. */
  function OwnersBelow(b: Mask, list: seq<NodeId>, i: nat): set<NodeId>
    requires b <= Below(|list|)
  {
    set k | k in b && k < i :: list[k]
  }

  lemma {:induction false} OwnersStep(b: Mask, list: seq<NodeId>, i: nat)
    requires b <= Below(|list|)
    ensures OwnersBelow(b, list, i + 1) == OwnersBelow(b, list, i) + (if i in b then {list[i]} else {})
  {
  }

  lemma {:induction false} OwnersAll(b: Mask, list: seq<NodeId>, i: nat)
    requires b <= Below(|list|) && forall j :: j in b ==> j < i
    ensures OwnersBelow(b, list, i) == set k | k in b :: list[k]
  {
  }

  /**
   * get_node_deps: walk the bit positions while `1 << i <= bitmask` and
   * collect the registered node of every set bit.
   */
  method GetNodeDeps(reg: DefinitionRegister, cn: CodeNode) returns (deps: set<NodeId>)
    requires reg.Valid()
    ensures deps == NodeDeps(reg.defsDict, reg.defsList, cn)
    ensures forall d :: d in deps <==>
      exists k :: k in cn.inset && k < |reg.defsList| && reg.defsList[k] == d &&
                  exists a :: a in cn.vars && k in TargetBits(reg.defsDict, a)
  {
    var bitmask := CalculateUseDefs(reg, cn);
    var list := reg.defsList;
    deps := {};
    var i := 0;
    while exists j | j in bitmask :: j >= i
      invariant bitmask <= Below(|list|)
      invariant deps == OwnersBelow(bitmask, list, i)
      decreases Top(bitmask) - i
    {
      assert Pow2(i) <= Value(bitmask) by { GuardMeansBitAtOrAbove(bitmask, i); }
      OwnersStep(bitmask, list, i);
      if i in bitmask {
        deps := deps + {reg.GetDefInt(i)};
      }
      i := i + 1;
    }
    assert Value(bitmask) < Pow2(i) by { GuardMeansBitAtOrAbove(bitmask, i); }
    OwnersAll(bitmask, list, i);
    DepsMeaning(reg.defsDict, list, cn, bitmask);
  }

  lemma {:induction false} DepsMeaning(dict: map<string, seq<Def>>, list: seq<NodeId>, cn: CodeNode, b: Mask)
    requires b <= Below(|list|)
    requires forall k :: k in b <==> k in cn.inset && exists a :: a in cn.vars && k in TargetBits(dict, a)
    ensures (set k | k in b :: list[k]) == NodeDeps(dict, list, cn)
    ensures forall d :: d in NodeDeps(dict, list, cn) <==>
      exists k :: k in cn.inset && k < |list| && list[k] == d &&
                  exists a :: a in cn.vars && k in TargetBits(dict, a)
  {
  }
}
