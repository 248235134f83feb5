/**
 * sasl's syntax-tree builder combinators: small objects that build a syntax
 * tree one call at a time. Each combinator holds the node it is building (its
 * current node) and a stack of sub-states; entering a child combinator pushes a
 * state, and when the child has ended the parent pops that state and attaches
 * what the child built.
 *
 * Nodes are shared between combinators (the program's declaration list and the
 * variable combinator hold the same declaration), so they live in one
 * `NodeStore` and are addressed by `NodeId`: updating a node through one
 * combinator is seen by every holder of its id.
 */
module SyntaxTree {
  import opened Wrappers

  type NodeId = nat

  /** The literal kinds of constants. */
  datatype LiteralConstantType = Boolean | Integer | Real

  /**
   * The literal kind of each built-in scalar type code: code 0 (bool) is a
   * boolean literal, codes 1 to 8 (the signed and unsigned integers) integer
   * literals, and codes 9 and 10 (float and double) real literals.
   */
  const TypeCodes: seq<LiteralConstantType> :=
    [Boolean, Integer, Integer, Integer, Integer, Integer, Integer, Integer, Integer, Real, Real]

  /** The literal kind the table gives type code `code`, if the table has an entry for it. */
  function TypeCodeLiteral(code: nat): (r: Option<LiteralConstantType>)
    ensures r.Some? <==> code < 11
    ensures r == Some(Boolean) <==> code == 0
    ensures r == Some(Integer) <==> 1 <= code <= 8
    ensures r == Some(Real) <==> 9 <= code <= 10
  {
    if code < |TypeCodes| then Some(TypeCodes[code]) else None
  }

  /**
   * A built-in type code. The codes of vectors and matrices are computed by
   * helpers whose definitions are not part of this model; they are kept here
   * as the terms that name them.
   */
  datatype BuildinTypeCode =
    | Scalar(code: nat)
    | VectorOf(comp: BuildinTypeCode, size: nat)
    | MatrixOf(comp: BuildinTypeCode, rows: nat, cols: nat)

  datatype TypeQualifier = NoQual | Qual(code: nat)

  /** An operator, with whether it may be used as a prefix operator. */
  datatype Operator = Operator(code: nat, isPrefix: bool)

  /** The syntax-tree nodes the combinators build; ids refer to other nodes of the store. */
  datatype Node =
    | Program(name: string, decls: seq<NodeId>)
    | VariableDeclaration(varName: Option<string>, typeInfo: Option<NodeId>)
    | BuildinType(typecode: BuildinTypeCode, qual: TypeQualifier)
    | StructType(structName: string, qual: TypeQualifier)
    | ArrayType(elemType: NodeId, arrayLens: seq<Option<NodeId>>, qual: TypeQualifier)
    | ConstantExpression(valueTok: string, ctype: LiteralConstantType)
    | VariableExpression(exprVarName: string)
    | UnaryExpression(op: Operator, expr: Option<NodeId>)
    | CastExpression(castedType: Option<NodeId>, castExpr: Option<NodeId>)
  {
    predicate IsType() {
      BuildinType? || StructType? || ArrayType?
    }

    /** The lengths of an array type, outermost dimension first; none for any other node. */
    function Lens(): seq<Option<NodeId>> {
      if ArrayType? then arrayLens else []
    }
  }

  /**
   * The array-wrapping rule, on the store `nodes` and the type `id`: the
   * length `len` is appended to the lengths of an array type; any other type
   * becomes the element type of a new array type whose only length is `len`.
   * Gives the new store and the id of the type that now stands for the whole.
   */
  function AppendLen(nodes: seq<Node>, id: NodeId, len: Option<NodeId>): (r: (seq<Node>, NodeId))
    requires id < |nodes|
    ensures r.1 < |r.0| && r.0[r.1].ArrayType? && r.0[r.1].Lens() == nodes[id].Lens() + [len]
  {
    var n := nodes[id];
    if n.ArrayType? then (nodes[id := n.(arrayLens := n.arrayLens + [len])], id)
    else (nodes + [ArrayType(id, [len], NoQual)], |nodes|)
  }

  /** `AppendLen` for each of `lens` in turn, first length first. */
  function AppendLens(nodes: seq<Node>, id: NodeId, lens: seq<Option<NodeId>>): (r: (seq<Node>, NodeId))
    requires id < |nodes|
    ensures r.1 < |r.0|
    ensures lens != [] ==> r.0[r.1].ArrayType? && r.0[r.1].Lens() == nodes[id].Lens() + lens
    decreases |lens|
  {
    if lens == [] then (nodes, id)
    else
      var (ns, a) := AppendLen(nodes, id, lens[0]);
      assert nodes[id].Lens() + [lens[0]] + lens[1..] == nodes[id].Lens() + lens;
      AppendLens(ns, a, lens[1..])
  }

  /** Lengths appended to an array type all go to that same array type, in order. */
  lemma {:induction false} LensExtendArray(nodes: seq<Node>, a: NodeId, lens: seq<Option<NodeId>>)
    requires a < |nodes| && nodes[a].ArrayType?
    ensures AppendLens(nodes, a, lens) == (nodes[a := nodes[a].(arrayLens := nodes[a].arrayLens + lens)], a)
    decreases |lens|
  {
    if lens != [] {
      var ns := nodes[a := nodes[a].(arrayLens := nodes[a].arrayLens + [lens[0]])];
      assert AppendLen(nodes, a, lens[0]) == (ns, a);
      LensExtendArray(ns, a, lens[1..]);
      assert nodes[a].arrayLens + [lens[0]] + lens[1..] == nodes[a].arrayLens + lens;
      assert ns[a := ns[a].(arrayLens := ns[a].arrayLens + lens[1..])] ==
             nodes[a := nodes[a].(arrayLens := nodes[a].arrayLens + lens)];
    } else {
      assert nodes[a].(arrayLens := nodes[a].arrayLens + lens) == nodes[a];
      assert nodes[a := nodes[a]] == nodes;
    }
  }

  /**
   * Array lengths on a type that is not an array make ONE array type, whose
   * element type is that type and whose lengths are all of them in order, not
   * nested array types; the nodes already there are left as they were.
   */
  lemma {:induction false} ArrayOfLens(nodes: seq<Node>, id: NodeId, lens: seq<Option<NodeId>>)
    requires id < |nodes| && !nodes[id].ArrayType? && lens != []
    ensures var r := AppendLens(nodes, id, lens);
      r.1 == |nodes| && r.0 == nodes + [ArrayType(id, lens, NoQual)]
  {
    var ns := nodes + [ArrayType(id, [lens[0]], NoQual)];
    LensExtendArray(ns, |nodes|, lens[1..]);
    assert [lens[0]] + lens[1..] == lens;
    assert ns[|nodes| := ArrayType(id, lens, NoQual)] == nodes + [ArrayType(id, lens, NoQual)];
  }

  /** The sub-states of a combinator: inside an array length, a type, an expression, an operand, a cast. */
  datatype State = Other | InArray | InType | InExpr | InPreExpr | InCast

  /** What a builder call did: carried on, or took the default path and changed nothing. */
  datatype Outcome = Proceed | DefaultProc

  /** Every node built so far; a node is created once and keeps its id. */
  class NodeStore {
    var nodes: seq<Node>

    constructor ()
      ensures nodes == []
    {
      nodes := [];
    }

    predicate Has(id: NodeId)
      reads this
    {
      id < |nodes|
    }

    /** Creates node `n` under a new id. */
    method Create(n: Node) returns (id: NodeId)
      modifies this`nodes
      ensures nodes == old(nodes) + [n] && id == |old(nodes)|
      ensures Has(id) && !old(Has(id))
    {
      id := |nodes|;
      nodes := nodes + [n];
    }

    /** Replaces node `id` by `n`; every holder of `id` sees `n`. */
    method Update(id: NodeId, n: Node)
      requires Has(id)
      modifies this`nodes
      ensures nodes == old(nodes)[id := n] && nodes[id] == n
      ensures forall j :: 0 <= j < |nodes| && j != id ==> nodes[j] == old(nodes[j])
    {
      nodes := nodes[id := n];
    }
  }

  // ---------------------------------------------------------------------------
  // The program combinator.

  class ProgCombinator {
    const store: NodeStore
    var curNode: Option<NodeId>
    var varComb: VarCombinator?

    /** The program node this combinator builds. */
    predicate Holds()
      reads this, store
    {
      curNode.Some? && store.Has(curNode.value) && store.nodes[curNode.value].Program?
    }

    /** Starts a program named `progName` with no declarations. */
    constructor (store: NodeStore, progName: string)
      modifies store`nodes
      ensures this.store == store && varComb == null
      ensures store.nodes == old(store.nodes) + [Program(progName, [])]
      ensures curNode == Some(|old(store.nodes)|) && Holds()
    {
      this.store := store;
      varComb := null;
      new;
      var id := store.Create(Program(progName, []));
      curNode := Some(id);
    }

    /**
     * Declares a variable named `varName`: a new declaration, with no type
     * yet, goes at the end of the program's declarations, and the variable
     * combinator returned builds it further. The earlier declarations and
     * every other node are left as they were.
     */
    method DVar(varName: string) returns (v: VarCombinator)
      requires Holds()
      modifies store`nodes, this`varComb
      ensures Holds() && curNode == old(curNode)
      ensures fresh(v) && varComb == v && v.store == store && v.states == [] && v.typeComb == null
      ensures var p, d := curNode.value, |old(store.nodes)|;
        v.curNode == Some(d) &&
        store.nodes == old(store.nodes)[p := Program(old(store.nodes[p]).name, old(store.nodes[p]).decls + [d])]
          + [VariableDeclaration(Some(varName), None)]
    {
      var p := curNode.value;
      var d := store.Create(VariableDeclaration(None, None));
      store.Update(p, store.nodes[p].(decls := store.nodes[p].decls + [d]));
      v := new VarCombinator(store);
      v.curNode := Some(d);
      varComb := v;
      v.DName(varName);
    }
  }

  // ---------------------------------------------------------------------------
  // The variable combinator.

  class VarCombinator {
    const store: NodeStore
    var curNode: Option<NodeId>
    var states: seq<State>
    var typeComb: TypeCombinator?

    /** The variable declaration this combinator builds. */
    predicate Holds()
      reads this, store
    {
      curNode.Some? && store.Has(curNode.value) && store.nodes[curNode.value].VariableDeclaration?
    }

    constructor (store: NodeStore)
      ensures this.store == store && curNode == None && states == [] && typeComb == null
    {
      this.store := store;
      curNode, states, typeComb := None, [], null;
    }

    /** Names the declaration `name`. */
    method DName(name: string)
      requires Holds()
      modifies store`nodes
      ensures Holds()
      ensures store.nodes == old(store.nodes)[curNode.value := old(store.nodes[curNode.value]).(varName := Some(name))]
    {
      store.Update(curNode.value, store.nodes[curNode.value].(varName := Some(name)));
    }

    /** Enters the declaration's type: the type combinator returned builds it, from nothing. */
    method DType() returns (t: TypeCombinator)
      modifies this`typeComb, this`states
      ensures fresh(t) && typeComb == t && t.store == store && t.Valid()
      ensures t.curNode == None && t.states == []
      ensures states == old(states) + [InType]
    {
      t := new TypeCombinator(store);
      typeComb := t;
      states := states + [InType];
    }

    /**
     * The child entered last has ended: after a type, the declaration's type
     * becomes whatever the type combinator built; after anything else this
     * takes the default path.
     */
    method ChildEnded() returns (o: Outcome)
      requires states != []
      requires states[|states| - 1] == InType ==> Holds() && typeComb != null
      modifies store`nodes, this`states
      ensures states == old(states[..|states| - 1])
      ensures old(states[|states| - 1]) == InType ==>
        o == Proceed && Holds() &&
        store.nodes == old(store.nodes)[curNode.value := old(store.nodes[curNode.value]).(typeInfo := typeComb.curNode)]
      ensures old(states[|states| - 1]) != InType ==> o == DefaultProc && store.nodes == old(store.nodes)
    {
      var s := states[|states| - 1];
      states := states[..|states| - 1];
      if s == InType {
        store.Update(curNode.value, store.nodes[curNode.value].(typeInfo := typeComb.curNode));
        o := Proceed;
      } else {
        o := DefaultProc;
      }
    }
  }

  // ---------------------------------------------------------------------------
  // The type combinator.

  class TypeCombinator {
    const store: NodeStore
    var curNode: Option<NodeId>
    var states: seq<State>
    var exprComb: ExprCombinator?

    /** An array length is entered only on an existing type, and its combinator is kept. */
    predicate Valid()
      reads this
    {
      InArray in states ==> curNode.Some? && exprComb != null
    }

    /** The type node this combinator builds, if it has one yet. */
    predicate Holds()
      reads this, store
    {
      curNode.Some? ==> store.Has(curNode.value) && store.nodes[curNode.value].IsType()
    }

    constructor (store: NodeStore)
      ensures this.store == store && curNode == None && states == [] && exprComb == null && Valid()
    {
      this.store := store;
      curNode, states, exprComb := None, [], null;
    }

    /**
     * `n` was made the type when there was none yet, and the call carried on;
     * otherwise the call took the default path and nothing changed.
     */
    twostate predicate Created(n: Node, o: Outcome)
      reads this, store
    {
      if old(curNode).Some? then
        o == DefaultProc && curNode == old(curNode) && store.nodes == old(store.nodes)
      else
        o == Proceed && curNode == Some(|old(store.nodes)|) && store.nodes == old(store.nodes) + [n]
    }

    /** Makes `n` the type, unless there is one already. */
    method CreateIfNone(n: Node) returns (o: Outcome)
      requires Valid() && Holds() && n.IsType()
      modifies store`nodes, this`curNode
      ensures Valid() && Holds() && Created(n, o)
    {
      if curNode.Some? {
        o := DefaultProc;
      } else {
        var id := store.Create(n);
        curNode := Some(id);
        o := Proceed;
      }
    }

    /** The built-in type `btc`, unless there is a type already. */
    method DBuildin(btc: BuildinTypeCode) returns (o: Outcome)
      requires Valid() && Holds()
      modifies store`nodes, this`curNode
      ensures Valid() && Holds() && Created(BuildinType(btc, NoQual), o)
    {
      o := CreateIfNone(BuildinType(btc, NoQual));
    }

    /** The vector of `size` components of `compBtc`, unless there is a type already. */
    method DVec(compBtc: BuildinTypeCode, size: nat) returns (o: Outcome)
      requires Valid() && Holds()
      modifies store`nodes, this`curNode
      ensures Valid() && Holds() && Created(BuildinType(VectorOf(compBtc, size), NoQual), o)
    {
      o := CreateIfNone(BuildinType(VectorOf(compBtc, size), NoQual));
    }

    /** The `s0` by `s1` matrix of `compBtc`, unless there is a type already. */
    method DMat(compBtc: BuildinTypeCode, s0: nat, s1: nat) returns (o: Outcome)
      requires Valid() && Holds()
      modifies store`nodes, this`curNode
      ensures Valid() && Holds() && Created(BuildinType(MatrixOf(compBtc, s0, s1), NoQual), o)
    {
      o := CreateIfNone(BuildinType(MatrixOf(compBtc, s0, s1), NoQual));
    }

    /** The struct type named `alias`, unless there is a type already. */
    method DAlias(alias: string) returns (o: Outcome)
      requires Valid() && Holds()
      modifies store`nodes, this`curNode
      ensures Valid() && Holds() && Created(StructType(alias, NoQual), o)
    {
      o := CreateIfNone(StructType(alias, NoQual));
    }

    /**
     * Qualifies the type with `qual`: only when there is a type and it has no
     * qualifier yet, so a qualifier, once set, is never replaced.
     */
    method DTypeQual(qual: TypeQualifier) returns (o: Outcome)
      requires Valid() && Holds()
      modifies store`nodes
      ensures Valid() && Holds()
      ensures old(curNode.None? || store.nodes[curNode.value].qual != NoQual) ==>
        o == DefaultProc && store.nodes == old(store.nodes)
      ensures old(curNode.Some? && store.nodes[curNode.value].qual == NoQual) ==>
        o == Proceed && store.nodes == old(store.nodes)[curNode.value := old(store.nodes[curNode.value]).(qual := qual)]
    {
      if curNode.None? || store.nodes[curNode.value].qual != NoQual {
        o := DefaultProc;
      } else {
        store.Update(curNode.value, store.nodes[curNode.value].(qual := qual));
        o := Proceed;
      }
    }

    /**
     * Enters an array length on the existing type: the expression combinator
     * returned builds the length. With no type yet it takes the default path.
     */
    method DArray() returns (o: Outcome, e: ExprCombinator?)
      requires Valid()
      modifies this`states, this`exprComb
      ensures Valid()
      ensures old(curNode).None? ==> o == DefaultProc && e == null && states == old(states) && exprComb == old(exprComb)
      ensures old(curNode).Some? ==>
        o == Proceed && e != null && fresh(e) && exprComb == e && e.store == store &&
        e.curNode == None && e.states == [] && e.exprComb == null && e.castComb == null &&
        states == old(states) + [InArray]
    {
      if curNode.None? {
        o, e := DefaultProc, null;
      } else {
        states := states + [InArray];
        e := new ExprCombinator(store);
        exprComb := e;
        o := Proceed;
      }
    }

    /**
     * The child entered last has ended. After an array length, the length the
     * expression combinator built is appended to the type's lengths: the
     * first length wraps the type as the element type of a new array type,
     * later ones go to that same array type. In any other state nothing happens.
     */
    method ChildEnded()
      requires Valid() && Holds()
      modifies store`nodes, this`curNode, this`states
      ensures Valid() && Holds()
      ensures old(states == [] || states[|states| - 1] != InArray) ==>
        states == old(states) && curNode == old(curNode) && store.nodes == old(store.nodes)
      ensures old(states != [] && states[|states| - 1] == InArray) ==>
        states == old(states[..|states| - 1]) &&
        curNode.Some? && (store.nodes, curNode.value) == AppendLen(old(store.nodes), old(curNode.value), old(exprComb.curNode))
    {
      if states != [] && states[|states| - 1] == InArray {
        var id, len := curNode.value, exprComb.curNode;
        var n := store.nodes[id];
        if n.ArrayType? {
          store.Update(id, n.(arrayLens := n.arrayLens + [len]));
        } else {
          var outer := store.Create(ArrayType(id, [len], NoQual));
          curNode := Some(outer);
        }
        states := states[..|states| - 1];
      }
    }
  }

  // ---------------------------------------------------------------------------
  // The expression combinator.

  class ExprCombinator {
    const store: NodeStore
    var curNode: Option<NodeId>
    var states: seq<State>
    var exprComb: ExprCombinator?
    var castComb: CastCombinator?

    /** An operand or a cast is entered only with its combinator kept. */
    predicate Valid()
      reads this
    {
      (InPreExpr in states ==> exprComb != null) &&
      (InCast in states ==> castComb != null)
    }

    constructor (store: NodeStore)
      ensures this.store == store && curNode == None && states == []
      ensures exprComb == null && castComb == null && Valid()
    {
      this.store := store;
      curNode, states, exprComb, castComb := None, [], null, null;
    }

    /** The expression becomes the constant `v` of kind `lct`. */
    method DConstant(lct: LiteralConstantType, v: string)
      modifies store`nodes, this`curNode
      ensures curNode == Some(|old(store.nodes)|)
      ensures store.nodes == old(store.nodes) + [ConstantExpression(v, lct)]
    {
      var id := store.Create(ConstantExpression(v, lct));
      curNode := Some(id);
    }

    /** The expression becomes a reference to the variable `v`. */
    method DVarExpr(v: string)
      modifies store`nodes, this`curNode
      ensures curNode == Some(|old(store.nodes)|)
      ensures store.nodes == old(store.nodes) + [VariableExpression(v)]
    {
      var id := store.Create(VariableExpression(v));
      curNode := Some(id);
    }

    /**
     * Starts the prefix expression `op`, with no operand yet, on an empty
     * combinator and enters its operand: the expression combinator returned
     * builds it.
     */
    method DPre(op: Operator) returns (e: ExprCombinator)
      requires Valid() && op.isPrefix && curNode.None?
      modifies store`nodes, this`curNode, this`states, this`exprComb
      ensures Valid() && states == old(states) + [InPreExpr]
      ensures curNode == Some(|old(store.nodes)|) && store.nodes == old(store.nodes) + [UnaryExpression(op, None)]
      ensures fresh(e) && exprComb == e && e.store == store && e.curNode == None && e.states == [] && e.Valid()
    {
      states := states + [InPreExpr];
      var id := store.Create(UnaryExpression(op, None));
      curNode := Some(id);
      e := new ExprCombinator(store);
      exprComb := e;
    }

    /** Enters a cast on an empty combinator: the cast combinator returned builds it. */
    method DCast() returns (c: CastCombinator)
      requires Valid() && curNode.None?
      modifies store`nodes, this`states, this`castComb
      ensures Valid() && states == old(states) + [InCast]
      ensures fresh(c) && castComb == c && c.store == store && c.states == [] && c.Holds()
      ensures c.typeComb == null && c.exprComb == null
      ensures c.curNode == Some(|old(store.nodes)|) && store.nodes == old(store.nodes) + [CastExpression(None, None)]
    {
      states := states + [InCast];
      c := new CastCombinator(store);
      castComb := c;
    }

    /**
     * The child entered last, an operand or a cast, has ended: the operand
     * becomes the prefix expression's operand; the finished cast replaces
     * this combinator's expression.
     */
    method ChildEnded()
      requires Valid() && states != []
      requires states[|states| - 1] == InPreExpr || states[|states| - 1] == InCast
      requires states[|states| - 1] == InPreExpr ==>
        curNode.Some? && store.Has(curNode.value) && store.nodes[curNode.value].UnaryExpression?
      requires states[|states| - 1] == InCast ==> castComb != null && castComb.curNode.Some?
      modifies store`nodes, this`curNode, this`states
      ensures Valid() && states == old(states[..|states| - 1])
      ensures old(states[|states| - 1]) == InPreExpr ==>
        curNode == old(curNode) &&
        store.nodes == old(store.nodes)[curNode.value := old(store.nodes[curNode.value]).(expr := exprComb.curNode)]
      ensures old(states[|states| - 1]) == InCast ==>
        curNode == castComb.curNode && store.nodes == old(store.nodes)
    {
      var s := states[|states| - 1];
      states := states[..|states| - 1];
      if s == InPreExpr {
        store.Update(curNode.value, store.nodes[curNode.value].(expr := exprComb.curNode));
      } else {
        curNode := castComb.curNode;
      }
    }
  }

  // ---------------------------------------------------------------------------
  // The cast combinator.

  class CastCombinator {
    const store: NodeStore
    var curNode: Option<NodeId>
    var states: seq<State>
    var typeComb: TypeCombinator?
    var exprComb: ExprCombinator?

    /** The cast expression this combinator builds. */
    predicate Holds()
      reads this, store
    {
      curNode.Some? && store.Has(curNode.value) && store.nodes[curNode.value].CastExpression?
    }

    /** Starts a cast with neither its type nor its operand. */
    constructor (store: NodeStore)
      modifies store`nodes
      ensures this.store == store && states == [] && typeComb == null && exprComb == null
      ensures curNode == Some(|old(store.nodes)|) && store.nodes == old(store.nodes) + [CastExpression(None, None)]
      ensures Holds()
    {
      this.store := store;
      states, typeComb, exprComb := [], null, null;
      new;
      var id := store.Create(CastExpression(None, None));
      curNode := Some(id);
    }

    /** Enters the type cast to, once only: the type combinator returned builds it. */
    method DType() returns (t: TypeCombinator)
      requires typeComb == null
      modifies this`states, this`typeComb
      ensures states == old(states) + [InType]
      ensures fresh(t) && typeComb == t && t.store == store && t.curNode == None && t.states == [] && t.Valid()
    {
      states := states + [InType];
      t := new TypeCombinator(store);
      typeComb := t;
    }

    /** Enters the operand, once only: the expression combinator returned builds it. */
    method DExpr() returns (e: ExprCombinator)
      requires exprComb == null
      modifies this`states, this`exprComb
      ensures states == old(states) + [InExpr]
      ensures fresh(e) && exprComb == e && e.store == store && e.curNode == None && e.states == [] && e.Valid()
    {
      states := states + [InExpr];
      e := new ExprCombinator(store);
      exprComb := e;
    }

    /**
     * The child entered last, the type or the operand, has ended and built
     * its node: it becomes the cast's type or operand.
     */
    method ChildEnded()
      requires Holds() && states != []
      requires states[|states| - 1] == InType || states[|states| - 1] == InExpr
      requires states[|states| - 1] == InType ==> typeComb != null && typeComb.curNode.Some?
      requires states[|states| - 1] == InExpr ==> exprComb != null && exprComb.curNode.Some?
      modifies store`nodes, this`states
      ensures Holds() && states == old(states[..|states| - 1])
      ensures old(states[|states| - 1]) == InType ==>
        store.nodes == old(store.nodes)[curNode.value := old(store.nodes[curNode.value]).(castedType := typeComb.curNode)]
      ensures old(states[|states| - 1]) == InExpr ==>
        store.nodes == old(store.nodes)[curNode.value := old(store.nodes[curNode.value]).(castExpr := exprComb.curNode)]
    {
      var s := states[|states| - 1];
      states := states[..|states| - 1];
      if s == InType {
        store.Update(curNode.value, store.nodes[curNode.value].(castedType := typeComb.curNode));
      } else {
        store.Update(curNode.value, store.nodes[curNode.value].(castExpr := exprComb.curNode));
      }
    }
  }
}
