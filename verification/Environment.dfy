// Scopes of the interpreter: a linked list of bindings, and for some scopes a hash
// index beside it (src/env.c).
module Environment {
  import opened Common
  import opened Values

  const MAP_THRESHOLD: nat := 8

  datatype Node = Node(name: string, value: Value, isConst: bool)

  /** The bindings of one scope, newest first. */
  type Nodes = seq<Node>

  // ---------- one scope ----------

  /** Where the list search stops. */
  function FindNode(ns: Nodes, name: string): (r: Option<nat>)
    ensures r.Some? ==> r.value < |ns| && ns[r.value].name == name
    ensures r.None? ==> forall i | 0 <= i < |ns| :: ns[i].name != name
  {
    if ns == [] then None
    else if ns[0].name == name then Some(0)
    else
      var r := FindNode(ns[1..], name);
      if r.None? then None else Some(r.value + 1)
  }

  predicate UniqueNames(ns: Nodes) {
    forall i, j | 0 <= i < j < |ns| :: ns[i].name != ns[j].name
  }

  /** An existing binding keeps its place and its mutability. */
  function Defined(ns: Nodes, name: string, v: Value, isConst: bool): Nodes {
    var i := FindNode(ns, name);
    if i.Some? then ns[i.value := ns[i.value].(value := v)] else [Node(name, v, isConst)] + ns
  }

  function ValueIn(ns: Nodes, name: string): Option<Value> {
    var i := FindNode(ns, name);
    if i.None? then None else Some(ns[i.value].value)
  }

  /** The index holds exactly the bindings of the list. */
  ghost predicate Agrees(m: map<string, Value>, ns: Nodes) {
    forall x :: (x in m <==> ValueIn(ns, x).Some?) && (x in m ==> ValueIn(ns, x) == Some(m[x]))
  }

  lemma {:induction false} FindUnique(ns: Nodes, i: nat)
    requires UniqueNames(ns) && i < |ns|
    ensures FindNode(ns, ns[i].name) == Some(i)
  {
    if i > 0 {
      FindUnique(ns[1..], i - 1);
    }
  }

  lemma {:induction false} FindReplaced(ns: Nodes, i: nat, v: Value, x: string)
    requires i < |ns|
    ensures FindNode(ns[i := ns[i].(value := v)], x) == FindNode(ns, x)
  {
    var ns' := ns[i := ns[i].(value := v)];
    if i == 0 {
      assert ns'[1..] == ns[1..];
    } else {
      FindReplaced(ns[1..], i - 1, v, x);
      assert ns'[1..] == ns[1..][i - 1 := ns[i].(value := v)];
    }
  }

  /** The same bindings in the same order, and the same of them constant. */
  predicate SamePlaces(ns: Nodes, ns': Nodes) {
    |ns'| == |ns| && forall i | 0 <= i < |ns| :: ns'[i].name == ns[i].name && ns'[i].isConst == ns[i].isConst
  }

  lemma DefinedNodes(ns: Nodes, name: string, v: Value, isConst: bool)
    requires UniqueNames(ns)
    ensures UniqueNames(Defined(ns, name, v, isConst))
    ensures forall x :: ValueIn(Defined(ns, name, v, isConst), x) == if x == name then Some(v) else ValueIn(ns, x)
    ensures if ValueIn(ns, name).Some? then SamePlaces(ns, Defined(ns, name, v, isConst))
            else Defined(ns, name, v, isConst) == [Node(name, v, isConst)] + ns
  {
    var i, ns' := FindNode(ns, name), Defined(ns, name, v, isConst);
    forall x
      ensures ValueIn(ns', x) == if x == name then Some(v) else ValueIn(ns, x)
    {
      if i.Some? {
        FindReplaced(ns, i.value, v, x);
      } else {
        assert ns'[1..] == ns;
      }
    }
  }

  lemma AgreesSet(m: map<string, Value>, ns: Nodes, name: string, v: Value, isConst: bool)
    requires UniqueNames(ns) && Agrees(m, ns)
    ensures Agrees(m[name := v], Defined(ns, name, v, isConst))
  {
    DefinedNodes(ns, name, v, isConst);
  }

  // ---------- the chain of scopes, innermost first ----------

  function ChainLookup(chain: seq<Nodes>, x: string): Option<Value> {
    if chain == [] then None
    else if ValueIn(chain[0], x).Some? then ValueIn(chain[0], x)
    else ChainLookup(chain[1..], x)
  }

  /** Assignment searches outwards and stops at the first binding, whether or not it
      may be changed. */
  function Assigned(chain: seq<Nodes>, x: string, v: Value): (seq<Nodes>, bool) {
    if chain == [] then (chain, false)
    else
      var i := FindNode(chain[0], x);
      if i.Some? then
        if chain[0][i.value].isConst then (chain, false)
        else ([chain[0][i.value := chain[0][i.value].(value := v)]] + chain[1..], true)
      else
        var r := Assigned(chain[1..], x, v);
        ([chain[0]] + r.0, r.1)
  }

  predicate AllUnique(chain: seq<Nodes>) { forall i | 0 <= i < |chain| :: UniqueNames(chain[i]) }

  /** The innermost binding of a name, if any, is constant. */
  predicate IsFixed(chain: seq<Nodes>, x: string) {
    chain != [] &&
    var i := FindNode(chain[0], x);
    if i.Some? then chain[0][i.value].isConst else IsFixed(chain[1..], x)
  }

  /** Assignment succeeds exactly when the innermost binding exists and is mutable;
      then it changes what that name means and nothing else, and otherwise it changes
      nothing. */
  lemma {:induction false} AssignedMeans(chain: seq<Nodes>, x: string, v: Value)
    requires AllUnique(chain)
    ensures var (chain', ok) := Assigned(chain, x, v);
            && |chain'| == |chain| && AllUnique(chain')
            && (ok <==> ChainLookup(chain, x).Some? && !IsFixed(chain, x))
            && (!ok ==> chain' == chain)
            && (forall i | 0 <= i < |chain| :: SamePlaces(chain[i], chain'[i]))
            && forall y :: ChainLookup(chain', y) == if ok && y == x then Some(v) else ChainLookup(chain, y)
  {
    if chain != [] {
      var ns, rest := chain[0], chain[1..];
      var (chain', ok) := Assigned(chain, x, v);
      var i := FindNode(ns, x);
      if i.Some? {
        var ns' := ns[i.value := ns[i.value].(value := v)];
        forall y ensures FindNode(ns', y) == FindNode(ns, y) { FindReplaced(ns, i.value, v, y); }
        FindUnique(ns, i.value);
        if ok {
          assert chain' == [ns'] + rest && chain'[1..] == rest;
          OthersStay(ns, i.value, v);
        }
      } else {
        AssignedMeans(rest, x, v);
        assert chain'[1..] == Assigned(rest, x, v).0;
      }
    }
  }

  lemma OthersStay(ns: Nodes, i: nat, v: Value)
    requires UniqueNames(ns) && i < |ns|
    ensures var ns' := ns[i := ns[i].(value := v)];
            && UniqueNames(ns')
            && forall y :: ValueIn(ns', y) == if y == ns[i].name then Some(v) else ValueIn(ns, y)
  {
    var ns' := ns[i := ns[i].(value := v)];
    FindUnique(ns, i);
    forall y
      ensures ValueIn(ns', y) == if y == ns[i].name then Some(v) else ValueIn(ns, y)
    {
      FindReplaced(ns, i, v, y);
    }
  }

  // ---------- the objects ----------

  class Env {
    var nodes: Nodes
    var count: nat
    var index: Option<map<string, Value>>
    const parent: Env?
    ghost const chain: set<Env>  // this scope and those around it

    ghost predicate Rooted()
      decreases chain
    {
      if parent == null then chain == {this}
      else this !in parent.chain && chain == {this} + parent.chain && parent.Rooted()
    }

    /** One scope: names are unique, and the index, if there is one, agrees with the
        list. */
    ghost predicate Ok()
      reads this
    {
      UniqueNames(nodes) && count == |nodes| && (index.Some? ==> Agrees(index.value, nodes))
    }

    ghost predicate Valid()
      requires Rooted()
      reads chain
      decreases chain
    {
      Ok() && (parent != null ==> parent.Valid())
    }

    /** The lists along the parent chain. */
    ghost function View(): (r: seq<Nodes>)
      requires Rooted()
      reads chain
      ensures r != [] && r[0] == nodes
      decreases chain
    {
      [nodes] + if parent == null then [] else parent.View()
    }

    constructor (outer: Env?)
      requires outer != null ==> outer.Rooted() && outer.Valid()
      ensures Rooted() && Valid() && parent == outer && nodes == []
      ensures View() == [[]] + if outer == null then [] else outer.View()
    {
      nodes, count, index, parent := [], 0, None, outer;
      chain := {this} + if outer == null then {} else outer.chain;
    }

    /** The list search shared by all operations. */
    method Search(name: string) returns (found: bool, i: nat)
      ensures found <==> FindNode(nodes, name).Some?
      ensures found ==> FindNode(nodes, name) == Some(i)
    {
      i := 0;
      assert nodes[0..] == nodes;
      while i < |nodes|
        invariant i <= |nodes|
        invariant FindNode(nodes, name) ==
                  var r := FindNode(nodes[i..], name); if r.None? then None else Some(r.value + i)
      {
        assert nodes[i..][1..] == nodes[i + 1..];
        if nodes[i].name == name { return true, i; }
        i := i + 1;
      }
      return false, i;
    }

    method Define(name: string, value: Value)
      requires Rooted() && Valid()
      modifies this
      ensures Rooted() && Valid()
      ensures View() == [Defined(old(nodes), name, value, false)] + old(View())[1..]
    {
      Bind(name, value, false);
    }

    /** What env_define and env_define_const have in common. */
    method Bind(name: string, value: Value, isConst: bool)
      requires Ok()
      modifies this
      ensures Ok() && nodes == Defined(old(nodes), name, value, isConst)
      ensures index.Some? <==> old(index).Some?
    {
      DefinedNodes(nodes, name, value, isConst);
      if index.Some? { AgreesSet(index.value, nodes, name, value, isConst); }
      var found, i := Search(name);
      if found {
        nodes := nodes[i := nodes[i].(value := value)];
      } else {
        nodes := [Node(name, value, isConst)] + nodes;
        count := count + 1;
      }
      if index.Some? { index := Some(index.value[name := value]); }
    }

    /** As above, but the ninth binding of a scope builds the index. */
    method DefineConst(name: string, value: Value)
      requires Rooted() && Valid()
      modifies this
      ensures Rooted() && Valid()
      ensures View() == [Defined(old(nodes), name, value, true)] + old(View())[1..]
      ensures index.Some? <==> old(index).Some? || (old(count) == 8 && count == 9)
    {
      var n := count;
      Bind(name, value, true);
      if count == n + 1 && count == MAP_THRESHOLD + 1 {
        BuildIndex();
      }
    }

    method BuildIndex()
      requires Ok()
      modifies this`index
      ensures Ok() && index.Some?
    {
      var m: map<string, Value> := map[];
      for i := 0 to |nodes|
        invariant Agrees(m, nodes[..i])
      {
        AgreesNext(m, nodes, i);
        m := m[nodes[i].name := nodes[i].value];
      }
      assert nodes[..|nodes|] == nodes;
      index := Some(m);
    }

    /** env_get: index first, then the list, then outwards. */
    method Get(name: string) returns (r: Option<Value>)
      requires Rooted() && Valid()
      ensures r == ChainLookup(View(), name)
    {
      var current: Env? := this;
      while current != null
        invariant current != null ==> current.Rooted() && current.Valid()
        invariant ChainLookup(View(), name) == if current == null then None else ChainLookup(current.View(), name)
        decreases if current == null then {} else current.chain
      {
        if current.index.Some? {
          if name in current.index.value { return Some(current.index.value[name]); }
        }
        var found, i := current.Search(name);
        if found { return Some(current.nodes[i].value); }
        current := current.parent;
      }
      return None;
    }

    /** env_get_node: the list only. */
    method GetNode(name: string) returns (owner: Env?, i: nat)
      requires Rooted() && Valid()
      ensures owner == null <==> ChainLookup(View(), name).None?
      ensures owner != null ==>
                && owner in chain && FindNode(owner.nodes, name) == Some(i)
                && ChainLookup(View(), name) == Some(owner.nodes[i].value)
    {
      owner, i := this, 0;
      while owner != null
        invariant owner != null ==> owner.Rooted() && owner.Valid() && owner in chain && owner.chain <= chain
        invariant ChainLookup(View(), name) == if owner == null then None else ChainLookup(owner.View(), name)
        decreases if owner == null then {} else owner.chain
      {
        var found: bool;
        found, i := owner.Search(name);
        if found { return; }
        owner := owner.parent;
      }
    }

    /** env_assign. */
    method Assign(name: string, value: Value) returns (ok: bool)
      requires Rooted() && Valid()
      modifies chain
      ensures Valid() && (View(), ok) == Assigned(old(View()), name, value)
      ensures forall x :: ChainLookup(View(), x) == if ok && x == name then Some(value) else ChainLookup(old(View()), x)
      decreases chain
    {
      ViewUnique();
      AssignedMeans(View(), name, value);
      var found, i := Search(name);
      hide ChainLookup, AllUnique, Agrees, UniqueNames;
      if found {
        if nodes[i].isConst { return false; }
        Overwrite(name, i, value);
        return true;
      }
      if parent == null { return false; }
      ok := parent.Assign(name, value);
    }

    /** Give a found binding another value, in the list and in the index. */
    method Overwrite(name: string, i: nat, value: Value)
      requires Ok() && FindNode(nodes, name) == Some(i)
      modifies this`nodes, this`index
      ensures Ok() && nodes == old(nodes)[i := old(nodes)[i].(value := value)]
    {
      OthersStay(nodes, i, value);
      nodes := nodes[i := nodes[i].(value := value)];
      if index.Some? { index := Some(index.value[name := value]); }
    }

    lemma ViewUnique()
      requires Rooted() && Valid()
      ensures AllUnique(View())
      decreases chain
    {
      if parent != null {
        parent.ViewUnique();
      }
    }
  }

  lemma AgreesNext(m: map<string, Value>, ns: Nodes, i: nat)
    requires i < |ns| && UniqueNames(ns) && Agrees(m, ns[..i])
    ensures Agrees(m[ns[i].name := ns[i].value], ns[..i + 1])
  {
    forall x
      ensures ValueIn(ns[..i + 1], x) == if x == ns[i].name then Some(ns[i].value) else ValueIn(ns[..i], x)
    {
      FindPrefix(ns, i, x);
    }
  }

  lemma {:induction false} FindPrefix(ns: Nodes, i: nat, x: string)
    requires i < |ns| && UniqueNames(ns)
    ensures FindNode(ns[..i + 1], x) == if x == ns[i].name then Some(i) else FindNode(ns[..i], x)
  {
    if i > 0 && ns[0].name != x {
      FindPrefix(ns[1..], i - 1, x);
      assert ns[..i + 1][1..] == ns[1..][..i] && ns[..i][1..] == ns[1..][..i - 1];
    }
  }
}
