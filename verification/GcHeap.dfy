// The heap of the compiled runtime as the collector sees it: headers at
// addresses, values that point at payloads, and reachability through the edges
// that marking follows (runtime/sage_runtime.h, runtime/sage_runtime.c).
module GcHeap {
  type Addr = nat

  const HEADER: nat := 16

  datatype Tag =
    | TInt | TFloat | TBool | TNil | TString | TArray | TDict | TTuple | TFunction
    | TInstance | TClass | TException | TBytes | TPointer | TClib

  /** A value: its type and the word stored with it.  For heap types the word is a
      payload address, or 0 for NULL. */
  datatype Val = Val(tag: Tag, word: nat)

  /** A dict slot; a cleared key leaves the old value behind. */
  datatype Slot = Slot(used: bool, val: Val)

  /** The part of a payload that holds values.  `cls` and `env` are raw pointers. */
  datatype Body =
    | Plain
    | Elems(elems: seq<Val>)
    | Slots(slots: seq<Slot>)
    | Fields(cls: nat, fields: seq<Val>)
    | Captures(captures: seq<Val>, env: nat)

  datatype Hdr = Hdr(tag: Tag, marked: bool, size: nat, next: Addr, body: Body)

  type Mem = map<Addr, Hdr>

  function Payload(a: Addr): nat { a + HEADER }

  /** The types whose values a collection has to follow: every type of block but the class.
      (Classes are looked at separately.) */
  predicate Followed(t: Tag) {
    !t.TInt? && !t.TFloat? && !t.TBool? && !t.TNil? && !t.TClass? && !t.TPointer? && !t.TClib?
  }

  /** The header a value points to, if it is to be followed. */
  function Target(v: Val): set<Addr> {
    if Followed(v.tag) && v.word >= HEADER then {v.word - HEADER} else {}
  }

  function Targets(vs: seq<Val>): set<Addr> {
    set v, a | v in vs && a in Target(v) :: a
  }

  function Occupied(slots: seq<Slot>): seq<Val> {
    if slots == [] then []
    else if slots[0].used then [slots[0].val] + Occupied(slots[1..])
    else Occupied(slots[1..])
  }

  /** All values in a payload, whatever the header says. */
  function Contents(body: Body): seq<Val> {
    match body
    case Plain => []
    case Elems(elems) => elems
    case Slots(slots) => Occupied(slots)
    case Fields(_, fields) => fields
    case Captures(captures, _) => captures
  }

  /** The header says what kind of payload there is, once it has been filled in. */
  predicate BodyFits(t: Tag, body: Body) {
    match body
    case Plain => true
    case Elems(_) => t == TArray || t == TTuple
    case Slots(_) => t == TDict
    case Fields(_, _) => t == TInstance
    case Captures(_, _) => t == TFunction
  }

  function Kids(g: Mem, a: Addr): set<Addr>
    requires a in g
  {
    Targets(Contents(g[a].body))
  }

  /** A value is NULL, not to be followed, or points at an object of its own type. */
  predicate Sound(g: Mem, v: Val) {
    Followed(v.tag) && v.word != 0 ==>
      v.word >= HEADER && v.word - HEADER in g && g[v.word - HEADER].tag == v.tag
  }

  /** Headers and payloads fit, and no value in a payload leads to freed memory. */
  predicate NoDangling(g: Mem) {
    && (forall a | a in g :: BodyFits(g[a].tag, g[a].body))
    && (forall a, v | a in g && v in Contents(g[a].body) :: Sound(g, v))
  }

  /** Equal up to mark bits. */
  predicate SameShape(g: Mem, m: Mem) {
    g.Keys == m.Keys && forall a | a in g :: m[a].(marked := g[a].marked) == g[a]
  }

  function Marked(m: Mem): set<Addr> { set a | a in m && m[a].marked }

  // ---------- reachability ----------

  predicate IsPath(g: Mem, p: seq<Addr>) {
    && p != []
    && (forall i | 0 <= i < |p| :: p[i] in g)
    && (forall i | 0 <= i < |p| - 1 :: p[i + 1] in Kids(g, p[i]))
  }

  ghost predicate Reaches(g: Mem, roots: set<Addr>, a: Addr) {
    exists p :: IsPath(g, p) && p[0] in roots && p[|p| - 1] == a
  }

  /** A set of objects with all the objects they point to. */
  predicate Closed(g: Mem, s: set<Addr>) {
    s <= g.Keys && forall a | a in s :: Kids(g, a) <= s
  }

  lemma {:induction false} PathStays(g: Mem, s: set<Addr>, p: seq<Addr>)
    requires Closed(g, s) && IsPath(g, p) && p[0] in s
    ensures p[|p| - 1] in s
    decreases |p|
  {
    if |p| > 1 {
      assert p[1] in Kids(g, p[0]);
      var q := p[1..];
      assert forall i | 0 <= i < |q| - 1 :: q[i + 1] in Kids(g, q[i]) by {
        forall i | 0 <= i < |q| - 1 ensures q[i + 1] in Kids(g, q[i]) {
          assert p[(i + 1) + 1] in Kids(g, p[i + 1]);
        }
      }
      PathStays(g, s, q);
    }
  }

  lemma ReachExtend(g: Mem, a: Addr, b: Addr, c: Addr)
    requires a in g && b in Kids(g, a) && Reaches(g, {b}, c)
    ensures Reaches(g, {a}, c)
  {
    var p :| IsPath(g, p) && p[0] in {b} && p[|p| - 1] == c;
    var q := [a] + p;
    forall i | 0 <= i < |q| - 1
      ensures q[i + 1] in Kids(g, q[i])
    {
      if i > 0 {
        assert p[(i - 1) + 1] in Kids(g, p[i - 1]);
      }
    }
    assert IsPath(g, q);
  }

  // ---------- what a marking step achieves ----------

  /** From the marks of `m0` to those of `m1`: the roots are marked, every newly
      marked object has all its children marked, and was reachable from the roots. */
  ghost predicate Marks(g: Mem, m0: Mem, m1: Mem, roots: set<Addr>) {
    && SameShape(g, m0) && SameShape(g, m1)
    && Marked(m0) <= Marked(m1)
    && roots <= Marked(m1)
    && (forall a | a in Marked(m1) - Marked(m0) :: Kids(g, a) <= Marked(m1))
    && (forall a | a in Marked(m1) - Marked(m0) :: Reaches(g, roots, a))
  }

  lemma ReachMore(g: Mem, r: set<Addr>, s: set<Addr>, a: Addr)
    requires r <= s && Reaches(g, r, a)
    ensures Reaches(g, s, a)
  {
    var p :| IsPath(g, p) && p[0] in r && p[|p| - 1] == a;
    assert p[0] in s;
  }

  lemma MarksThen(g: Mem, m0: Mem, m1: Mem, m2: Mem, r: set<Addr>, s: set<Addr>)
    requires Marks(g, m0, m1, r) && Marks(g, m1, m2, s)
    ensures Marks(g, m0, m2, r + s)
  {
    forall a | a in Marked(m2) - Marked(m0)
      ensures Kids(g, a) <= Marked(m2) && Reaches(g, r + s, a)
    {
      if a in Marked(m1) {
        ReachMore(g, r, r + s, a);
      } else {
        ReachMore(g, s, r + s, a);
      }
    }
  }

  /** Setting one mark and then marking its children marks the object itself. */
  lemma MarksObject(g: Mem, m0: Mem, m1: Mem, m2: Mem, a: Addr)
    requires SameShape(g, m0) && a in g && a !in Marked(m0)
    requires SameShape(g, m1) && Marked(m1) == Marked(m0) + {a}
    requires Marks(g, m1, m2, Kids(g, a))
    ensures Marks(g, m0, m2, {a})
  {
    forall b | b in Marked(m2) - Marked(m0)
      ensures Kids(g, b) <= Marked(m2) && Reaches(g, {a}, b)
    {
      if b == a {
        assert IsPath(g, [a]);
      } else {
        assert b !in Marked(m1) && Reaches(g, Kids(g, a), b);
        var p :| IsPath(g, p) && p[0] in Kids(g, a) && p[|p| - 1] == b;
        assert Reaches(g, {p[0]}, b);
        ReachExtend(g, a, p[0], b);
      }
    }
  }

  /** Marking from a clean heap marks exactly the reachable objects. */
  lemma MarksExactly(g: Mem, m0: Mem, m1: Mem, roots: set<Addr>)
    requires Marks(g, m0, m1, roots) && Marked(m0) == {}
    ensures forall a :: a in Marked(m1) <==> a in g && Reaches(g, roots, a)
  {
    assert Closed(g, Marked(m1));
    forall a | a in g && Reaches(g, roots, a)
      ensures a in Marked(m1)
    {
      var p :| IsPath(g, p) && p[0] in roots && p[|p| - 1] == a;
      PathStays(g, Marked(m1), p);
    }
  }

  // ---------- the intrusive list ----------

  /** What follows position `i` of a list that leads to `tail`. */
  function After(l: seq<Addr>, i: nat, tail: Addr): Addr {
    if i + 1 < |l| then l[i + 1] else tail
  }

  /** `l` is linked from `head` and leads to `tail`. */
  predicate IsSegment(m: Mem, head: Addr, l: seq<Addr>, tail: Addr) {
    && head == (if l == [] then tail else l[0])
    && (forall i {:trigger m[l[i]]} {:trigger l[i] in m} | 0 <= i < |l| ::
           l[i] != 0 && l[i] in m && m[l[i]].next == After(l, i, tail))
  }

  /** `l` lists the headers linked from `head`, in order. */
  predicate IsList(m: Mem, head: Addr, l: seq<Addr>) {
    IsSegment(m, head, l, 0)
  }

  function Members(l: seq<Addr>): set<Addr> { set a | a in l }

  predicate Distinct(l: seq<Addr>) {
    forall i, j | 0 <= i < j < |l| :: l[i] != l[j]
  }

  /** The addresses of `l` that are in `s`, in order. */
  function Filter(l: seq<Addr>, s: set<Addr>): (r: seq<Addr>)
    ensures forall a :: a in r <==> a in l && a in s
  {
    if l == [] then []
    else
      var r := Filter(l[..|l| - 1], s);
      if l[|l| - 1] in s then r + [l[|l| - 1]] else r
  }

  /** Bytes of the listed objects, headers included. */
  function Bytes(m: Mem, l: seq<Addr>): nat
    requires forall a | a in l :: a in m
  {
    if l == [] then 0 else Bytes(m, l[..|l| - 1]) + HEADER + m[l[|l| - 1]].size
  }

  lemma {:induction false} BytesSame(m: Mem, n: Mem, l: seq<Addr>)
    requires forall a | a in l :: a in m && a in n && m[a].size == n[a].size
    ensures Bytes(m, l) == Bytes(n, l)
  {
    if l != [] {
      BytesSame(m, n, l[..|l| - 1]);
    }
  }

  lemma {:induction false} BytesConcat(m: Mem, k: seq<Addr>, l: seq<Addr>)
    requires forall a | a in k + l :: a in m
    ensures forall a | a in k :: a in m
    ensures forall a | a in l :: a in m
    ensures Bytes(m, k + l) == Bytes(m, k) + Bytes(m, l)
    decreases |l|
  {
    forall a | a in k ensures a in m { assert a in k + l; }
    forall a | a in l ensures a in m { assert a in k + l; }
    if l == [] {
      assert k + l == k;
    } else {
      assert (k + l)[..|k + l| - 1] == k + l[..|l| - 1];
      BytesConcat(m, k, l[..|l| - 1]);
    }
  }

  lemma {:induction false} FilterDistinct(l: seq<Addr>, s: set<Addr>)
    requires Distinct(l)
    ensures Distinct(Filter(l, s))
  {
    if l != [] {
      FilterDistinct(l[..|l| - 1], s);
    }
  }
}
