// The mark-sweep collector of the compiled runtime (runtime/sage_runtime.c).
module Gc {
  import opened Common
  import opened GcHeap

  const MIN_BYTES: nat := 512 * 1024
  const MIN_OBJECTS: nat := 128
  const UINT32: nat := 0x1_0000_0000

  /** The cases of the marker's switch on the type of a value. */
  predicate IsHeapTag(t: Tag) {
    t.TString? || t.TArray? || t.TDict? || t.TTuple? || t.TBytes? || t.TInstance? || t.TFunction? || t.TException?
  }

  /** The values that marking recurses into, by the header's type: not the class of an
      instance, and not the environment pointer of a closure. */
  function Children(h: Hdr): seq<Val> {
    match h.tag
    case TArray => if h.body.Elems? then h.body.elems else []
    case TTuple => if h.body.Elems? then h.body.elems else []
    case TDict => if h.body.Slots? then Occupied(h.body.slots) else []
    case TInstance => if h.body.Fields? then h.body.fields else []
    case TFunction => if h.body.Captures? then h.body.captures else []
    case _ => []
  }

  class Collector {
    var mem: Mem               // allocated blocks, by header address
    var objects: Addr          // head of the list of all objects
    var bytesAlloc: nat
    var bytesFreed: nat
    var bytesLive: nat
    var objCount: nat
    var collections: nat
    var enabled: bool
    var pauseDepth: nat
    var nextGc: nat
    var nextGcObjects: nat

    ghost var list: seq<Addr>  // the objects, in list order

    /** Between collections: the heap is settled and the counters agree with it. */
    ghost predicate Valid()
      reads this
    {
      && Settled(mem, objects, list)
      && objCount == |list|
      && bytesAlloc == bytesFreed + bytesLive
      && (SettledMembers(mem, objects, list); bytesLive >= Bytes(mem, list))
      && (pauseDepth > 0 ==> !enabled)
    }

    /** The live-byte counter is exact; it drifts upwards once an object's size has
        been truncated to 32 bits. */
    ghost predicate Balanced()
      reads this
      requires Valid()
    {
      SettledMembers(mem, objects, list);
      bytesLive == Bytes(mem, list)
    }

    /** sage_rt_init: the object-count trigger is left at zero. */
    constructor Init()
      ensures Valid() && Balanced() && list == [] && enabled && nextGc == 524288 && nextGcObjects == 0
      ensures pauseDepth == 0 && collections == 0
    {
      mem, objects, list := map[], 0, [];
      bytesAlloc, bytesFreed, bytesLive, objCount := 0, 0, 0, 0;
      collections, enabled, pauseDepth := 0, true, 0;
      nextGc, nextGcObjects := MIN_BYTES, 0;
    }

    // ---------- pausing ----------

    method Pause()
      requires Valid()
      modifies this`pauseDepth, this`enabled
      ensures Valid() && pauseDepth == old(pauseDepth) + 1 && !enabled
    {
      pauseDepth := pauseDepth + 1;
      enabled := false;
    }

    /** The last resume enables the collector, even if it had been disabled. */
    method Resume()
      requires Valid()
      modifies this`pauseDepth, this`enabled
      ensures Valid() && pauseDepth == Max(old(pauseDepth) - 1, 0)
      ensures enabled <==> old(pauseDepth) <= 1
    {
      if pauseDepth > 0 { pauseDepth := pauseDepth - 1; }
      if pauseDepth == 0 { enabled := true; }
    }

    method Disable()
      requires Valid()
      modifies this`enabled
      ensures Valid() && !enabled
    {
      enabled := false;
    }

    method Enable()
      requires Valid()
      modifies this`enabled
      ensures Valid() && (enabled <==> pauseDepth == 0)
    {
      if pauseDepth == 0 { enabled := true; }
    }

    // ---------- allocation, stores and collections ----------

    /** Allocate, collecting first when a trigger fires.  Whatever the scanned words
        or the roots refer to is still there afterwards. */
    method Alloc(tag: Tag, size: nat, roots: seq<Val>, words: seq<nat>) returns (payload: nat)
      requires Valid() && forall v | v in roots :: Sound(mem, v)
      modifies this
      ensures Valid() && (old(Balanced()) && size < 0x1_0000_0000 ==> Balanced())
      ensures payload >= HEADER && list != [] && payload == Payload(list[0])
      ensures mem[list[0]].tag == tag && mem[list[0]].body == Plain
      ensures var due := old(enabled) && (old(bytesLive) > old(nextGc) || old(objCount) >= old(nextGcObjects));
              && list[1..] == (if due then Filter(old(list), Live(old(mem), roots, words)) else old(list))
              && collections == old(collections) + (if due then 1 else 0)
      ensures forall a | a in list[1..] :: a in old(mem) && SameObject(old(mem)[a], mem[a])
      ensures forall v | Sound(old(mem), v) && (v in roots || v.word in words) :: Sound(mem, v)
    {
      if enabled && (bytesLive > nextGc || objCount >= nextGcObjects) {
        Collect(roots, words);
      }
      payload := Link(tag, size);
    }

    /** Put a new header at the front of the list. */
    method Link(tag: Tag, size: nat) returns (payload: nat)
      requires Valid()
      modifies this`mem, this`objects, this`list, this`bytesAlloc, this`bytesLive, this`objCount
      ensures Valid() && (old(Balanced()) && size < 0x1_0000_0000 ==> Balanced())
      ensures payload >= HEADER && payload == Payload(objects) && list == [objects] + old(list)
      ensures objects !in old(mem) && mem[objects].tag == tag && mem[objects].body == Plain
      ensures forall a | a in old(mem) :: a in mem && mem[a] == old(mem)[a]
      ensures forall v | Sound(old(mem), v) :: Sound(mem, v)
    {
      hide Settled, Bytes, Sound;
      SettledMembers(mem, objects, list);
      var a := FreshAddress();
      var h := Hdr(tag, false, size % UINT32, objects, Plain);
      LinkFront(mem, h, a, list);
      LinkBytes(mem, h, a, list);
      mem := mem[a := h];
      objects := a;
      bytesAlloc := bytesAlloc + HEADER + size;
      bytesLive := bytesLive + HEADER + size;
      objCount := objCount + 1;
      list := [a] + list;
      payload := Payload(a);
    }

    /** Any address no block occupies. */
    method FreshAddress() returns (a: Addr)
      ensures a != 0 && a !in mem
    {
      ghost var w := AddressLeft(mem);
      assert w != 0 && w !in mem;
      a :| a != 0 && a !in mem;
    }

    /** Replace the contents of a live object by sound values. */
    method Store(a: Addr, body: Body)
      requires Valid() && a in mem && BodyFits(mem[a].tag, body) && forall v | v in Contents(body) :: Sound(mem, v)
      modifies this`mem
      ensures Valid() && (old(Balanced()) ==> Balanced())
      ensures mem == old(mem)[a := old(mem)[a].(body := body)]
      ensures forall v | Sound(old(mem), v) :: Sound(mem, v)
    {
      hide Settled, Bytes, Sound;
      ghost var m0 := mem;
      SettledMembers(mem, objects, list);
      StoreKeeps(mem, mem[a].(body := body), objects, list, a);
      mem := mem[a := mem[a].(body := body)];
      SettledMembers(mem, objects, list);
      BytesSame(m0, mem, list);
    }

    /** Mark from the registered roots and the scanned words, then sweep: the list
        becomes exactly the old objects reachable from them, in order. */
    method Collect(roots: seq<Val>, words: seq<nat>)
      requires Valid() && forall v | v in roots :: Sound(mem, v)
      modifies this
      ensures Valid() && (old(Balanced()) ==> Balanced())
      ensures enabled == old(enabled) && pauseDepth == old(pauseDepth)
      ensures !enabled ==> mem == old(mem) && list == old(list) && collections == old(collections)
      ensures enabled ==>
                && list == Filter(old(list), Live(old(mem), roots, words))
                && collections == old(collections) + 1
                && bytesFreed - old(bytesFreed) == Bytes(old(mem), old(list)) - Bytes(old(mem), list)
                && nextGc == Max(2 * bytesLive, 524288)
                && nextGcObjects == objCount + objCount / 2 + 128
      ensures forall a | a in mem :: a in old(mem) && SameObject(old(mem)[a], mem[a])
      ensures forall v | Sound(old(mem), v) && (v in roots || v.word in words) :: Sound(mem, v)
    {
      hide Settled, Sound, Filter, Live, Bytes;
      if !enabled { return; }
      Trace(roots, words);
      collections := collections + 1;
      nextGc := bytesLive * 2;
      if nextGc < MIN_BYTES { nextGc := MIN_BYTES; }
      nextGcObjects := objCount + objCount / 2 + MIN_OBJECTS;
    }

    /** Mark and sweep. */
    method Trace(roots: seq<Val>, words: seq<nat>)
      requires Valid() && forall v | v in roots :: Sound(mem, v)
      modifies this`mem, this`objects, this`list, this`bytesFreed, this`bytesLive, this`objCount
      ensures Valid() && (old(Balanced()) ==> Balanced())
      ensures list == Filter(old(list), Live(old(mem), roots, words))
      ensures bytesFreed - old(bytesFreed) == Bytes(old(mem), old(list)) - Bytes(old(mem), list)
      ensures forall a | a in mem :: a in old(mem) && SameObject(old(mem)[a], mem[a])
      ensures forall v | Sound(old(mem), v) && (v in roots || v.word in words) :: Sound(mem, v)
    {
      hide Marks, Bytes, Sound, NoDangling, Distinct, IsList, IsSegment, Filter, SameShape, Marked, Members;
      hide Live, WordTargets, Reaches, GcHeap.Targets;
      ghost var g, all := mem, list;
      SettledMembers(g, objects, all);
      MarkRoots(roots, words);
      ghost var m := mem;
      MarkedLive(g, m, roots, words);
      BytesSame(g, m, all);
      Sweep(all);
      list := Filter(all, Marked(m));
      InMembers(list);
      SurvivorsKept(g, m, mem, all, roots, words);
      KeptBytes(g, m, mem, all, list);
      NoneMarked(mem);
    }

    /** The mark phase. */
    method MarkRoots(roots: seq<Val>, words: seq<nat>)
      requires Valid() && forall v | v in roots :: Sound(mem, v)
      modifies this`mem
      ensures Marks(old(mem), old(mem), mem, GcHeap.Targets(roots) + WordTargets(old(mem), words))
      ensures IsList(mem, objects, list) && mem.Keys == Members(list)
    {
      ghost var g := mem;
      MarkAll(roots, g);
      ghost var m := mem;
      MarksShape(g, g, m, GcHeap.Targets(roots));
      ListShape(g, m, objects, list);
      ScanRange(words, g, list);
      MarksShape(g, m, mem, WordTargets(g, words));
      ListShape(m, mem, objects, list);
      MarksThen(g, g, m, mem, GcHeap.Targets(roots), WordTargets(g, words));
    }

    // ---------- marking ----------

    /** Mark what a value points to, and everything reachable from there. */
    method MarkValue(v: Val, ghost g: Mem)
      requires SameShape(g, mem) && NoDangling(g) && Sound(g, v)
      modifies this`mem
      ensures Marks(g, old(mem), mem, Target(v))
      decreases mem.Keys - Marked(mem), 1
    {
      if IsHeapTag(v.tag) && v.word != 0 {
        var h := v.word - HEADER;
        if !mem[h].marked {
          MarkObject(h, g);
        }
      }
    }

    /** Set the mark of an unmarked object and recurse into its contents. */
    method MarkObject(h: Addr, ghost g: Mem)
      requires SameShape(g, mem) && NoDangling(g) && h in mem && !mem[h].marked
      modifies this`mem
      ensures Marks(g, old(mem), mem, {h})
      decreases mem.Keys - Marked(mem), 0
    {
      ghost var m0 := mem;
      mem := mem[h := mem[h].(marked := true)];
      ghost var m1 := mem;
      assert Marked(m1) == Marked(m0) + {h};
      assert mem.Keys - Marked(m1) < m0.Keys - Marked(m0) by {
        assert h in m0.Keys - Marked(m0);
      }
      assert Children(mem[h]) == Contents(g[h].body);
      if mem[h].tag == TDict {
        MarkDict(h, g);
      } else {
        var vs := Children(mem[h]);
        MarkAll(vs, g);
      }
      MarksObject(g, m0, m1, mem, h);
    }

    method MarkAll(vs: seq<Val>, ghost g: Mem)
      requires SameShape(g, mem) && NoDangling(g) && forall v | v in vs :: Sound(g, v)
      modifies this`mem
      ensures Marks(g, old(mem), mem, GcHeap.Targets(vs))
      decreases mem.Keys - Marked(mem), 2
    {
      var i := 0;
      MarksNothing(g, mem);
      assert vs[..0] == [];
      while i < |vs|
        invariant i <= |vs| && Marks(g, old(mem), mem, GcHeap.Targets(vs[..i]))
      {
        ghost var m := mem;
        MarkValue(vs[i], g);
        MarksThen(g, old(mem), m, mem, GcHeap.Targets(vs[..i]), Target(vs[i]));
        TargetsSnoc(vs, i);
        i := i + 1;
      }
      assert vs[..i] == vs;
    }

    /** The slots of a dict: only the occupied ones are followed. */
    method MarkDict(h: Addr, ghost g: Mem)
      requires SameShape(g, mem) && NoDangling(g) && h in mem && mem[h].tag == TDict
      modifies this`mem
      ensures Marks(g, old(mem), mem, Kids(g, h))
      decreases mem.Keys - Marked(mem), 2
    {
      MarksNothing(g, mem);
      if !mem[h].body.Slots? { return; }
      var slots := mem[h].body.slots;
      assert Contents(g[h].body) == Occupied(slots);
      var i := 0;
      assert slots[..0] == [];
      while i < |slots|
        invariant i <= |slots| && Marks(g, old(mem), mem, GcHeap.Targets(Occupied(slots[..i])))
      {
        ghost var m := mem;
        OccupiedSnoc(slots, i);
        if slots[i].used {
          MarkValue(slots[i].val, g);
          MarksThen(g, old(mem), m, mem, GcHeap.Targets(Occupied(slots[..i])), Target(slots[i].val));
        }
        i := i + 1;
      }
      assert slots[..i] == slots;
    }

    /** Mark the object whose payload a scanned word may point at. */
    method MarkIfObject(cand: nat, ghost g: Mem, ghost l: seq<Addr>)
      requires SameShape(g, mem) && NoDangling(g)
      requires IsList(mem, objects, l) && Distinct(l) && mem.Keys == Members(l)
      modifies this`mem
      ensures Marks(g, old(mem), mem, WordTarget(g, cand))
    {
      hide Marks, NoDangling, Members;
      MarksNothing(g, mem);
      if cand == 0 { return; }
      var cur := objects;
      ghost var i := 0;
      assert l != [] ==> l[0] in mem;
      while cur != 0
        invariant i <= |l| && cur == (if i < |l| then l[i] else 0) && (cur != 0 <==> i < |l|)
        invariant mem == old(mem)
        invariant forall k | 0 <= k < i :: Payload(l[k]) != cand
        decreases |l| - i
      {
        if Payload(cur) == cand {
          if !mem[cur].marked {
            MarkObject(cur, g);
          } else {
            MarkedAlready(g, mem, cur);
          }
          assert WordTarget(g, cand) == {cur};
          return;
        }
        cur := mem[cur].next;
        i := i + 1;
        assert i < |l| ==> l[i] in mem;
      }
      NotListed(g, l, cand);
    }

    /** Scan words of the stack, the registers or the data segment. */
    method ScanRange(words: seq<nat>, ghost g: Mem, ghost l: seq<Addr>)
      requires SameShape(g, mem) && NoDangling(g)
      requires IsList(mem, objects, l) && Distinct(l) && mem.Keys == Members(l)
      modifies this`mem
      ensures Marks(g, old(mem), mem, WordTargets(g, words))
    {
      var i := 0;
      MarksNothing(g, mem);
      hide IsList, IsSegment, Marks, SameShape, WordTarget, WordTargets;
      WordsSnoc(g, words, 0);
      while i < |words|
        invariant i <= |words| && Marks(g, old(mem), mem, WordTargets(g, words[..i]))
        invariant IsList(mem, objects, l) && SameShape(g, mem) && mem.Keys == old(mem.Keys)
      {
        ghost var m := mem;
        MarkIfObject(words[i], g, l);
        MarksShape(g, m, mem, WordTarget(g, words[i]));
        ListShape(m, mem, objects, l);
        MarksThen(g, old(mem), m, mem, WordTargets(g, words[..i]), WordTarget(g, words[i]));
        WordsSnoc(g, words, i);
        i := i + 1;
      }
      assert words[..i] == words;
    }

    // ---------- sweeping ----------

    /** Unlink and free every unmarked object; clear the marks of the others. */
    method Sweep(ghost l: seq<Addr>)
      requires IsList(mem, objects, l) && Distinct(l) && mem.Keys == Members(l) && objCount == |l|
      requires bytesLive >= Bytes(mem, l)
      modifies this`mem, this`objects, this`bytesFreed, this`bytesLive, this`objCount
      ensures var kept := Filter(l, Marked(old(mem)));
              && IsList(mem, objects, kept) && Distinct(kept) && mem.Keys == Members(kept)
              && (forall a | a in mem :: SameObject(old(mem)[a], mem[a]) && !mem[a].marked)
              && objCount == |kept|
              && bytesFreed == old(bytesFreed) + Bytes(old(mem), l) - Bytes(old(mem), kept)
              && bytesLive == old(bytesLive) - (Bytes(old(mem), l) - Bytes(old(mem), kept))
    {
      hide Swept, Filter, Bytes, IsList, IsSegment, Distinct, Marked, Members;
      ghost var m0 := mem;
      ghost var i := 0;
      ghost var kept: seq<Addr> := [];
      var prev, cur := 0, objects;
      SweptStart(m0, l, objects);
      while cur != 0
        invariant Swept(m0, mem, l, i, kept, objects, cur) && i <= |l| && (cur != 0 <==> i < |l|)
        invariant prev == if kept == [] then 0 else kept[|kept| - 1]
        invariant Distinct(l) && (forall a | a in l :: a in m0) && (forall a | a in kept :: a in m0)
        invariant |kept| <= i && objCount == |l| - i + |kept|
        invariant Bytes(m0, l[..i]) >= Bytes(m0, kept)
        invariant bytesFreed == old(bytesFreed) + Bytes(m0, l[..i]) - Bytes(m0, kept)
        invariant bytesLive == old(bytesLive) - (Bytes(m0, l[..i]) - Bytes(m0, kept))
        invariant old(bytesLive) >= Bytes(m0, l)
        decreases |l| - i
      {
        SweptCursor(m0, mem, l, i, kept, objects, cur);
        BytesSnoc(m0, l, i, kept);
        if mem[cur].marked {
          KeepStep(m0, mem, l, i, kept, objects);
          mem := mem[cur := mem[cur].(marked := false)];
          prev := cur;
          cur := mem[cur].next;
          kept := kept + [l[i]];
        } else {
          if kept == [] {
            DropFirst(m0, mem, l, i, objects);
          } else {
            DropLater(m0, mem, l, i, kept, objects);
          }
          BytesPrefix(m0, l, i + 1);
          var dead := cur;
          if prev == 0 {
            objects := mem[cur].next;
          } else {
            mem := mem[prev := mem[prev].(next := mem[cur].next)];
          }
          cur := mem[cur].next;
          var sz := HEADER + mem[dead].size;
          bytesFreed := bytesFreed + sz;
          bytesLive := bytesLive - sz;
          objCount := objCount - 1;
          mem := mem - {dead};
        }
        i := i + 1;
      }
      SweptEnd(m0, mem, l, i, kept, objects);
    }
  }

  /** A heap between collections: every block is on the list once, no mark is set,
      and no traced edge dangles. */
  ghost predicate Settled(m: Mem, head: Addr, l: seq<Addr>) {
    && IsList(m, head, l) && Distinct(l) && m.Keys == Members(l)
    && Marked(m) == {}
    && NoDangling(m)
  }

  lemma InMembers(l: seq<Addr>)
    ensures forall a :: a in l <==> a in Members(l)
  {
  }

  lemma SettledMembers(m: Mem, head: Addr, l: seq<Addr>)
    requires Settled(m, head, l)
    ensures forall a :: a in l <==> a in m
  {
    assert forall a :: a in l <==> a in Members(l);
  }

  /** The object a word points at, if any. */
  function WordTarget(g: Mem, w: nat): set<Addr> {
    if w >= HEADER && w - HEADER in g then {w - HEADER} else {}
  }

  function WordTargets(g: Mem, words: seq<nat>): set<Addr> {
    set w, a | w in words && a in WordTarget(g, w) :: a
  }

  lemma NotListed(g: Mem, l: seq<Addr>, w: nat)
    requires g.Keys == Members(l) && forall k | 0 <= k < |l| :: Payload(l[k]) != w
    ensures WordTarget(g, w) == {}
  {
    InMembers(l);
  }

  lemma WordsSnoc(g: Mem, words: seq<nat>, i: nat)
    ensures WordTargets(g, words[..0]) == {}
    ensures i < |words| ==> WordTargets(g, words[..i + 1]) == WordTargets(g, words[..i]) + WordTarget(g, words[i])
  {
  }

  /** What a collection keeps: everything reachable from the roots and the words. */
  ghost function Live(g: Mem, roots: seq<Val>, words: seq<nat>): set<Addr> {
    set a | a in g && Reaches(g, GcHeap.Targets(roots) + WordTargets(g, words), a)
  }

  lemma MarksShape(g: Mem, m: Mem, m': Mem, roots: set<Addr>)
    requires Marks(g, m, m', roots)
    ensures SameShape(g, m') && SameShape(m, m') && m'.Keys == m.Keys
  {
  }

  lemma MarksNothing(g: Mem, m: Mem)
    requires SameShape(g, m)
    ensures Marks(g, m, m, {})
  {
  }

  lemma MarkedAlready(g: Mem, m: Mem, a: Addr)
    requires SameShape(g, m) && a in m && m[a].marked
    ensures Marks(g, m, m, {a})
  {
  }

  lemma TargetsSnoc(vs: seq<Val>, i: nat)
    requires i < |vs|
    ensures GcHeap.Targets(vs[..i + 1]) == GcHeap.Targets(vs[..i]) + Target(vs[i])
  {
  }

  lemma {:induction false} OccupiedAppend(slots: seq<Slot>, x: Slot)
    ensures Occupied(slots + [x]) == Occupied(slots) + (if x.used then [x.val] else [])
  {
    if slots == [] {
      assert slots + [x] == [x] && [x][1..] == [];
    } else {
      OccupiedAppend(slots[1..], x);
      assert (slots + [x])[1..] == slots[1..] + [x];
    }
  }

  lemma OccupiedSnoc(slots: seq<Slot>, i: nat)
    requires i < |slots|
    ensures GcHeap.Targets(Occupied(slots[..i + 1])) ==
            GcHeap.Targets(Occupied(slots[..i])) + (if slots[i].used then Target(slots[i].val) else {})
    ensures slots[i].used ==> slots[i].val in Occupied(slots)
  {
    OccupiedAppend(slots[..i], slots[i]);
    assert slots[..i + 1] == slots[..i] + [slots[i]];
    OccupiedMore(slots, i + 1);
  }

  lemma {:induction false} OccupiedMore(slots: seq<Slot>, i: nat)
    requires i <= |slots|
    ensures forall v | v in Occupied(slots[..i]) :: v in Occupied(slots)
    decreases |slots| - i
  {
    if i == |slots| {
      assert slots[..i] == slots;
    } else {
      OccupiedAppend(slots[..i], slots[i]);
      assert slots[..i + 1] == slots[..i] + [slots[i]];
      OccupiedMore(slots, i + 1);
    }
  }

  lemma ListShape(g: Mem, m: Mem, head: Addr, l: seq<Addr>)
    requires SameShape(g, m) && IsList(g, head, l)
    ensures IsList(m, head, l)
  {
  }

  // ---------- steps of the sweep ----------

  /** The same object, whatever its link and its mark. */
  predicate SameObject(h: Hdr, h': Hdr) {
    h'.(next := h.next, marked := h.marked) == h
  }

  /** From position `i` on, nothing has changed yet. */
  predicate Untouched(m0: Mem, m: Mem, l: seq<Addr>, i: nat) {
    forall k | i <= k < |l| :: l[k] in m0 && l[k] in m && m[l[k]] == m0[l[k]]
  }

  /** The survivors are the old objects with their marks cleared. */
  predicate Survive(m0: Mem, m: Mem, kept: seq<Addr>) {
    forall a | a in kept :: a in m0 && a in m && SameObject(m0[a], m[a]) && !m[a].marked
  }

  /** The first `i` objects of `l` have been swept: `kept` survived. */
  ghost predicate Swept(m0: Mem, m: Mem, l: seq<Addr>, i: nat, kept: seq<Addr>, head: Addr, cur: Addr) {
    && i <= |l| && (forall a | a in l :: a in m0)
    && kept == Filter(l[..i], Marked(m0))
    && IsSegment(m0, cur, l[i..], 0)
    && IsSegment(m, head, kept, cur)
    && m.Keys == Members(kept) + Members(l[i..])
    && Untouched(m0, m, l, i)
    && Survive(m0, m, kept)
  }

  lemma SweptStart(m: Mem, l: seq<Addr>, head: Addr)
    requires IsList(m, head, l) && m.Keys == Members(l)
    ensures Swept(m, m, l, 0, [], head, head) && (head != 0 <==> 0 < |l|)
    ensures Bytes(m, l[..0]) == 0 == Bytes(m, []) && forall a | a in l :: a in m
  {
    assert l[..0] == [] && l[0..] == l;
  }

  lemma SweptCursor(m0: Mem, m: Mem, l: seq<Addr>, i: nat, kept: seq<Addr>, head: Addr, cur: Addr)
    requires Swept(m0, m, l, i, kept, head, cur) && i < |l|
    ensures cur == l[i] && cur != 0 && cur in m && cur in m0 && m[cur] == m0[cur] && cur in l
    ensures i + 1 < |l| ==> m[cur].next == l[i + 1] && l[i + 1] != 0
    ensures i + 1 == |l| ==> m[cur].next == 0
    ensures kept != [] ==> kept[|kept| - 1] in m
  {
    var rest := l[i..];
    assert rest[0] == l[i] && |rest| == |l| - i;
    if i + 1 < |l| {
      assert rest[1] == l[i + 1] && rest[1] != 0;
    }
  }

  lemma SweptEnd(m0: Mem, m: Mem, l: seq<Addr>, i: nat, kept: seq<Addr>, head: Addr)
    requires Swept(m0, m, l, i, kept, head, 0) && i == |l| && Distinct(l)
    ensures kept == Filter(l, Marked(m0)) && l[..i] == l
    ensures IsList(m, head, kept) && Distinct(kept) && m.Keys == Members(kept)
    ensures forall a | a in m :: a in m0 && SameObject(m0[a], m[a]) && !m[a].marked
  {
    assert l[..i] == l && l[i..] == [];
    FilterDistinct(l, Marked(m0));
  }

  lemma SegmentRest(m: Mem, l: seq<Addr>, i: nat)
    requires i < |l| && IsSegment(m, l[i], l[i..], 0)
    ensures IsSegment(m, m[l[i]].next, l[i + 1..], 0)
  {
    var here, rest := l[i..], l[i + 1..];
    assert here[0] == l[i] && rest == here[1..];
    forall k | 0 <= k < |rest|
      ensures rest[k] != 0 && rest[k] in m && m[rest[k]].next == After(rest, k, 0)
    {
      assert rest[k] == here[k + 1] && here[k + 1] in m;
    }
  }

  lemma SegmentKeep(m: Mem, head: Addr, kept: seq<Addr>, x: Addr)
    requires IsSegment(m, head, kept, x) && x in m && x != 0 && x !in kept
    ensures IsSegment(m[x := m[x].(marked := false)], head, kept + [x], m[x].next)
  {
    var m', all := m[x := m[x].(marked := false)], kept + [x];
    forall k | 0 <= k < |all|
      ensures all[k] != 0 && all[k] in m' && m'[all[k]].next == After(all, k, m[x].next)
    {
      if k < |kept| {
        assert all[k] == kept[k] && kept[k] != x && kept[k] in m;
      }
    }
  }

  lemma SegmentDrop(m: Mem, head: Addr, kept: seq<Addr>, x: Addr)
    requires IsSegment(m, head, kept, x) && x in m && x !in kept && Distinct(kept) && kept != []
    ensures var last := kept[|kept| - 1];
            && last in m && last != x && last != 0
            && IsSegment(m[last := m[last].(next := m[x].next)] - {x}, head, kept, m[x].next)
  {
  }

  lemma KeepStep(m0: Mem, m: Mem, l: seq<Addr>, i: nat, kept: seq<Addr>, head: Addr)
    requires i < |l| && Swept(m0, m, l, i, kept, head, l[i]) && Distinct(l) && l[i] in m && m[l[i]].marked
    requires l[i] != 0
    ensures Swept(m0, m[l[i] := m[l[i]].(marked := false)], l, i + 1, kept + [l[i]], head, m[l[i]].next)
  {
    hide Distinct, Filter, Members, IsSegment, Untouched, Survive;
    NextUp(m0, m, l, i);
    FilterSnoc(l, i, Marked(m0));
    NotYet(l, i, Marked(m0));
    SegmentKeep(m, head, kept, l[i]);
    MembersSnoc(kept, l[i]);
    KeepSame(m0, m, l, i, kept);
    hide Marked;
  }

  lemma KeepSame(m0: Mem, m: Mem, l: seq<Addr>, i: nat, kept: seq<Addr>)
    requires i < |l| && l[i] in m && l[i] !in kept && l[i] !in l[i + 1..]
    requires Untouched(m0, m, l, i) && Survive(m0, m, kept)
    ensures var m' := m[l[i] := m[l[i]].(marked := false)];
            Untouched(m0, m', l, i + 1) && Survive(m0, m', kept + [l[i]])
  {
    forall k | i + 1 <= k < |l|
      ensures l[k] in l[i + 1..]
    {
      assert l[i + 1..][k - i - 1] == l[k];
    }
  }

  /** The cursor's object is as it was, and so its link leads to the rest of the list. */
  lemma NextUp(m0: Mem, m: Mem, l: seq<Addr>, i: nat)
    requires i < |l| && l[i] in m && Untouched(m0, m, l, i) && IsSegment(m0, l[i], l[i..], 0)
    ensures l[i] in m0 && m[l[i]] == m0[l[i]] && IsSegment(m0, m[l[i]].next, l[i + 1..], 0)
  {
    SegmentRest(m0, l, i);
  }

  lemma DropFirst(m0: Mem, m: Mem, l: seq<Addr>, i: nat, head: Addr)
    requires i < |l| && Swept(m0, m, l, i, [], head, l[i]) && Distinct(l) && l[i] in m && !m[l[i]].marked
    ensures Swept(m0, m - {l[i]}, l, i + 1, [], m[l[i]].next, m[l[i]].next)
  {
    hide Distinct, Filter, Members, Untouched, Survive;
    NextUp(m0, m, l, i);
    FilterSnoc(l, i, Marked(m0));
    NotYet(l, i, Marked(m0));
    DropFirstSame(m0, m, l, i);
    hide Marked;
  }

  lemma DropFirstSame(m0: Mem, m: Mem, l: seq<Addr>, i: nat)
    requires i < |l| && l[i] !in l[i + 1..] && Untouched(m0, m, l, i)
    requires m.Keys == Members([]) + Members(l[i..]) && Members(l[i..]) == {l[i]} + Members(l[i + 1..])
    ensures Untouched(m0, m - {l[i]}, l, i + 1) && Survive(m0, m - {l[i]}, [])
    ensures (m - {l[i]}).Keys == Members([]) + Members(l[i + 1..])
  {
    forall k | i + 1 <= k < |l|
      ensures l[k] in l[i + 1..]
    {
      assert l[i + 1..][k - i - 1] == l[k];
    }
    assert Members([]) == {};
    assert (m - {l[i]}).Keys == m.Keys - {l[i]};
  }

  lemma DropLater(m0: Mem, m: Mem, l: seq<Addr>, i: nat, kept: seq<Addr>, head: Addr)
    requires i < |l| && Swept(m0, m, l, i, kept, head, l[i]) && Distinct(l) && l[i] in m && !m[l[i]].marked
    requires kept != []
    ensures var last := kept[|kept| - 1];
            && last in m && last != l[i] && last != 0
            && Swept(m0, m[last := m[last].(next := m[l[i]].next)] - {l[i]}, l, i + 1, kept, head, m[l[i]].next)
  {
    hide Distinct, Filter, Members, IsSegment, Untouched, Survive;
    NextUp(m0, m, l, i);
    FilterSnoc(l, i, Marked(m0));
    NotYet(l, i, Marked(m0));
    KeptDistinct(l, i, Marked(m0));
    SegmentDrop(m, head, kept, l[i]);
    DropKeys(m, l, i, kept);
    DropSame(m0, m, l, i, kept);
    hide Marked;
  }

  lemma DropKeys(m: Mem, l: seq<Addr>, i: nat, kept: seq<Addr>)
    requires i < |l| && m.Keys == Members(kept) + Members(l[i..]) && kept != [] && l[i] in m
    requires l[i] !in kept && Members(l[i..]) == {l[i]} + Members(l[i + 1..]) && l[i] !in l[i + 1..]
    ensures var last := kept[|kept| - 1];
            last in m
            && (m[last := m[last].(next := m[l[i]].next)] - {l[i]}).Keys == Members(kept) + Members(l[i + 1..])
  {
    var last := kept[|kept| - 1];
    assert last in Members(kept);
    var h := m[last].(next := m[l[i]].next);
    assert m[last := h].Keys == m.Keys;
    assert (m[last := h] - {l[i]}).Keys == m.Keys - {l[i]};
    assert m.Keys - {l[i]} == Members(kept) + Members(l[i + 1..]);
  }

  lemma DropSame(m0: Mem, m: Mem, l: seq<Addr>, i: nat, kept: seq<Addr>)
    requires i < |l| && l[i] in m && kept != [] && kept[|kept| - 1] in m && l[i] !in kept && l[i] !in l[i + 1..]
    requires forall a | a in kept :: a !in l[i..]
    requires Untouched(m0, m, l, i) && Survive(m0, m, kept)
    ensures var last := kept[|kept| - 1];
            var m' := m[last := m[last].(next := m[l[i]].next)] - {l[i]};
            Untouched(m0, m', l, i + 1) && Survive(m0, m', kept)
  {
    forall k | i + 1 <= k < |l|
      ensures l[k] in l[i..] && l[k] in l[i + 1..]
    {
      assert l[i..][k - i] == l[k] && l[i + 1..][k - i - 1] == l[k];
    }
  }

  lemma KeptDistinct(l: seq<Addr>, i: nat, s: set<Addr>)
    requires Distinct(l) && i <= |l|
    ensures Distinct(Filter(l[..i], s))
  {
    FilterDistinct(l[..i], s);
  }

  lemma MembersSnoc(l: seq<Addr>, x: Addr)
    ensures Members(l + [x]) == Members(l) + {x}
  {
  }

  lemma FilterSnoc(l: seq<Addr>, i: nat, s: set<Addr>)
    requires i < |l|
    ensures Filter(l[..i + 1], s) == if l[i] in s then Filter(l[..i], s) + [l[i]] else Filter(l[..i], s)
  {
    assert l[..i + 1][..i] == l[..i];
  }

  lemma BytesSnoc(m: Mem, l: seq<Addr>, i: nat, f: seq<Addr>)
    requires i < |l| && (forall a | a in l :: a in m) && forall a | a in f :: a in m
    ensures Bytes(m, l[..i + 1]) == Bytes(m, l[..i]) + HEADER + m[l[i]].size
    ensures Bytes(m, f + [l[i]]) == Bytes(m, f) + HEADER + m[l[i]].size
  {
    assert l[..i + 1][..i] == l[..i];
    assert (f + [l[i]])[..|f|] == f;
  }

  /** The object under the cursor is neither among the survivors nor later in the list. */
  lemma NotYet(l: seq<Addr>, i: nat, s: set<Addr>)
    requires i < |l| && Distinct(l)
    ensures l[i] !in Filter(l[..i], s) && l[i] !in l[i + 1..]
    ensures forall a | a in Filter(l[..i], s) :: a !in l[i..]
    ensures Members(l[i..]) == {l[i]} + Members(l[i + 1..])
  {
    assert l[i..] == [l[i]] + l[i + 1..];
  }

  /** The first `i` objects take no more than all of them. */
  lemma {:induction false} BytesPrefix(m: Mem, l: seq<Addr>, i: nat)
    requires i <= |l| && forall a | a in l :: a in m
    ensures Bytes(m, l[..i]) <= Bytes(m, l)
    decreases |l| - i
  {
    if i == |l| {
      assert l[..i] == l;
    } else {
      BytesSnoc(m, l, i, []);
      BytesPrefix(m, l, i + 1);
    }
  }

  // ---------- what the operations keep ----------

  lemma KeptBytes(g: Mem, m: Mem, m': Mem, all: seq<Addr>, l: seq<Addr>)
    requires forall a | a in all :: a in g && a in m && m[a].size == g[a].size
    requires forall a | a in l :: a in all
    requires m'.Keys == Members(l) && forall a | a in m' :: a in m && SameObject(m[a], m'[a])
    ensures forall a | a in l :: a in m' && a in m
    ensures Bytes(m, l) == Bytes(g, l) == Bytes(m', l)
  {
    assert forall a :: a in l <==> a in Members(l);
    BytesSame(g, m, l);
    BytesSame(g, m', l);
  }

  lemma NoneMarked(m: Mem)
    requires forall a | a in m :: !m[a].marked
    ensures Marked(m) == {}
  {
  }

  /** After the mark phase the marks are on exactly the live objects. */
  lemma MarkedLive(g: Mem, m: Mem, roots: seq<Val>, words: seq<nat>)
    requires Marked(g) == {} && Marks(g, g, m, GcHeap.Targets(roots) + WordTargets(g, words))
    ensures SameShape(g, m) && Marked(m) == Live(g, roots, words)
    ensures forall a :: (a in g <==> a in m) && (a in g ==> m[a].size == g[a].size)
  {
    MarksExactly(g, g, m, GcHeap.Targets(roots) + WordTargets(g, words));
    assert forall a :: a in Marked(m) <==> a in Live(g, roots, words);
  }

  /** A swept heap has no dangling edge, and still has whatever was referred to. */
  lemma SurvivorsKept(g: Mem, m: Mem, m': Mem, l: seq<Addr>, roots: seq<Val>, words: seq<nat>)
    requires NoDangling(g) && SameShape(g, m) && g.Keys == Members(l) && Marked(m) == Live(g, roots, words)
    requires m'.Keys == Members(Filter(l, Marked(m)))
    requires forall a | a in m' :: a in m && SameObject(m[a], m'[a])
    ensures NoDangling(m')
    ensures forall a | a in m' :: a in g && SameObject(g[a], m'[a])
    ensures forall v | Sound(g, v) && (v in roots || v.word in words) :: Sound(m', v)
  {
    assert m'.Keys == Live(g, roots, words);
    assert forall a | a in m' :: a in g && SameObject(g[a], m'[a]);
    hide Marked, SameShape, Filter, Members, Live;
    LiveSound(g, m', roots, words);
  }

  lemma LiveSound(g: Mem, m: Mem, roots: seq<Val>, words: seq<nat>)
    requires NoDangling(g) && m.Keys == Live(g, roots, words)
    requires forall a | a in m :: a in g && SameObject(g[a], m[a])
    ensures NoDangling(m)
    ensures forall v | Sound(g, v) && (v in roots || v.word in words) :: Sound(m, v)
  {
    var starts := GcHeap.Targets(roots) + WordTargets(g, words);
    assert forall a :: a in m <==> a in g && Reaches(g, starts, a);
    hide Live, Reaches;
    forall a, v | a in m && v in Contents(m[a].body)
      ensures Sound(m, v)
    {
      assert m[a].body == g[a].body && m[a].tag == g[a].tag;
      assert Sound(g, v);
      if Followed(v.tag) && v.word != 0 {
        ReachNext(g, starts, a, v);
      }
    }
    forall v | Sound(g, v) && (v in roots || v.word in words)
      ensures Sound(m, v)
    {
      if Followed(v.tag) && v.word != 0 {
        StartReached(g, starts, v.word - HEADER) by {
          assert v.word - HEADER in Target(v) && v.word - HEADER in WordTarget(g, v.word);
        }
      }
    }
  }

  lemma StartReached(g: Mem, starts: set<Addr>, a: Addr)
    requires a in g && a in starts
    ensures Reaches(g, starts, a)
  {
    assert IsPath(g, [a]);
  }

  lemma ReachNext(g: Mem, starts: set<Addr>, a: Addr, v: Val)
    requires a in g && Reaches(g, starts, a) && v in Contents(g[a].body)
    requires Sound(g, v) && Followed(v.tag) && v.word != 0
    ensures Reaches(g, starts, v.word - HEADER)
  {
    var b := v.word - HEADER;
    var p :| IsPath(g, p) && p[0] in starts && p[|p| - 1] == a;
    var q := p + [b];
    assert b in Target(v) && b in Kids(g, a);
    forall i | 0 <= i < |q| - 1
      ensures q[i + 1] in Kids(g, q[i])
    {
      if i + 1 < |p| {
        assert p[i + 1] in Kids(g, p[i]);
      }
    }
    assert IsPath(g, q);
  }

  lemma {:induction false} LargestAddress(s: set<Addr>) returns (top: Addr)
    ensures forall a | a in s :: a <= top
  {
    if s == {} {
      top := 0;
    } else {
      var x :| x in s;
      var rest := LargestAddress(s - {x});
      top := Max(x, rest);
      forall a | a in s ensures a <= top {
        assert a == x || a in s - {x};
      }
    }
  }

  lemma AddressLeft(m: Mem) returns (w: Addr)
    ensures w != 0 && w !in m
  {
    w := LargestAddress(m.Keys);
    w := w + 1;
  }

  lemma LinkFront(m: Mem, h: Hdr, a: Addr, l: seq<Addr>)
    requires Settled(m, h.next, l) && a != 0 && a !in m && !h.marked && h.body == Plain
    ensures Settled(m[a := h], a, [a] + l)
    ensures forall v | Sound(m, v) :: Sound(m[a := h], v)
  {
    var m' := m[a := h];
    LinkList(m, h, a, l);
    assert Marked(m') == {} by {
      assert forall b | b in m :: b !in Marked(m);
    }
    hide IsList, IsSegment, Marked;
    assert Contents(h.body) == [];
    forall b, v | b in m' && v in Contents(m'[b].body)
      ensures Sound(m', v)
    {
      assert b != a && b in m && m[b] == m'[b];
      assert Sound(m, v);
    }
  }

  lemma LinkList(m: Mem, h: Hdr, a: Addr, l: seq<Addr>)
    requires IsList(m, h.next, l) && Distinct(l) && m.Keys == Members(l) && a != 0 && a !in m
    ensures var m' := m[a := h];
            IsList(m', a, [a] + l) && Distinct([a] + l) && m'.Keys == Members([a] + l)
  {
    var m', all := m[a := h], [a] + l;
    LinkSet(a, l);
    hide Distinct, Members;
    assert m'.Keys == {a} + m.Keys;
    forall k | 0 <= k < |all|
      ensures all[k] != 0 && all[k] in m' && m'[all[k]].next == After(all, k, 0)
    {
      if k > 0 {
        assert all[k] == l[k - 1] && l[k - 1] in m && After(all, k, 0) == After(l, k - 1, 0);
      }
    }
  }

  lemma LinkSet(a: Addr, l: seq<Addr>)
    requires Distinct(l) && a !in Members(l)
    ensures a !in l && Members([a] + l) == {a} + Members(l) && Distinct([a] + l)
  {
  }

  lemma LinkBytes(m: Mem, h: Hdr, a: Addr, l: seq<Addr>)
    requires a !in m && forall b | b in l :: b in m
    ensures forall b | b in [a] + l :: b in m[a := h]
    ensures Bytes(m[a := h], [a] + l) == Bytes(m, l) + HEADER + h.size
  {
    var m' := m[a := h];
    BytesConcat(m', [a], l);
    BytesSame(m, m', l);
    assert Bytes(m', [a]) == HEADER + h.size by {
      assert [a][..0] == [];
    }
  }

  lemma StoreKeeps(m: Mem, h: Hdr, head: Addr, l: seq<Addr>, a: Addr)
    requires Settled(m, head, l) && a in m && h == m[a].(body := h.body)
    requires BodyFits(h.tag, h.body) && forall v | v in Contents(h.body) :: Sound(m, v)
    ensures Settled(m[a := h], head, l)
    ensures forall v | Sound(m, v) :: Sound(m[a := h], v)
    ensures forall b | b in m :: m[a := h][b].size == m[b].size
  {
    var m' := m[a := h];
    StoreList(m, h, head, l, a);
    assert m'.Keys == m.Keys;
    hide IsList, Marked, Distinct, Members, Contents, BodyFits;
    forall v | Sound(m, v)
      ensures Sound(m', v)
    {
    }
    forall b, v | b in m' && v in Contents(m'[b].body)
      ensures Sound(m', v)
    {
      assert Sound(m, v);
    }
  }

  lemma StoreList(m: Mem, h: Hdr, head: Addr, l: seq<Addr>, a: Addr)
    requires IsList(m, head, l) && a in m && h == m[a].(body := h.body)
    ensures IsList(m[a := h], head, l) && Marked(m[a := h]) == Marked(m)
  {
    var m' := m[a := h];
    forall b | b in m
      ensures b in m' && m'[b].next == m[b].next && m'[b].marked == m[b].marked
    {
    }
    assert forall i | 0 <= i < |l| :: l[i] in m' && m'[l[i]].next == m[l[i]].next;
    assert Marked(m') == Marked(m);
  }

  // ---------- what marking does not follow ----------

  /** Whatever value is in a live object, the block it points at is live too, unless it is
      a class. */
  lemma HeldIsLive(g: Mem, roots: seq<Val>, words: seq<nat>, a: Addr, v: Val, b: Addr)
    requires NoDangling(g) && a in Live(g, roots, words) && v in Contents(g[a].body)
    requires b in g && v.word == Payload(b) && v.tag == g[b].tag && v.tag in BLOCK_TYPES
    ensures b in Live(g, roots, words)
  {
    assert b in Target(v);
    KidReached(g, Starts(g, roots, words), a, b);
  }

  const BLOCK_TYPES: set<Tag> := {TString, TArray, TDict, TTuple, TBytes, TInstance, TFunction, TException}

  /** The class pointer of an instance and the environment of a closure are not
      traced: changing them changes nothing about what a collection keeps. */
  lemma RawPointersIgnored(g: Mem, a: Addr, p: nat, roots: seq<Val>, words: seq<nat>)
    requires a in g && (g[a].body.Fields? || g[a].body.Captures?)
    ensures var body := if g[a].body.Fields? then g[a].body.(cls := p) else g[a].body.(env := p);
            Live(g[a := g[a].(body := body)], roots, words) == Live(g, roots, words)
  {
    var body := if g[a].body.Fields? then g[a].body.(cls := p) else g[a].body.(env := p);
    var g' := g[a := g[a].(body := body)];
    var starts := GcHeap.Targets(roots) + WordTargets(g, words);
    assert forall w :: WordTarget(g', w) == WordTarget(g, w);
    assert WordTargets(g', words) == WordTargets(g, words);
    forall b | b in g
      ensures Reaches(g', starts, b) <==> Reaches(g, starts, b)
    {
      SamePaths(g, g', starts, b);
      SamePaths(g', g, starts, b);
    }
  }

  lemma SamePaths(g: Mem, g': Mem, starts: set<Addr>, b: Addr)
    requires g.Keys == g'.Keys && forall a | a in g :: Contents(g[a].body) == Contents(g'[a].body)
    ensures Reaches(g, starts, b) ==> Reaches(g', starts, b)
  {
    if Reaches(g, starts, b) {
      var p :| IsPath(g, p) && p[0] in starts && p[|p| - 1] == b;
      assert IsPath(g', p);
    }
  }

  /** Class objects are collected blocks, but no value leads the marker to one: a class
      survives exactly if some scanned word is its payload address, whatever instances
      of it survive. */
  lemma ClassSurvivesIff(g: Mem, c: Addr, roots: seq<Val>, words: seq<nat>)
    requires NoDangling(g) && (forall v | v in roots :: Sound(g, v)) && c in g && g[c].tag == TClass
    ensures c in Live(g, roots, words) <==> Payload(c) in words
  {
    var starts := GcHeap.Targets(roots) + WordTargets(g, words);
    if Payload(c) in words {
      assert c in WordTarget(g, Payload(c));
      StartReached(g, starts, c);
    }
    if c in Live(g, roots, words) {
      var p :| IsPath(g, p) && p[0] in starts && p[|p| - 1] == c;
      if |p| > 1 {
        var k := |p| - 2;
        assert p[k + 1] in Kids(g, p[k]);
        NoValueOf(g, Contents(g[p[k]].body), c);
      }
      NoValueOf(g, roots, c);
      assert c in WordTargets(g, words);
    }
  }

  lemma NoValueOf(g: Mem, vs: seq<Val>, c: Addr)
    requires (forall v | v in vs :: Sound(g, v)) && c in g && g[c].tag == TClass
    ensures c !in GcHeap.Targets(vs)
  {
  }

  /** So an instance on the stack does not keep its class: a collection of the heap
      below frees the class that the surviving instance still points to. */
  lemma ClassNotKept()
    ensures var g: Mem := map[32 := Hdr(TInstance, false, 32, 64, Fields(80, [])),
                              64 := Hdr(TClass, false, 56, 0, Plain)];
            && IsList(g, 32, [32, 64]) && NoDangling(g) && g[32].body.cls == Payload(64)
            && Live(g, [], [Payload(32)]) == {32}
  {
    var g: Mem := map[32 := Hdr(TInstance, false, 32, 64, Fields(80, [])),
                      64 := Hdr(TClass, false, 56, 0, Plain)];
    var starts := GcHeap.Targets([]) + WordTargets(g, [Payload(32)]);
    assert Contents(g[32].body) == [] && Contents(g[64].body) == [];
    assert Payload(32) in [Payload(32)] && 32 in WordTarget(g, Payload(32));
    StartReached(g, starts, 32);
    ClassSurvivesIff(g, 64, [], [Payload(32)]);
  }

  /** The environments that compiled code builds: memory from malloc, by address, and the
      values captured in it. */
  type Envs = map<nat, seq<Val>>

  /** The classes that values point at. */
  function ClassesIn(g: Mem, vs: seq<Val>): set<Addr> {
    set b, v | b in g && v in vs && v.tag == TClass && v.word == Payload(b) :: b
  }

  /** The other blocks that a program gets to from an object: a class that a value in it
      is, the class of an instance, and what is captured in the environment of a closure. */
  function Untraced(g: Mem, envs: Envs, a: Addr): set<Addr>
    requires a in g
  {
    var body := g[a].body;
    ClassesIn(g, Contents(body)) +
    if body.Fields? then set b | b in g && Payload(b) == body.cls
    else if body.Captures? && body.env in envs then set b | b in g && b in GcHeap.Targets(envs[body.env])
    else {}
  }

  predicate IsUse(g: Mem, envs: Envs, p: seq<Addr>) {
    && p != []
    && (forall i | 0 <= i < |p| :: p[i] in g)
    && (forall i | 0 <= i < |p| - 1 :: p[i + 1] in Kids(g, p[i]) || p[i + 1] in Untraced(g, envs, p[i]))
  }

  ghost predicate Usable(g: Mem, envs: Envs, starts: set<Addr>, a: Addr) {
    exists p :: IsUse(g, envs, p) && p[0] in starts && p[|p| - 1] == a
  }

  ghost function Starts(g: Mem, roots: seq<Val>, words: seq<nat>): set<Addr> {
    GcHeap.Targets(roots) + WordTargets(g, words)
  }

  /** What the program has at hand, classes included. */
  ghost function AtHand(g: Mem, roots: seq<Val>, words: seq<nat>): set<Addr> {
    Starts(g, roots, words) + ClassesIn(g, roots)
  }

  /** A collection frees nothing that the program can still get to if and only if every
      class that a root, a value in a live object or a live instance refers to, and every
      block captured in the environment of a live closure, is reached in some other way. */
  lemma NothingLostIff(g: Mem, envs: Envs, roots: seq<Val>, words: seq<nat>)
    requires NoDangling(g)
    ensures var live := Live(g, roots, words);
            (forall a | Usable(g, envs, AtHand(g, roots, words), a) :: a in live)
            <==> ClassesIn(g, roots) <= live && forall a | a in live :: Untraced(g, envs, a) <= live
  {
    var live, starts := Live(g, roots, words), Starts(g, roots, words);
    if forall a | Usable(g, envs, AtHand(g, roots, words), a) :: a in live {
      forall b | b in ClassesIn(g, roots)
        ensures b in live
      {
        assert IsUse(g, envs, [b]) && [b][0] in AtHand(g, roots, words);
        assert Usable(g, envs, AtHand(g, roots, words), b);
      }
      forall a, b | a in live && b in Untraced(g, envs, a)
        ensures b in live
      {
        OneFurther(g, envs, starts, a, b);
        MoreAtHand(g, envs, starts, AtHand(g, roots, words), b);
      }
    }
    if ClassesIn(g, roots) <= live && forall a | a in live :: Untraced(g, envs, a) <= live {
      forall a | Usable(g, envs, AtHand(g, roots, words), a)
        ensures a in live
      {
        var p :| IsUse(g, envs, p) && p[0] in AtHand(g, roots, words) && p[|p| - 1] == a;
        if p[0] in starts { StartReached(g, starts, p[0]); }
        UseStays(g, envs, roots, words, p);
      }
    }
  }

  lemma MoreAtHand(g: Mem, envs: Envs, some: set<Addr>, more: set<Addr>, a: Addr)
    requires some <= more && Usable(g, envs, some, a)
    ensures Usable(g, envs, more, a)
  {
    var p :| IsUse(g, envs, p) && p[0] in some && p[|p| - 1] == a;
    assert p[0] in more;
  }

  lemma OneFurther(g: Mem, envs: Envs, starts: set<Addr>, a: Addr, b: Addr)
    requires a in g && Reaches(g, starts, a) && b in Untraced(g, envs, a)
    ensures Usable(g, envs, starts, b)
  {
    var p :| IsPath(g, p) && p[0] in starts && p[|p| - 1] == a;
    var q := p + [b];
    forall i | 0 <= i < |q| - 1
      ensures q[i + 1] in Kids(g, q[i]) || q[i + 1] in Untraced(g, envs, q[i])
    {
      if i < |p| - 1 {
        assert p[i + 1] in Kids(g, p[i]);
      }
    }
    assert IsUse(g, envs, q) && q[0] in starts && q[|q| - 1] == b;
  }

  lemma {:induction false} UseStays(g: Mem, envs: Envs, roots: seq<Val>, words: seq<nat>, p: seq<Addr>)
    requires IsUse(g, envs, p) && p[0] in Live(g, roots, words)
    requires forall a | a in Live(g, roots, words) :: Untraced(g, envs, a) <= Live(g, roots, words)
    ensures p[|p| - 1] in Live(g, roots, words)
    decreases |p|
  {
    if |p| > 1 {
      assert p[0 + 1] in Kids(g, p[0]) || p[0 + 1] in Untraced(g, envs, p[0]);
      if p[1] in Kids(g, p[0]) {
        KidReached(g, Starts(g, roots, words), p[0], p[1]);
      }
      var q := p[1..];
      forall i | 0 <= i < |q| - 1
        ensures q[i + 1] in Kids(g, q[i]) || q[i + 1] in Untraced(g, envs, q[i])
      {
        assert p[(i + 1) + 1] in Kids(g, p[i + 1]) || p[(i + 1) + 1] in Untraced(g, envs, p[i + 1]);
      }
      UseStays(g, envs, roots, words, q);
    }
  }

  lemma KidReached(g: Mem, starts: set<Addr>, a: Addr, b: Addr)
    requires a in g && b in g && Reaches(g, starts, a) && b in Kids(g, a)
    ensures Reaches(g, starts, b)
  {
    var p :| IsPath(g, p) && p[0] in starts && p[|p| - 1] == a;
    var q := p + [b];
    forall i | 0 <= i < |q| - 1
      ensures q[i + 1] in Kids(g, q[i])
    {
      if i < |p| - 1 {
        assert p[i + 1] in Kids(g, p[i]);
      }
    }
    assert IsPath(g, q) && q[0] in starts && q[|q| - 1] == b;
  }

  /** A closure on the stack with an array in its environment: the collection keeps the
      closure and frees the array. */
  lemma CaptureNotKept()
    ensures var g: Mem := map[32 := Hdr(TFunction, false, 32, 64, Captures([], 500)),
                              64 := Hdr(TArray, false, 24, 0, Elems([]))];
            var envs := map[500 := [Val(TArray, Payload(64))]];
            && IsList(g, 32, [32, 64]) && NoDangling(g) && 64 in Untraced(g, envs, 32)
            && Live(g, [], [Payload(32)]) == {32}
  {
    var g: Mem := map[32 := Hdr(TFunction, false, 32, 64, Captures([], 500)),
                      64 := Hdr(TArray, false, 24, 0, Elems([]))];
    var starts := GcHeap.Targets([]) + WordTargets(g, [Payload(32)]);
    assert Contents(g[32].body) == [] && Contents(g[64].body) == [];
    assert Val(TArray, Payload(64)) in [Val(TArray, Payload(64))] && 64 in Target(Val(TArray, Payload(64)));
    assert Payload(32) in [Payload(32)] && 32 in WordTarget(g, Payload(32));
    StartReached(g, starts, 32);
    assert starts == {32};
    OnlyItself(g, 32);
  }

  lemma OnlyItself(g: Mem, a: Addr)
    requires a in g && Kids(g, a) == {}
    ensures forall b | Reaches(g, {a}, b) :: b == a
  {
    forall b | Reaches(g, {a}, b)
      ensures b == a
    {
      var p :| IsPath(g, p) && p[0] in {a} && p[|p| - 1] == b;
      assert Closed(g, {a});
      PathStays(g, {a}, p);
    }
  }
}
