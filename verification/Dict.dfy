// The dict of the compiled runtime: open addressing with linear probing, cached
// hashes and doubling (runtime/sage_runtime.c).
module Dict {
  import opened Common
  import opened Values
  import Bits

  datatype Slot = Empty | Full(key: string, hash: bv32, val: Value)

  type Table = seq<Slot>

  const FNV_BASIS: bv32 := 2166136261
  const FNV_PRIME: bv32 := 16777619

  /** FNV-1a over the bytes of the key. */
  function Hash(key: string): bv32 {
    if key == "" then FNV_BASIS else Mix(Hash(key[..|key| - 1]), key[|key| - 1] as int % 256)
  }

  function Mix(h: bv32, byte: nat): bv32
    requires byte < 256
  {
    (h ^ byte as bv32) * FNV_PRIME
  }

  /** `hash & (cap - 1)`. */
  function Home(hash: bv32, cap: nat): (i: nat)
    requires cap > 0 && Bits.IsPow2(cap)
    ensures i < cap
  {
    HomeIsMod(hash as nat, cap);
    Bits.And(hash as nat, cap - 1)
  }

  /** `(idx + 1) & (cap - 1)`, which is the next slot in a ring. */
  function Next(i: nat, cap: nat): (j: nat)
    requires i < cap && Bits.IsPow2(cap)
    ensures j == if i + 1 == cap then 0 else i + 1
  {
    HomeIsMod(i + 1, cap);
    SmallMod(i + 1, cap);
    Bits.And(i + 1, cap - 1)
  }

  lemma SmallMod(a: nat, n: nat)
    requires 0 < a <= n
    ensures a % n == if a == n then 0 else a
  {
  }

  lemma HomeIsMod(a: nat, cap: nat)
    requires cap > 0 && Bits.IsPow2(cap)
    ensures Bits.And(a, cap - 1) == a % cap
  {
    var k: nat :| cap == Bits.Pow2(k);
    Bits.AndIsMod(a, k);
  }

  function Occupied(t: Table): nat {
    CountBounded(t);
    |t| - multiset(t)[Empty]
  }

  lemma CountBounded(t: Table)
    ensures multiset(t)[Empty] <= |t|
  {
    assert |multiset(t)| == |t|;
    var rest := multiset(t)[Empty := 0];
    assert |multiset(t)| == |rest| + multiset(t)[Empty];
  }

  // ---------- probing ----------

  /** Does the slot hold this key?  The C code compares hash, length and bytes. */
  predicate Holds(s: Slot, key: string) {
    s.Full? && s.hash == Hash(key) && s.key == key
  }

  /** The slots a probe visits from `i`, up to and including the one it stops at. */
  function Path(t: Table, key: string, i: nat, left: nat): seq<nat>
    requires i < |t| && Bits.IsPow2(|t|)
    decreases left
  {
    if left == 0 then []
    else if t[i].Empty? || Holds(t[i], key) then [i]
    else [i] + Path(t, key, Next(i, |t|), left - 1)
  }

  /** Where a probe from `i` finds the key, if it does. */
  function Walk(t: Table, key: string, i: nat, left: nat): (r: Option<nat>)
    requires i < |t| && Bits.IsPow2(|t|)
    ensures r.Some? ==> r.value < |t| && Holds(t[r.value], key)
    decreases left
  {
    if left == 0 || t[i].Empty? then None
    else if Holds(t[i], key) then Some(i)
    else Walk(t, key, Next(i, |t|), left - 1)
  }

  ghost predicate Shaped(t: Table) {
    |t| > 0 ==> Bits.IsPow2(|t|)
  }

  function Find(t: Table, key: string): (r: Option<nat>)
    requires Shaped(t)
    ensures r.Some? ==> r.value < |t| && Holds(t[r.value], key)
  {
    if |t| == 0 then None else Walk(t, key, Home(Hash(key), |t|), |t|)
  }

  /** The slots a lookup of the key inspects. */
  function Visited(t: Table, key: string): seq<nat>
    requires Shaped(t)
  {
    if |t| == 0 then [] else Path(t, key, Home(Hash(key), |t|), |t|)
  }

  /** The first empty slot from `i` on. */
  function FreeFrom(t: Table, i: nat, left: nat): (r: Option<nat>)
    requires i < |t| && Bits.IsPow2(|t|)
    ensures r.Some? ==> r.value < |t| && t[r.value].Empty?
    decreases left
  {
    if left == 0 then None
    else if t[i].Empty? then Some(i)
    else FreeFrom(t, Next(i, |t|), left - 1)
  }

  /** Steps from `i` to `e` around a ring of `n` slots. */
  function Distance(i: nat, e: nat, n: nat): nat
    requires i < n && e < n
  {
    if e >= i then e - i else e + n - i
  }

  // ---------- the table operations ----------

  function Place(t: Table, s: Slot): Table
    requires s.Full? && Shaped(t)
  {
    if |t| == 0 then t
    else
      var free := FreeFrom(t, Home(s.hash, |t|), |t|);
      if free.None? then t else t[free.value := s]
  }

  function Blank(n: nat): (t: Table)
    ensures |t| == n && Shaped(t) == Shaped(seq(n, i => Empty))
  {
    seq(n, i => Empty)
  }

  function NewCap(n: nat): nat { if n == 0 then 8 else 2 * n }

  /** The first `i` slots of `src`, moved over to an empty table of `cap` slots. */
  function Rehashed(src: Table, i: nat, cap: nat): (t: Table)
    requires i <= |src| && Bits.IsPow2(cap)
    ensures |t| == cap
  {
    if i == 0 then Blank(cap)
    else
      var t := Rehashed(src, i - 1, cap);
      if src[i - 1].Empty? then t else Place(t, src[i - 1])
  }

  function Grown(t: Table): (r: Table)
    requires Shaped(t)
    ensures Shaped(r) && |r| == NewCap(|t|)
  {
    CapPow2(|t|);
    Rehashed(t, |t|, NewCap(|t|))
  }

  lemma CapPow2(n: nat)
    requires n > 0 ==> Bits.IsPow2(n)
    ensures Bits.IsPow2(NewCap(n))
  {
    if n == 0 {
      assert 8 == Bits.Pow2(3);
    } else {
      var k: nat :| n == Bits.Pow2(k);
      assert NewCap(n) == Bits.Pow2(k + 1);
    }
  }

  /** The table that an assignment works on. */
  function Roomy(t: Table): (r: Table)
    requires Shaped(t)
    ensures Shaped(r)
  {
    if 2 * Occupied(t) >= |t| then Grown(t) else t
  }

  function Assigned(t: Table, key: string, val: Value): (r: Table)
    requires Shaped(t)
    ensures Shaped(r)
  {
    var t' := Roomy(t);
    var at := Find(t', key);
    if at.Some? then t'[at.value := t'[at.value].(val := val)] else Place(t', Full(key, Hash(key), val))
  }

  function Removed(t: Table, key: string): (r: Table)
    requires Shaped(t)
    ensures Shaped(r)
  {
    var at := Find(t, key);
    if at.Some? then t[at.value := Empty] else t
  }

  // ---------- invariants ----------

  /** What every operation keeps: room for every probe to end, and cached hashes. */
  ghost predicate Sane(t: Table) {
    && Shaped(t) && |t| % 2 == 0
    && 2 * Occupied(t) <= |t|
    && forall i | 0 <= i < |t| :: t[i].Full? ==> t[i].hash == Hash(t[i].key)
  }

  /** Every stored key is where a lookup finds it; so no key is stored twice. */
  ghost predicate Healthy(t: Table) {
    && Sane(t)
    && forall i | 0 <= i < |t| :: t[i].Full? ==> Find(t, t[i].key) == Some(i)
  }

  predicate DistinctKeys(t: Table) {
    forall i, j | 0 <= i < j < |t| :: t[i].Full? && t[j].Full? ==> t[i].key != t[j].key
  }

  function KeysOf(t: Table): set<string> { set s | s in t && s.Full? :: s.key }

  /** The map a healthy table stands for. */
  ghost function Contents(t: Table): map<string, Value>
    requires Healthy(t)
  {
    map k | k in KeysOf(t) :: ValueOf(t, k)
  }

  function ValueOf(t: Table, key: string): Value
    requires Shaped(t)
  {
    var at := Find(t, key);
    if at.Some? then t[at.value].val else NilV
  }

  // ---------- probes end ----------

  lemma SomeEmpty(t: Table) returns (e: nat)
    requires Occupied(t) < |t|
    ensures e < |t| && t[e].Empty?
  {
    assert Empty in multiset(t);
    assert Empty in t;
    e :| e < |t| && t[e] == Empty;
  }

  lemma {:induction false} FreeFound(t: Table, i: nat, left: nat, e: nat)
    requires i < |t| && Bits.IsPow2(|t|) && e < |t| && t[e].Empty? && left > Distance(i, e, |t|)
    ensures FreeFrom(t, i, left).Some?
    decreases left
  {
    if t[i].Full? {
      FreeFound(t, Next(i, |t|), left - 1, e);
    }
  }

  lemma FreeExists(t: Table, i: nat)
    requires i < |t| && Bits.IsPow2(|t|) && Occupied(t) < |t|
    ensures FreeFrom(t, i, |t|).Some?
  {
    var e := SomeEmpty(t);
    FreeFound(t, i, |t|, e);
  }

  // ---------- the effect of changing one slot ----------

  /** A slot that the probe does not inspect does not matter. */
  lemma {:induction false} OffPath(t: Table, key: string, i: nat, left: nat, x: nat, s: Slot)
    requires i < |t| && x < |t| && Bits.IsPow2(|t|) && x !in Path(t, key, i, left)
    ensures Walk(t[x := s], key, i, left) == Walk(t, key, i, left)
    decreases left
  {
    if left > 0 && t[i].Full? && !Holds(t[i], key) {
      OffPath(t, key, Next(i, |t|), left - 1, x, s);
    }
  }

  /** Emptying an inspected slot that holds another key ends the probe there. */
  lemma {:induction false} OnPath(t: Table, key: string, i: nat, left: nat, x: nat)
    requires i < |t| && x < |t| && Bits.IsPow2(|t|) && x in Path(t, key, i, left)
    ensures Walk(t[x := Empty], key, i, left).None?
    decreases left
  {
    if i != x {
      OnPath(t, key, Next(i, |t|), left - 1, x);
    }
  }

  /** Filling an empty slot with another key does not hide a stored one. */
  lemma {:induction false} FillKeeps(t: Table, key: string, i: nat, left: nat, x: nat, s: Slot)
    requires i < |t| && x < |t| && Bits.IsPow2(|t|) && t[x].Empty? && Walk(t, key, i, left).Some?
    ensures Walk(t[x := s], key, i, left) == Walk(t, key, i, left)
    decreases left
  {
    if !Holds(t[i], key) {
      FillKeeps(t, key, Next(i, |t|), left - 1, x, s);
    }
  }

  /** A key placed in the first empty slot of its probe is found there. */
  lemma {:induction false} FillFound(t: Table, key: string, i: nat, left: nat, s: Slot)
    requires i < |t| && Bits.IsPow2(|t|) && FreeFrom(t, i, left).Some? && Holds(s, key)
    requires Walk(t, key, i, left).None?
    ensures Walk(t[FreeFrom(t, i, left).value := s], key, i, left) == FreeFrom(t, i, left)
    decreases left
  {
    if t[i].Full? {
      FillFound(t, key, Next(i, |t|), left - 1, s);
      assert FreeFrom(t, i, left) == FreeFrom(t, Next(i, |t|), left - 1);
    }
  }

  /** Changing the value of a full slot changes no lookup. */
  lemma {:induction false} RevalueKeeps(t: Table, key: string, i: nat, left: nat, x: nat, v: Value)
    requires i < |t| && x < |t| && Bits.IsPow2(|t|) && t[x].Full?
    ensures Walk(t[x := t[x].(val := v)], key, i, left) == Walk(t, key, i, left)
    decreases left
  {
    if left > 0 && t[i].Full? && !Holds(t[i], key) {
      RevalueKeeps(t, key, Next(i, |t|), left - 1, x, v);
    }
  }

  // ---------- lookups in healthy tables ----------

  lemma FindStored(t: Table, key: string)
    requires Healthy(t)
    ensures Find(t, key).Some? <==> key in KeysOf(t)
  {
    if key in KeysOf(t) {
      var s :| s in t && s.Full? && s.key == key;
      var i :| 0 <= i < |t| && t[i] == s;
      assert Find(t, t[i].key) == Some(i);
    }
  }

  lemma FoundStored(t: Table, key: string)
    requires Shaped(t) && Find(t, key).Some?
    ensures key in KeysOf(t)
  {
    assert t[Find(t, key).value] in t;
  }

  lemma KeysFill(t: Table, x: nat, s: Slot)
    requires x < |t| && t[x].Empty? && s.Full?
    ensures KeysOf(t[x := s]) == KeysOf(t) + {s.key}
  {
    var t' := t[x := s];
    assert t'[x] in t';
    forall f | f in t
      ensures f == Empty || f in t'
    {
      var i :| 0 <= i < |t| && t[i] == f;
      assert t'[i] in t';
    }
  }

  lemma OccupiedFill(t: Table, x: nat, s: Slot)
    requires x < |t| && t[x].Empty? && s.Full?
    ensures Occupied(t[x := s]) == Occupied(t) + 1
    ensures forall f: Slot | f.Full? ::
              multiset(t[x := s])[f] == multiset(t)[f] + if f == s then 1 else 0
  {
    assert multiset(t[x := s]) == multiset(t) - multiset{t[x]} + multiset{s};
  }

  lemma OccupiedClear(t: Table, x: nat)
    requires x < |t| && t[x].Full?
    ensures Occupied(t[x := Empty]) == Occupied(t) - 1
  {
    assert multiset(t[x := Empty]) == multiset(t) - multiset{t[x]} + multiset{Empty};
  }

  lemma OccupiedSame(t: Table, x: nat, s: Slot)
    requires x < |t| && t[x].Full? && s.Full?
    ensures Occupied(t[x := s]) == Occupied(t)
  {
    assert multiset(t[x := s]) == multiset(t) - multiset{t[x]} + multiset{s};
  }

  /** Placing a slot in a table with room puts it in an empty place. */
  lemma PlaceFills(t: Table, s: Slot) returns (x: nat)
    requires Sane(t) && s.Full? && |t| > 0
    ensures x < |t| && t[x].Empty? && Place(t, s) == t[x := s]
    ensures FreeFrom(t, Home(s.hash, |t|), |t|) == Some(x)
    ensures Occupied(Place(t, s)) == Occupied(t) + 1
  {
    FreeExists(t, Home(s.hash, |t|));
    x := FreeFrom(t, Home(s.hash, |t|), |t|).value;
    OccupiedFill(t, x, s);
  }

  /** A new key becomes findable, and every other lookup stays as it was. */
  lemma PlaceFinds(t: Table, s: Slot, x: nat)
    requires Healthy(t) && s.Full? && s.hash == Hash(s.key) && |t| > 0 && s.key !in KeysOf(t)
    requires x < |t| && t[x].Empty? && FreeFrom(t, Home(s.hash, |t|), |t|) == Some(x)
    ensures Shaped(t[x := s]) && Find(t[x := s], s.key) == Some(x)
    ensures forall k | k != s.key :: Find(t[x := s], k) == Find(t, k)
  {
    var t' := t[x := s];
    FindStored(t, s.key);
    FillFound(t, s.key, Home(s.hash, |t|), |t|, s);
    forall k | k != s.key
      ensures Find(t', k) == Find(t, k)
    {
      FindStored(t, k);
      if Find(t, k).Some? {
        FillKeeps(t, k, Home(Hash(k), |t|), |t|, x, s);
      } else {
        KeysFill(t, x, s);
        if Find(t', k).Some? {
          FoundStored(t', k);
          assert false;
        }
      }
    }
  }

  lemma PlaceHealthy(t: Table, s: Slot)
    requires Healthy(t) && s.Full? && s.hash == Hash(s.key) && s.key !in KeysOf(t)
    requires 2 * (Occupied(t) + 1) <= |t|
    ensures Healthy(Place(t, s)) && Occupied(Place(t, s)) == Occupied(t) + 1
    ensures Contents(Place(t, s)) == Contents(t)[s.key := s.val]
  {
    hide Occupied, Find, Place, KeysOf, Contents, ValueOf;
    var x := PlaceFills(t, s);
    PlaceFinds(t, s, x);
    var t' := t[x := s];
    assert Shaped(t') && Sane(t');
    forall i | 0 <= i < |t'| && t'[i].Full?
      ensures Find(t', t'[i].key) == Some(i)
    {
      if i != x {
        Member(t, i);
        assert Find(t, t[i].key) == Some(i);
      }
    }
    PlaceValues(t, s, x);
    hide Healthy, Sane;
    SameFinds(t, t', s.key, s.val);
  }

  lemma Member(t: Table, i: nat)
    requires i < |t| && t[i].Full?
    ensures t[i].key in KeysOf(t)
  {
    assert t[i] in t;
  }

  lemma PlaceValues(t: Table, s: Slot, x: nat)
    requires Shaped(t) && x < |t| && t[x].Empty? && s.Full?
    requires Find(t[x := s], s.key) == Some(x)
    requires forall k | k != s.key :: Find(t[x := s], k) == Find(t, k)
    ensures ValueOf(t[x := s], s.key) == s.val
    ensures forall k | k != s.key :: ValueOf(t[x := s], k) == ValueOf(t, k)
    ensures forall k | k != s.key :: Find(t[x := s], k).Some? <==> Find(t, k).Some?
  {
    hide Find;
    var t' := t[x := s];
    forall k | k != s.key
      ensures ValueOf(t', k) == ValueOf(t, k)
    {
      assert Find(t', k) == Find(t, k) != Some(x);
    }
  }

  lemma ContentsFound(t: Table, key: string)
    requires Healthy(t)
    ensures key in Contents(t) <==> Find(t, key).Some?
    ensures key in Contents(t) ==> Contents(t)[key] == ValueOf(t, key)
  {
    FindStored(t, key);
  }

  /** Two healthy tables whose lookups differ at one key only. */
  lemma SameFinds(t: Table, t': Table, key: string, val: Value)
    requires Healthy(t) && Healthy(t')
    requires Find(t', key).Some? && ValueOf(t', key) == val
    requires forall k | k != key :: (Find(t', k).Some? <==> Find(t, k).Some?) && ValueOf(t', k) == ValueOf(t, k)
    ensures Contents(t') == Contents(t)[key := val]
  {
    hide *;
    var c, c' := Contents(t), Contents(t');
    forall k
      ensures k in c' <==> k in c || k == key
      ensures k in c' ==> c'[k] == if k == key then val else c[k]
    {
      ContentsFound(t, k);
      ContentsFound(t', k);
    }
    assert c' == c[key := val];
  }

  // ---------- doubling ----------

  ghost predicate Cached(t: Table) {
    forall i | 0 <= i < |t| :: t[i].Full? ==> t[i].hash == Hash(t[i].key)
  }

  lemma BlankSane(cap: nat)
    requires Bits.IsPow2(cap) && cap % 2 == 0
    ensures Healthy(Blank(cap)) && Occupied(Blank(cap)) == 0 && Contents(Blank(cap)) == map[]
    ensures forall f: Slot | f.Full? :: multiset(Blank(cap))[f] == 0
  {
    forall f: Slot | f.Full?
      ensures multiset(Blank(cap))[f] == 0
    {
      assert f !in Blank(cap);
    }
    BlankEmpty(cap);
    assert KeysOf(Blank(cap)) == {};
  }

  lemma {:induction false} BlankEmpty(n: nat)
    ensures multiset(Blank(n))[Empty] == n
  {
    if n > 0 {
      assert Blank(n) == Blank(n - 1) + [Empty];
      BlankEmpty(n - 1);
    } else {
      assert Blank(0) == [];
    }
  }

  lemma PrefixSplit(src: Table, i: nat)
    requires 0 < i <= |src|
    ensures Occupied(src[..i]) == Occupied(src[..i - 1]) + if src[i - 1].Full? then 1 else 0
    ensures forall f: Slot :: multiset(src[..i])[f] == multiset(src[..i - 1])[f] + if f == src[i - 1] then 1 else 0
  {
    assert src[..i] == src[..i - 1] + [src[i - 1]];
    assert multiset(src[..i]) == multiset(src[..i - 1]) + multiset{src[i - 1]};
  }

  /** Rehashing keeps every slot, as often as it occurs. */
  lemma {:induction false} RehashKeeps(src: Table, i: nat, cap: nat)
    requires i <= |src| && Bits.IsPow2(cap) && cap % 2 == 0 && 2 * Occupied(src[..i]) <= cap && cap > 0 && Cached(src)
    ensures var t := Rehashed(src, i, cap);
            && Sane(t) && Occupied(t) == Occupied(src[..i])
            && forall f: Slot | f.Full? :: multiset(t)[f] == multiset(src[..i])[f]
    decreases i
  {
    BlankSane(cap);
    if i == 0 {
      assert src[..0] == [];
    } else {
      var s := src[i - 1];
      PrefixSplit(src, i);
      RehashKeeps(src, i - 1, cap);
      var t := Rehashed(src, i - 1, cap);
      if s.Full? {
        var x := PlaceFills(t, s);
        OccupiedFill(t, x, s);
        CachedFill(t, x, s);
      }
    }
  }

  lemma CachedFill(t: Table, x: nat, s: Slot)
    requires Cached(t) && x < |t| && s.Full? && s.hash == Hash(s.key)
    ensures Cached(t[x := s])
  {
  }

  /** Rehashing distinct keys makes every one of them findable, whatever probe
      chains the source had. */
  lemma {:induction false} RehashHeals(src: Table, i: nat, cap: nat)
    requires i <= |src| && Bits.IsPow2(cap) && cap % 2 == 0 && 2 * Occupied(src[..i]) <= cap && cap > 0 && Cached(src)
    requires DistinctKeys(src)
    ensures Healthy(Rehashed(src, i, cap))
    decreases i
  {
    BlankSane(cap);
    if i > 0 {
      hide Sane, Find, Occupied, Contents, Place, Hash, KeysOf;
      var s := src[i - 1];
      PrefixSplit(src, i);
      RehashHeals(src, i - 1, cap);
      RehashKeeps(src, i - 1, cap);
      var t := Rehashed(src, i - 1, cap);
      if s.Full? {
        NotMovedYet(src, i - 1, t);
        PlaceHealthy(t, s);
      }
    }
  }

  lemma NotMovedYet(src: Table, i: nat, t: Table)
    requires i < |src| && src[i].Full? && DistinctKeys(src)
    requires forall f: Slot | f.Full? :: multiset(t)[f] == multiset(src[..i])[f]
    ensures src[i].key !in KeysOf(t)
  {
    forall f | f in t && f.Full?
      ensures f.key != src[i].key
    {
      assert multiset(t)[f] > 0;
      assert f in multiset(src[..i]);
      assert f in src[..i];
      var j :| 0 <= j < i && src[..i][j] == f;
      assert src[j] == f;
    }
  }

  /** Doubling: any sane table keeps its slots; one with distinct keys comes out
      healthy, even if removals had broken its probe chains. */
  lemma GrownKeeps(t: Table)
    requires Sane(t)
    ensures Sane(Grown(t)) && Occupied(Grown(t)) == Occupied(t) && 2 * (Occupied(t) + 1) <= |Grown(t)|
    ensures forall f: Slot | f.Full? :: multiset(Grown(t))[f] == multiset(t)[f]
    ensures DistinctKeys(t) ==> Healthy(Grown(t))
  {
    CapPow2(|t|);
    assert t[..|t|] == t;
    RehashKeeps(t, |t|, NewCap(|t|));
    if DistinctKeys(t) {
      RehashHeals(t, |t|, NewCap(|t|));
    }
  }

  lemma HealthyDistinct(t: Table)
    requires Healthy(t)
    ensures DistinctKeys(t)
  {
    forall i, j | 0 <= i < j < |t| && t[i].Full? && t[j].Full?
      ensures t[i].key != t[j].key
    {
      assert Find(t, t[i].key) == Some(i) && Find(t, t[j].key) == Some(j);
    }
  }

  /** Tables with the same slots stand for the same map. */
  lemma SameSlots(t: Table, t': Table)
    requires Healthy(t) && Healthy(t')
    requires forall f: Slot | f.Full? :: multiset(t)[f] == multiset(t')[f]
    ensures Contents(t) == Contents(t')
  {
    forall k
      ensures k in Contents(t) <==> k in Contents(t')
      ensures k in Contents(t) ==> Contents(t)[k] == Contents(t')[k]
    {
      SlotsAgree(t, t', k);
      SlotsAgree(t', t, k);
    }
  }

  lemma SlotsAgree(t: Table, t': Table, k: string)
    requires Healthy(t) && Healthy(t') && forall f: Slot | f.Full? :: multiset(t)[f] == multiset(t')[f]
    ensures k in Contents(t) ==> k in Contents(t') && Contents(t)[k] == Contents(t')[k]
  {
    ContentsFound(t, k);
    ContentsFound(t', k);
    if Find(t, k).Some? {
      var f := t[Find(t, k).value];
      assert f in multiset(t);
      assert f in multiset(t');
      assert f in t';
      var j :| 0 <= j < |t'| && t'[j] == f;
      assert Find(t', t'[j].key) == Some(j);
    }
  }

  // ---------- assignment ----------

  lemma RoomyKeeps(t: Table)
    requires Sane(t)
    ensures Sane(Roomy(t)) && Occupied(Roomy(t)) == Occupied(t) && 2 * (Occupied(t) + 1) <= |Roomy(t)|
    ensures forall f: Slot | f.Full? :: multiset(Roomy(t))[f] == multiset(t)[f]
    ensures Healthy(t) ==> Healthy(Roomy(t)) && Contents(Roomy(t)) == Contents(t)
  {
    hide *;
    GrownKeeps(t);
    RoomyIs(t);
    if Healthy(t) {
      HealthyDistinct(t);
      if Roomy(t) != t {
        SameSlots(t, Grown(t));
      }
    }
  }

  lemma RoomyIs(t: Table)
    requires Sane(t)
    ensures Shaped(t)
    ensures Roomy(t) == Grown(t) || (Roomy(t) == t && 2 * (Occupied(t) + 1) <= |t|)
  {
  }

  /** Assigning to a stored key. */
  lemma RevalueHealthy(t: Table, key: string, val: Value)
    requires Sane(t) && Find(t, key).Some?
    ensures var x := Find(t, key).value;
            var t' := t[x := t[x].(val := val)];
            && Sane(t') && Occupied(t') == Occupied(t)
            && (Healthy(t) ==> Healthy(t') && Contents(t') == Contents(t)[key := val])
  {
    var x := Find(t, key).value;
    var t' := t[x := t[x].(val := val)];
    OccupiedSame(t, x, t[x].(val := val));
    forall k
      ensures Find(t', k) == Find(t, k)
    {
      RevalueKeeps(t, k, Home(Hash(k), |t|), |t|, x, val);
    }
    if Healthy(t) {
      assert Healthy(t') by {
        forall i | 0 <= i < |t'| && t'[i].Full?
          ensures Find(t', t'[i].key) == Some(i)
        {
          assert t'[i].key == t[i].key;
        }
      }
      assert forall k | k != key :: ValueOf(t', k) == ValueOf(t, k) by {
        forall k | k != key
          ensures ValueOf(t', k) == ValueOf(t, k)
        {
          assert Find(t, k) != Some(x);
        }
      }
      SameFinds(t, t', key, val);
    }
  }

  /** Assignment keeps a table sane, and refines the update of a map. */
  lemma AssignRefines(t: Table, key: string, val: Value)
    requires Sane(t)
    ensures Sane(Assigned(t, key, val))
    ensures Healthy(t) ==>
              Healthy(Assigned(t, key, val)) && Contents(Assigned(t, key, val)) == Contents(t)[key := val]
  {
    RoomyKeeps(t);
    var t' := Roomy(t);
    if Find(t', key).Some? {
      RevalueHealthy(t', key, val);
    } else {
      var s := Full(key, Hash(key), val);
      var x := PlaceFills(t', s);
      if Healthy(t) {
        if key in KeysOf(t') { FindStored(t', key); }
        PlaceHealthy(t', s);
      }
    }
  }

  /** A lookup in a healthy table is a lookup in its map. */
  lemma LookupRefines(t: Table, key: string)
    requires Healthy(t)
    ensures ValueOf(t, key) == if key in Contents(t) then Contents(t)[key] else NilV
  {
    ContentsFound(t, key);
  }

  // ---------- removal ----------

  /** Removal, exactly: the key is gone, and another key is still found unless its
      probe inspects the emptied slot. */
  lemma RemoveEffect(t: Table, key: string)
    requires Sane(t)
    ensures Sane(Removed(t, key)) && Find(Removed(t, key), key).None?
    ensures Occupied(Removed(t, key)) == Occupied(t) - if Find(t, key).Some? then 1 else 0
    ensures forall k | k != key ::
              Find(Removed(t, key), k)
              == if Find(t, key).Some? && Find(t, key).value in Visited(t, k) then None else Find(t, k)
  {
    if Find(t, key).Some? {
      var x := Find(t, key).value;
      OccupiedClear(t, x);
      FoundOnPath(t, key, Home(Hash(key), |t|), |t|);
      OnPath(t, key, Home(Hash(key), |t|), |t|, x);
      forall k | k != key
        ensures Find(Removed(t, key), k) == if x in Visited(t, k) then None else Find(t, k)
      {
        if x in Visited(t, k) {
          OnPath(t, k, Home(Hash(k), |t|), |t|, x);
        } else {
          OffPath(t, k, Home(Hash(k), |t|), |t|, x, Empty);
        }
      }
    }
  }

  lemma {:induction false} FoundOnPath(t: Table, key: string, i: nat, left: nat)
    requires i < |t| && Bits.IsPow2(|t|) && Walk(t, key, i, left).Some?
    ensures Walk(t, key, i, left).value in Path(t, key, i, left)
    decreases left
  {
    if !Holds(t[i], key) {
      FoundOnPath(t, key, Next(i, |t|), left - 1);
    }
  }

  /** Does the probe for some other stored key inspect slot `x`? */
  ghost predicate Crossed(t: Table, key: string, x: nat)
    requires Shaped(t)
  {
    exists k :: k in KeysOf(t) && k != key && x in Visited(t, k)
  }

  /** Removing a stored key from a healthy table leaves it healthy, as the map
      without that key, if and only if no other stored key is probed across it. */
  lemma RemoveHealthyIff(t: Table, key: string)
    requires Healthy(t) && Find(t, key).Some?
    ensures Healthy(Removed(t, key)) <==> !Crossed(t, key, Find(t, key).value)
    ensures Healthy(Removed(t, key)) ==> Contents(Removed(t, key)) == Contents(t) - {key}
  {
    var x, t' := Find(t, key).value, Removed(t, key);
    RemoveEffect(t, key);
    if Crossed(t, key, x) {
      var k :| k in KeysOf(t) && k != key && x in Visited(t, k);
      FindStored(t, k);
      var j := Find(t, k).value;
      assert t'[j] == t[j];
      assert Find(t', t'[j].key).None?;
    } else {
      forall i | 0 <= i < |t'| && t'[i].Full?
        ensures Find(t', t'[i].key) == Some(i)
      {
        assert i != x && t'[i] == t[i];
        assert t[i] in t;
        assert Find(t, t[i].key) == Some(i);
      }
    }
    if Healthy(t') {
      forall k | k != key
        ensures Find(t', k) == Find(t, k) && ValueOf(t', k) == ValueOf(t, k)
      {
        FindStored(t, k);
        if Find(t, k).Some? && Find(t', k).Some? {
          assert Find(t', k) == Find(t, k);
        }
      }
      LessOne(t, t', key);
    }
  }

  lemma LessOne(t: Table, t': Table, key: string)
    requires Healthy(t) && Healthy(t') && Find(t', key).None?
    requires forall k | k != key :: (Find(t', k).Some? <==> Find(t, k).Some?) && ValueOf(t', k) == ValueOf(t, k)
    ensures Contents(t') == Contents(t) - {key}
  {
    hide *;
    var c, c' := Contents(t), Contents(t');
    forall k
      ensures k in c' <==> k in c && k != key
      ensures k in c' ==> c'[k] == c[k]
    {
      ContentsFound(t, k);
      ContentsFound(t', k);
    }
    assert c' == c - {key};
  }

  /** Removing a key that another one is probed across loses the other: it is still
      stored and counted, and assigning it again stores it twice. */
  lemma LostKey(t: Table, a: string, b: string, v: Value)
    requires Healthy(t) && a != b && Find(t, a).Some? && Find(t, b).Some?
    requires Find(t, a).value in Visited(t, b)
    ensures var t' := Removed(t, a);
            && Find(t', b).None? && b in KeysOf(t')
            && Occupied(t') == Occupied(t) - 1
            && !DistinctKeys(Assigned(t', b, v)) && Occupied(Assigned(t', b, v)) == Occupied(t)
  {
    var t' := Removed(t, a);
    RemoveEffect(t, a);
    var j := Find(t, b).value;
    assert t'[j] == t[j] && t[j].key == b;
    assert t'[j] in t';
    hide Occupied, Find, Visited, KeysOf;
    var s := Full(b, Hash(b), v);
    var x := PlaceFills(t', s);
    var t'' := t'[x := s];
    assert Assigned(t', b, v) == t'';
    assert t''[j].key == b && t''[x].key == b && j != x;
  }

  /** It happens as soon as two keys share a home in the first table, as "a" and
      "i" do. */
  lemma TwoKeysCollide(a: string, b: string, u: Value, v: Value)
    requires a != b && Bits.IsPow2(8) && Home(Hash(a), 8) == Home(Hash(b), 8)
    ensures var t := Assigned(Assigned([], a, u), b, v);
            && Healthy(t) && Find(t, a).Some? && Find(t, b).Some? && Find(t, a).value in Visited(t, b)
            && Occupied(t) == 2
  {
    var h := Home(Hash(a), 8);
    var t0, t1 := Assigned([], a, u), Assigned(Assigned([], a, u), b, v);
    var s0, s1 := Full(a, Hash(a), u), Full(b, Hash(b), v);
    FirstPlaced(a, u);
    TwoHealthy(a, b, u, v);
    hide Contents, KeysOf, Occupied, Hash;
    var x := PlaceFills(t0, s1);
    assert Roomy(t0) == t0 && t1 == t0[x := s1];
    OccupiedFill(t0, x, s1);
    hide Assigned, Roomy, Place;
    assert t1[h] == s0;
    assert Find(t1, t1[h].key) == Some(h);
    assert Path(t1, b, h, 8)[0] == h;
  }

  lemma TwoHealthy(a: string, b: string, u: Value, v: Value)
    requires a != b
    ensures var t0, t1 := Assigned([], a, u), Assigned(Assigned([], a, u), b, v);
            Healthy(t0) && Find(t0, b).None? && Healthy(t1) && Find(t1, a).Some? && Find(t1, b).Some?
  {
    var t0, t1 := Assigned([], a, u), Assigned(Assigned([], a, u), b, v);
    EmptyHealthy();
    AssignRefines([], a, u);
    AssignRefines(t0, b, v);
    hide *;
    ContentsFound(t0, b);
    ContentsFound(t1, a);
    ContentsFound(t1, b);
  }

  lemma FirstPlaced(a: string, u: Value)
    requires Bits.IsPow2(8)
    ensures var t := Assigned([], a, u);
            |t| == 8 && t == Blank(8)[Home(Hash(a), 8) := Full(a, Hash(a), u)] && Occupied(t) == 1
  {
    hide Hash, Contents, Sane, KeysOf, Occupied;
    BlankSane(8);
    RoomyBlank();
    var h := Home(Hash(a), 8);
    assert Blank(8)[h].Empty?;
    assert FreeFrom(Blank(8), h, 8) == Some(h);
    OccupiedFill(Blank(8), h, Full(a, Hash(a), u));
    BlankMiss(8, a, h, 8);
    assert Find(Blank(8), a).None?;
  }

  lemma RoomyBlank()
    requires Bits.IsPow2(8)
    ensures Roomy([]) == Blank(8)
  {
  }

  lemma BlankMiss(n: nat, key: string, i: nat, left: nat)
    requires i < n && Bits.IsPow2(n)
    ensures Walk(Blank(n), key, i, left).None?
  {
  }

  lemma AAndICollide()
    ensures Bits.IsPow2(8) && Home(Hash("a"), 8) == Home(Hash("i"), 8)
  {
    CapPow2(0);
    HashOne('a');
    HashOne('i');
    hide Hash;
    MixA();
    MixI();
    HomeIsMod(Mix(FNV_BASIS, 97) as nat, 8);
    HomeIsMod(Mix(FNV_BASIS, 105) as nat, 8);
  }

  /** In a new dictionary: assign "a" and "i", delete "a", and "i" is lost although
      it is still counted; assigning it again stores it twice. */
  lemma DeletingALosesI(u: Value, v: Value)
    ensures var t := RunOps([SetOp("a", u), SetOp("i", v), DeleteOp("a")]);
            && Find(t, "i").None? && "i" in KeysOf(t) && Occupied(t) == 1
            && !DistinctKeys(Assigned(t, "i", v)) && Occupied(Assigned(t, "i", v)) == 2
    ensures "i" in MapOf([SetOp("a", u), SetOp("i", v), DeleteOp("a")])
  {
    hide Hash, Home, Contents, KeysOf, Find, Healthy, Visited, DistinctKeys, Occupied, Assigned, Removed, Bits.IsPow2;
    AAndICollide();
    TwoKeysCollide("a", "i", u, v);
    var ops := [SetOp("a", u), SetOp("i", v), DeleteOp("a")];
    assert ops[..2] == [SetOp("a", u), SetOp("i", v)] && ops[..2][..1] == [SetOp("a", u)] && ops[..1][..0] == [];
    assert RunOps([SetOp("a", u)]) == Assigned([], "a", u);
    var t1 := Assigned([], "a", u);
    var t2 := Assigned(t1, "i", v);
    assert RunOps(ops[..2]) == t2;
    assert RunOps(ops) == Removed(t2, "a");
    assert MapOf([SetOp("a", u)]) == map[]["a" := u];
    assert MapOf(ops[..2]) == map[]["a" := u]["i" := v];
    assert "i" != "a";
    LostKey(t2, "a", "i", v);
  }

  lemma MixA()
    ensures Mix(FNV_BASIS, 97) == 3826002220
  {
  }

  lemma MixI()
    ensures Mix(FNV_BASIS, 105) == 3960223172
  {
  }

  lemma HashOne(c: char)
    requires c as int < 256
    ensures Hash([c]) == Mix(FNV_BASIS, c as int)
  {
    hide Mix;
    assert [c][..0] == "" && Hash("") == FNV_BASIS;
  }

  // ---------- runs ----------

  datatype Op = SetOp(key: string, val: Value) | DeleteOp(key: string)

  function RunOps(ops: seq<Op>): (t: Table)
    ensures Shaped(t)
  {
    if ops == [] then []
    else
      var t := RunOps(ops[..|ops| - 1]);
      match ops[|ops| - 1]
      case SetOp(k, v) => Assigned(t, k, v)
      case DeleteOp(k) => Removed(t, k)
  }

  function MapOf(ops: seq<Op>): map<string, Value> {
    if ops == [] then map[]
    else
      var m := MapOf(ops[..|ops| - 1]);
      match ops[|ops| - 1]
      case SetOp(k, v) => m[k := v]
      case DeleteOp(k) => m - {k}
  }

  /** No removal in the run empties a slot on another stored key's probe. */
  ghost predicate CleanRun(ops: seq<Op>) {
    ops != [] ==>
      && CleanRun(ops[..|ops| - 1])
      && var t, op := RunOps(ops[..|ops| - 1]), ops[|ops| - 1];
         op.DeleteOp? && Find(t, op.key).Some? ==> !Crossed(t, op.key, Find(t, op.key).value)
  }

  /** From an empty dict, a clean run refines a finite map; any run stays sane. */
  lemma {:induction false} RunRefines(ops: seq<Op>)
    ensures Sane(RunOps(ops))
    ensures CleanRun(ops) ==> Healthy(RunOps(ops)) && Contents(RunOps(ops)) == MapOf(ops)
    ensures (forall i | 0 <= i < |ops| :: ops[i].SetOp?) ==> CleanRun(ops)
  {
    if ops == [] {
      EmptyHealthy();
    } else {
      hide Sane, Healthy, Contents, Crossed, Assigned, Removed, Find;
      var pre, op := ops[..|ops| - 1], ops[|ops| - 1];
      RunRefines(pre);
      var t := RunOps(pre);
      match op
      case SetOp(k, v) => AssignRefines(t, k, v);
      case DeleteOp(k) => RemoveRefines(t, k);
    }
  }

  lemma RemoveRefines(t: Table, k: string)
    requires Sane(t)
    ensures Shaped(t) && Sane(Removed(t, k))
    ensures Healthy(t) && (Find(t, k).Some? ==> !Crossed(t, k, Find(t, k).value)) ==>
              Healthy(Removed(t, k)) && Contents(Removed(t, k)) == Contents(t) - {k}
  {
    RemoveEffect(t, k);
    if Healthy(t) {
      if Find(t, k).Some? {
        RemoveHealthyIff(t, k);
      } else {
        ContentsFound(t, k);
      }
    }
  }

  lemma EmptyHealthy()
    ensures Healthy([]) && Contents([]) == map[]
  {
    assert KeysOf([]) == {};
  }

  // ---------- the object ----------

  class RuntimeDict {
    var slots: array<Slot>
    var count: nat

    ghost predicate Valid()
      reads this, slots
    {
      Sane(slots[..]) && count == Occupied(slots[..])
    }

    /** sage_rt_dict_new: no slots at all. */
    constructor New()
      ensures Valid() && Healthy(slots[..]) && Contents(slots[..]) == map[]
      ensures fresh(slots)
    {
      slots := new Slot[0];
      count := 0;
      new;
      EmptyHealthy();
      assert slots[..] == [];
    }

    /** Probe for a key: where it is, or the empty slot that ends the probe. */
    method Probe(key: string) returns (found: bool, idx: nat)
      requires Valid() && slots.Length > 0
      ensures idx < slots.Length
      ensures found <==> Find(slots[..], key).Some?
      ensures found ==> Find(slots[..], key) == Some(idx)
      ensures !found ==> FreeFrom(slots[..], Home(Hash(key), slots.Length), slots.Length) == Some(idx)
    {
      ghost var t, n := slots[..], slots.Length;
      var h := Hash(key);
      idx := Home(h, slots.Length);
      FreeExists(t, idx);
      ghost var home: nat, left: nat := idx, n;
      while slots[idx].Full?
        invariant idx < n && left <= n && t == slots[..]
        invariant Walk(t, key, home, n) == Walk(t, key, idx, left)
        invariant FreeFrom(t, home, n) == FreeFrom(t, idx, left) && FreeFrom(t, idx, left).Some?
        decreases left
      {
        assert left > 0;
        if slots[idx].hash == h && slots[idx].key == key {
          return true, idx;
        }
        idx := Next(idx, slots.Length);
        left := left - 1;
      }
      found := false;
    }

    method Get(key: string) returns (v: Value)
      requires Valid()
      ensures v == ValueOf(slots[..], key)
      ensures Healthy(slots[..]) ==>
                v == if key in Contents(slots[..]) then Contents(slots[..])[key] else NilV
    {
      if Healthy(slots[..]) { LookupRefines(slots[..], key); }
      if slots.Length == 0 { return NilV; }
      var found, idx := Probe(key);
      if found { return slots[idx].val; }
      return NilV;
    }

    /** A key stored with nil is reported as missing. */
    method Has(key: string) returns (b: bool)
      requires Valid()
      ensures Healthy(slots[..]) ==>
                (b <==> key in Contents(slots[..]) && Contents(slots[..])[key] != NilV)
    {
      var v := Get(key);
      return v != NilV;
    }

    /** _dict_grow: move every full slot to its first empty place in a table twice
        as large. */
    method Grow()
      requires Valid()
      modifies this`slots
      ensures Valid() && count == old(count)
      ensures fresh(slots) && slots[..] == Grown(old(slots[..]))
    {
      hide Occupied, Sane, FreeFrom, Home, Rehashed, Place;
      ghost var src := slots[..];
      GrownKeeps(src);
      SaneShape(src);
      CapPow2(|src|);
      var cap := if slots.Length == 0 then 8 else 2 * slots.Length;
      var wide := new Slot[cap](_ => Empty);
      RehashStart(src, cap);
      assert wide[..] == Blank(cap);
      for i := 0 to slots.Length
        invariant slots == old(slots) && slots[..] == src && fresh(wide) && wide.Length == cap
        invariant wide[..] == Rehashed(src, i, cap)
      {
        if slots[i].Full? {
          RehashRoom(src, i);
          MoveSlot(wide, slots[i]);
        }
        RehashStep(src, i, cap);
      }
      slots := wide;
    }

    method Set(key: string, val: Value)
      requires Valid()
      modifies this, slots
      ensures Valid() && slots[..] == Assigned(old(slots[..]), key, val)
      ensures slots == old(slots) || fresh(slots)
      ensures old(Healthy(slots[..])) ==>
                Healthy(slots[..]) && Contents(slots[..]) == old(Contents(slots[..]))[key := val]
    {
      hide Occupied, Rehashed, FreeFrom, Contents, Assigned, Sane, Home, Healthy, Find;
      ghost var t := slots[..];
      SaneShape(t);
      AssignRefines(t, key, val);
      RoomyMeaning(t);
      if slots.Length == 0 || count * 2 >= slots.Length {
        Grow();
      }
      ghost var r := slots[..];
      assert r == Roomy(t);
      hide Roomy;
      var found, idx := Probe(key);
      AssignedAt(t, key, val, idx);
      if found {
        slots[idx] := slots[idx].(val := val);
      } else {
        slots[idx] := Full(key, Hash(key), val);
        count := count + 1;
      }
      assert slots[..] == Assigned(t, key, val);
    }

    /** Clears the slot; the probes of other keys now end there. */
    method Remove(key: string) returns (removed: bool)
      requires Valid()
      modifies slots, this`count
      ensures Valid() && slots[..] == Removed(old(slots[..]), key)
      ensures removed <==> Find(old(slots[..]), key).Some?
    {
      ghost var t := slots[..];
      RemoveEffect(t, key);
      if slots.Length == 0 { return false; }
      var found, idx := Probe(key);
      if found {
        slots[idx] := Empty;
        OccupiedClear(t, idx);
        assert slots[..] == t[idx := Empty];
        count := count - 1;
      }
      return found;
    }
  }

  /** Put a slot into its first empty place. */
  method MoveSlot(wide: array<Slot>, s: Slot)
    requires Sane(wide[..]) && wide.Length > 0 && s.Full?
    modifies wide
    ensures wide[..] == Place(old(wide[..]), s)
  {
    ghost var t, n := wide[..], wide.Length;
    var idx: nat := Home(s.hash, wide.Length);
    FreeExists(t, idx);
    ghost var home: nat, left: nat := idx, n;
    while wide[idx].Full?
      invariant idx < n && left <= n && t == wide[..]
      invariant FreeFrom(t, home, n) == FreeFrom(t, idx, left) && FreeFrom(t, idx, left).Some?
      decreases left
    {
      assert left > 0;
      idx := Next(idx, wide.Length);
      left := left - 1;
    }
    wide[idx] := s;
    assert wide[..] == t[idx := s];
  }

  lemma RehashStart(src: Table, cap: nat)
    requires Bits.IsPow2(cap)
    ensures Rehashed(src, 0, cap) == Blank(cap)
  {
  }

  lemma RehashStep(src: Table, i: nat, cap: nat)
    requires i < |src| && Bits.IsPow2(cap)
    ensures Rehashed(src, i + 1, cap)
            == if src[i].Empty? then Rehashed(src, i, cap) else Place(Rehashed(src, i, cap), src[i])
  {
  }

  lemma RehashRoom(src: Table, i: nat)
    requires Sane(src) && i <= |src| && Bits.IsPow2(NewCap(|src|))
    ensures Sane(Rehashed(src, i, NewCap(|src|)))
  {
    CapPow2(|src|);
    RehashKeeps(src, i, NewCap(|src|));
  }

  lemma SaneShape(t: Table)
    requires Sane(t)
    ensures Shaped(t) && (|t| > 0 ==> Bits.IsPow2(|t|))
  {
  }

  lemma RoomyMeaning(t: Table)
    requires Sane(t)
    ensures Roomy(t) == if 2 * Occupied(t) >= |t| then Grown(t) else t
    ensures Sane(Roomy(t)) && Occupied(Roomy(t)) == Occupied(t) && |Roomy(t)| > 0 && Sane(Grown(t))
  {
    RoomyKeeps(t);
    GrownKeeps(t);
  }

  lemma AssignedAt(t: Table, key: string, val: Value, idx: nat)
    requires Sane(t) && Sane(Roomy(t)) && idx < |Roomy(t)|
    requires var r := Roomy(t);
             Find(r, key) == Some(idx)
             || (Find(r, key).None? && FreeFrom(r, Home(Hash(key), |r|), |r|) == Some(idx))
    ensures var r := Roomy(t);
            var found := Find(r, key).Some?;
            && (found ==> r[idx].Full?)
            && Assigned(t, key, val)
               == r[idx := if found then r[idx].(val := val) else Full(key, Hash(key), val)]
            && Occupied(Assigned(t, key, val)) == Occupied(r) + if found then 0 else 1
  {
    hide Roomy;
    var r := Roomy(t);
    if Find(r, key).Some? {
      OccupiedSame(r, idx, r[idx].(val := val));
    } else {
      OccupiedFill(r, idx, Full(key, Hash(key), val));
    }
  }
}
