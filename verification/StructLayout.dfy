// C struct layout, and fields read and written as raw bytes
// (runtime/sage_runtime.c, for a 64-bit little-endian target).
module StructLayout {
  import opened Common
  import Ast
  import Bits

  // ---------- alignment ----------

  /** `(off + al - 1) & ~(al - 1)`. */
  function Align(off: nat, al: nat): nat
    requires al > 0
  {
    Bits.AndNot(off + al - 1, al - 1)
  }

  /** The least multiple of the alignment that is not below the offset. */
  lemma AlignIsLeast(off: nat, k: nat)
    ensures var al := Bits.Pow2(k);
            var r := Align(off, al);
            && off <= r < off + al && r % al == 0
            && forall m: nat | off <= m && m % al == 0 :: r <= m
  {
    var al := Bits.Pow2(k);
    var r := Align(off, al);
    Bits.AndNotRoundsDown(off + al - 1, k);
    RoundsDown(off + al - 1, al);
    forall m: nat | off <= m && m % al == 0
      ensures r <= m
    {
      Spaced(r, m, al);
    }
  }

  lemma RoundsDown(a: nat, n: nat)
    requires n > 0
    ensures (a - a % n) % n == 0 && a % n < n && a % n <= a
  {
    assert a - a % n == n * (a / n);
    Bits.RemainderUnique(n * (a / n), n, a / n, 0);
  }

  /** Two multiples that are less than one step apart. */
  lemma Spaced(r: nat, m: nat, n: nat)
    requires n > 0 && r % n == 0 && m % n == 0 && r < m + n
    ensures r <= m
  {
    var p, q := r / n, m / n;
    assert r == n * p && m == n * q;
    if p > q {
      Bits.Apart(n, q, p);
    }
  }

  // ---------- definitions ----------

  datatype TypeInfo = TypeInfo(size: nat, align: nat)

  function InfoOf(ctype: string): Option<TypeInfo> {
    if ctype == "char" || ctype == "byte" then Some(TypeInfo(1, 1))
    else if ctype == "short" then Some(TypeInfo(2, 2))
    else if ctype == "int" then Some(TypeInfo(4, 4))
    else if ctype == "long" then Some(TypeInfo(8, 8))
    else if ctype == "float" then Some(TypeInfo(4, 4))
    else if ctype == "double" then Some(TypeInfo(8, 8))
    else if ctype == "ptr" then Some(TypeInfo(8, 8))
    else None
  }

  datatype Field = Field(name: string, ctype: string)

  /** A dict entry: a field's place, or one of the two totals. */
  datatype Entry = Place(offset: nat, size: nat, ctype: string) | Number(n: nat)

  type Def = map<string, Entry>

  datatype Layout = Layout(offset: nat, maxAlign: nat, def: Def)

  /** The running state after the first `i` fields, or None at a bad type. */
  function After(fields: seq<Field>, i: nat): Option<Layout>
    requires i <= |fields|
  {
    if i == 0 then Some(Layout(0, 1, map[]))
    else
      var l, info := After(fields, i - 1), InfoOf(fields[i - 1].ctype);
      if l.None? || info.None? then None
      else Some(Extend(l.value, fields[i - 1], info.value))
  }

  function Extend(l: Layout, f: Field, info: TypeInfo): Layout
    requires info.align > 0
  {
    var off := Align(l.offset, info.align);
    Layout(off + info.size, Max(info.align, l.maxAlign), l.def[f.name := Place(off, info.size, f.ctype)])
  }

  function DefOf(fields: seq<Field>): Option<Def> {
    var l := After(fields, |fields|);
    if l.None? || l.value.maxAlign <= 0 then None
    else
      Some(l.value.def["__size__" := Number(Align(l.value.offset, l.value.maxAlign))]
           ["__align__" := Number(l.value.maxAlign)])
  }

  /** sage_rt_struct_def. */
  method StructDef(fields: seq<Field>) returns (def: Option<Def>)
    ensures def == DefOf(fields)
  {
    hide Align;
    var d: Def := map[];
    var offset, maxAlign := 0, 1;
    for i := 0 to |fields|
      invariant offset >= 0 && maxAlign > 0 && After(fields, i) == Some(Layout(offset, maxAlign, d))
    {
      var info := InfoOf(fields[i].ctype);
      if info.None? {
        BadType(fields, i);
        return None;
      }
      offset := Align(offset, info.value.align);
      if info.value.align > maxAlign { maxAlign := info.value.align; }
      d := d[fields[i].name := Place(offset, info.value.size, fields[i].ctype)];
      offset := offset + info.value.size;
    }
    offset := Align(offset, maxAlign);
    return Some(d["__size__" := Number(offset)]["__align__" := Number(maxAlign)]);
  }

  lemma {:induction false} BadType(fields: seq<Field>, i: nat)
    requires i < |fields| && InfoOf(fields[i].ctype).None?
    ensures After(fields, |fields|).None?
  {
    BadFrom(fields, i, |fields|);
  }

  lemma {:induction false} BadFrom(fields: seq<Field>, i: nat, n: nat)
    requires i < n <= |fields| && InfoOf(fields[i].ctype).None?
    ensures After(fields, n).None?
  {
    if i < n - 1 {
      BadFrom(fields, i, n - 1);
    }
  }

  // ---------- what a layout guarantees ----------

  predicate IsAlign(a: nat) { a == 1 || a == 2 || a == 4 || a == 8 }

  lemma InfoAligned(ctype: string)
    ensures InfoOf(ctype).Some? ==>
              IsAlign(InfoOf(ctype).value.align) && InfoOf(ctype).value.size == InfoOf(ctype).value.align
  {
  }

  /** The bit mask at work on the alignments there are. */
  lemma Aligned(off: nat, al: nat)
    requires IsAlign(al)
    ensures var r := Align(off, al); off <= r && r % al == 0
  {
    assert Bits.Pow2(0) == 1 && Bits.Pow2(1) == 2 && Bits.Pow2(2) == 4 && Bits.Pow2(3) == 8;
    AlignIsLeast(off, if al == 1 then 0 else if al == 2 then 1 else if al == 4 then 2 else 3);
  }

  /** Every name has its own place below the running offset. */
  ghost predicate Sound(l: Layout) {
    && IsAlign(l.maxAlign)
    && (forall x | x in l.def :: PlaceOk(l, x))
    && (forall x, y | x in l.def && y in l.def && x != y :: Apart(l.def[x], l.def[y]))
  }

  predicate PlaceOk(l: Layout, x: string)
    requires x in l.def
  {
    var p := l.def[x];
    && p.Place? && InfoOf(p.ctype) == Some(TypeInfo(p.size, p.size))
    && p.size <= l.maxAlign && p.offset % p.size == 0 && p.offset + p.size <= l.offset
  }

  predicate Apart(p: Entry, q: Entry) {
    p.Place? && q.Place? ==> p.offset + p.size <= q.offset || q.offset + q.size <= p.offset
  }

  lemma ExtendSound(l: Layout, f: Field)
    requires Sound(l) && InfoOf(f.ctype).Some?
    ensures Sound(Extend(l, f, InfoOf(f.ctype).value))
  {
    var info := InfoOf(f.ctype).value;
    InfoAligned(f.ctype);
    Aligned(l.offset, info.align);
    var l' := Extend(l, f, info);
    forall x | x in l'.def
      ensures PlaceOk(l', x)
    {
      if x != f.name {
        assert PlaceOk(l, x);
      }
    }
    forall x, y | x in l'.def && y in l'.def && x != y
      ensures Apart(l'.def[x], l'.def[y])
    {
      if x != f.name { assert PlaceOk(l, x); }
      if y != f.name { assert PlaceOk(l, y); }
    }
  }

  lemma {:induction false} AfterSound(fields: seq<Field>, i: nat)
    requires i <= |fields| && After(fields, i).Some?
    ensures Sound(After(fields, i).value)
  {
    if i > 0 {
      AfterSound(fields, i - 1);
      ExtendSound(After(fields, i - 1).value, fields[i - 1]);
    }
  }

  predicate Reserved(x: string) { x == "__size__" || x == "__align__" }

  /** A field has its own aligned bytes inside the struct, whose size is a multiple
      of the field's alignment. */
  lemma LayoutSound(fields: seq<Field>, x: string)
    requires DefOf(fields).Some? && x in DefOf(fields).value && !Reserved(x)
    ensures var d := DefOf(fields).value;
            && d["__size__"].Number? && d[x].Place?
            && InfoOf(d[x].ctype) == Some(TypeInfo(d[x].size, d[x].size))
            && d[x].offset % d[x].size == 0
            && d[x].offset + d[x].size <= d["__size__"].n
            && d["__size__"].n % d[x].size == 0
            && forall y | y in d && y != x && !Reserved(y) :: d[y].Place? && Apart(d[x], d[y])
  {
    AfterSound(fields, |fields|);
    var l := After(fields, |fields|).value;
    Aligned(l.offset, l.maxAlign);
    assert PlaceOk(l, x);
    InfoAligned(l.def[x].ctype);
    Coarser(Align(l.offset, l.maxAlign), l.def[x].size, l.maxAlign);
    forall y | y in DefOf(fields).value && y != x && !Reserved(y)
      ensures DefOf(fields).value[y].Place? && Apart(DefOf(fields).value[x], DefOf(fields).value[y])
    {
      assert y in l.def && PlaceOk(l, y);
      assert Apart(l.def[x], l.def[y]);
    }
  }

  lemma Coarser(a: nat, n: nat, m: nat)
    requires IsAlign(n) && IsAlign(m) && n <= m && a % m == 0
    ensures a % n == 0
  {
    var q := a / m;
    if m == 2 {
      assert a == 2 * q;
    } else if m == 4 {
      assert a == 4 * q;
      if n == 2 { assert a == 2 * (2 * q); }
    } else if m == 8 {
      assert a == 8 * q;
      if n == 2 { assert a == 2 * (4 * q); } else if n == 4 { assert a == 4 * (2 * q); }
    }
  }

  /** Where the field would go by its position alone. */
  function OwnPlace(fields: seq<Field>, k: nat): Entry
    requires k < |fields| && After(fields, k).Some? && InfoOf(fields[k].ctype).Some?
  {
    var info := InfoOf(fields[k].ctype).value;
    Place(Align(After(fields, k).value.offset, info.align), info.size, fields[k].ctype)
  }

  /** Every prefix of a list that has a layout has one. */
  lemma {:induction false} PrefixLaid(fields: seq<Field>, k: nat, n: nat)
    requires k <= n <= |fields| && After(fields, n).Some?
    ensures After(fields, k).Some? && (k < n ==> InfoOf(fields[k].ctype).Some?)
  {
    if k < n { PrefixLaid(fields, k, n - 1); }
  }

  lemma OwnAligned(fields: seq<Field>, k: nat)
    requires k < |fields| && After(fields, k).Some? && InfoOf(fields[k].ctype).Some?
    ensures After(fields, k).value.offset <= OwnPlace(fields, k).offset && InfoOf(fields[k].ctype).value.size > 0
  {
    hide After;
    InfoAligned(fields[k].ctype);
    Aligned(After(fields, k).value.offset, InfoOf(fields[k].ctype).value.align);
  }

  /** The place of a field ends at or before the running offset. */
  lemma {:induction false} PlaceBelow(fields: seq<Field>, k: nat, n: nat)
    requires k < n <= |fields| && After(fields, n).Some?
    requires After(fields, k).Some? && InfoOf(fields[k].ctype).Some?
    ensures OwnPlace(fields, k).offset < After(fields, n).value.offset
  {
    hide Align, InfoOf;
    PrefixLaid(fields, n - 1, n);
    OwnAligned(fields, n - 1);
    Extended(fields, n);
    hide After;
    if k < n - 1 { PlaceBelow(fields, k, n - 1); }
  }

  lemma Extended(fields: seq<Field>, n: nat)
    requires 0 < n <= |fields| && After(fields, n).Some?
    ensures After(fields, n - 1).Some? && InfoOf(fields[n - 1].ctype).Some?
    ensures var own := OwnPlace(fields, n - 1);
            && own.Place? && After(fields, n).value.offset == own.offset + own.size
            && own.size == InfoOf(fields[n - 1].ctype).value.size
  {
    hide InfoOf, Align;
  }

  /** A field keeps its own type and place exactly if no later field has its name
      and the name is not that of a total, which replaces the field. */
  lemma FieldKeptIff(fields: seq<Field>, k: nat)
    requires DefOf(fields).Some? && k < |fields|
    ensures After(fields, k).Some? && InfoOf(fields[k].ctype).Some?
    ensures var d, x := DefOf(fields).value, fields[k].name;
            && x in d && (Reserved(x) ==> d[x].Number?)
            && (d[x] == OwnPlace(fields, k)
                <==> !Reserved(x) && forall j | k < j < |fields| :: fields[j].name != x)
  {
    PrefixLaid(fields, k, |fields|);
    KeptFrom(fields, k, |fields|);
  }

  lemma {:induction false} KeptFrom(fields: seq<Field>, k: nat, n: nat)
    requires k < n <= |fields| && After(fields, n).Some?
    requires After(fields, k).Some? && InfoOf(fields[k].ctype).Some?
    ensures var d, x := After(fields, n).value.def, fields[k].name;
            && x in d
            && (d[x] == OwnPlace(fields, k) <==> forall j | k < j < n :: fields[j].name != x)
            && (d[x] != OwnPlace(fields, k) ==> d[x].Place? && OwnPlace(fields, k).offset < d[x].offset)
  {
    hide Align, InfoOf;
    if k < n - 1 {
      PrefixLaid(fields, n - 1, n);
      KeptFrom(fields, k, n - 1);
      if fields[n - 1].name == fields[k].name {
        PlaceBelow(fields, k, n - 1);
        OwnAligned(fields, n - 1);
      }
    }
  }

  // ---------- fields as bytes ----------

  newtype byte = x: int | 0 <= x < 256

  /** The low `n` bytes of the two's complement of `v`, least significant first. */
  function Encode(v: int, n: nat): (r: seq<byte>)
    ensures |r| == n
    decreases n
  {
    if n == 0 then [] else [(v % 256) as byte] + Encode(v / 256, n - 1)
  }

  function Unsigned(bs: seq<byte>): nat {
    if bs == [] then 0 else bs[0] as nat + 256 * Unsigned(bs[1..])
  }

  function Pow256(n: nat): (p: nat)
    ensures p > 0
  {
    if n == 0 then 1 else 256 * Pow256(n - 1)
  }

  /** What the width keeps of a number, read without a sign. */
  lemma {:induction false} DecodeEncode(v: int, n: nat)
    ensures Unsigned(Encode(v, n)) == v % Pow256(n)
    decreases n
  {
    if n > 0 {
      DecodeEncode(v / 256, n - 1);
      SplitMod(v, Pow256(n - 1));
      assert Encode(v, n)[1..] == Encode(v / 256, n - 1);
    }
  }

  lemma SplitMod(v: int, p: nat)
    requires p > 0
    ensures v % (256 * p) == v % 256 + 256 * ((v / 256) % p)
  {
    var q, r := (v / 256) / p, (v / 256) % p;
    var s := v % 256 + 256 * r;
    assert v == (256 * p) * q + s by {
      assert v / 256 == p * q + r;
      assert 256 * (p * q) == (256 * p) * q;
    }
    IntRemainder(v, 256 * p, q, s);
  }

  lemma IntRemainder(a: int, n: nat, q: int, r: nat)
    requires n > 0 && a == n * q + r && r < n
    ensures a % n == r
  {
    var p, s := a / n, a % n;
    assert a == n * p + s;
    if p < q {
      IntApart(n, p, q);
    } else if q < p {
      IntApart(n, q, p);
    }
  }

  lemma IntApart(n: nat, p: int, q: int)
    requires p < q
    ensures n * p + n <= n * q
  {
    assert n * q == n * p + n * (q - p);
    Bits.Grows(n, q - p);
  }

  /** A two's complement number of `n` bytes. */
  function Signed(u: nat, n: nat): int {
    if 2 * u >= Pow256(n) then u - Pow256(n) else u
  }

  predicate IsIntType(t: string) { t == "char" || t == "byte" || t == "short" || t == "int" || t == "long" }

  /** C's conversion to the field's type; plain characters are read back unsigned. */
  function Truncated(t: string, size: nat, v: int): int {
    if t == "char" || t == "byte" then v % 256 else Signed(v % Pow256(size), size)
  }

  /** The number that the bytes of an integer field stand for. */
  function Decode(t: string, bs: seq<byte>): int {
    if t == "char" || t == "byte" then Unsigned(bs) else Signed(Unsigned(bs), |bs|)
  }

  lemma DecodeTruncates(t: string, v: int)
    requires IsIntType(t)
    ensures InfoOf(t).Some?
    ensures Decode(t, Encode(v, InfoOf(t).value.size)) == Truncated(t, InfoOf(t).value.size, v)
  {
    DecodeEncode(v, InfoOf(t).value.size);
    assert Pow256(1) == 256 * Pow256(0) == 256;
  }

  /** A value that fits comes back as it was. */
  lemma FitsUnchanged(t: string, size: nat, v: int)
    requires IsIntType(t) && t != "char" && t != "byte" && 0 <= Pow256(size) + 2 * v < 2 * Pow256(size)
    ensures Truncated(t, size, v) == v
  {
    var p := Pow256(size);
    if v >= 0 {
      IntRemainder(v, p, 0, v);
    } else {
      IntRemainder(v, p, -1, v + p);
    }
  }

  /** The integers that an integer field can hold. */
  predicate Holds(t: string, v: int) {
    if t == "char" || t == "byte" then 0 <= v <= 255
    else if t == "short" then -32768 <= v <= 32767
    else if t == "int" then -0x8000_0000 <= v <= 0x7fff_ffff
    else t == "long" && -0x8000_0000_0000_0000 <= v <= 0x7fff_ffff_ffff_ffff
  }

  /** A number written to an integer field and read back is the same number exactly if the
      field can hold it, and in any case one that the field can hold. */
  lemma NumberKeptIff(t: string, v: int)
    requires IsIntType(t)
    ensures InfoOf(t).Some?
    ensures var back := Decode(t, Encode(v, InfoOf(t).value.size));
            Holds(t, back) && (back == v <==> Holds(t, v))
  {
    DecodeTruncates(t, v);
    Powers();
    hide Encode, Decode, Pow256;
    var n := InfoOf(t).value.size;
    if t != "char" && t != "byte" && Holds(t, v) { FitsUnchanged(t, n, v); }
  }

  lemma Powers()
    ensures Pow256(1) == 0x100 && Pow256(2) == 0x1_0000 && Pow256(4) == 0x1_0000_0000
    ensures Pow256(8) == 0x1_0000_0000_0000_0000
  {
    assert Pow256(0) == 1;
    assert Pow256(1) == 0x100;
    assert Pow256(2) == 0x1_0000;
    assert Pow256(3) == 0x100_0000;
    assert Pow256(4) == 0x1_0000_0000;
    assert Pow256(5) == 0x100_0000_0000;
    assert Pow256(6) == 0x1_0000_0000_0000;
    assert Pow256(7) == 0x100_0000_0000_0000;
  }

  /** How the machine stores floating-point numbers in four and in eight bytes. */
  datatype Floats = Floats(
    encode4: Ast.Double -> seq<byte>,
    decode4: seq<byte> -> Ast.Double,
    encode8: Ast.Double -> seq<byte>,
    decode8: seq<byte> -> Ast.Double)

  /** Eight bytes hold a double exactly; four bytes hold some approximation. */
  ghost predicate Faithful(fl: Floats) {
    && (forall d :: |fl.encode4(d)| == 4)
    && (forall d :: |fl.encode8(d)| == 8 && fl.decode8(fl.encode8(d)) == d)
  }

  /** A value as the three conversions read it: integer, double, and pointer if it is
      one. */
  datatype Given = Given(iv: int, dv: Ast.Double, ptr: Option<nat>)

  datatype Fetched = IntF(i: int) | FloatF(d: Ast.Double) | PtrF(p: nat)

  function Width(ctype: string): nat {
    var info := InfoOf(ctype);
    if info.Some? then info.value.size else 0
  }

  /** The bytes that an assignment writes, if any: only pointers go into pointer fields. */
  function Coded(fl: Floats, ctype: string, v: Given): Option<seq<byte>> {
    if IsIntType(ctype) then Some(Encode(v.iv, Width(ctype)))
    else if ctype == "float" then Some(fl.encode4(v.dv))
    else if ctype == "double" then Some(fl.encode8(v.dv))
    else if ctype == "ptr" && v.ptr.Some? then Some(Encode(v.ptr.value, 8))
    else None
  }

  function Fetch(fl: Floats, ctype: string, bs: seq<byte>): Option<Fetched> {
    if IsIntType(ctype) then Some(IntF(Decode(ctype, bs)))
    else if ctype == "float" then Some(FloatF(fl.decode4(bs)))
    else if ctype == "double" then Some(FloatF(fl.decode8(bs)))
    else if ctype == "ptr" then Some(PtrF(Unsigned(bs)))
    else None
  }

  lemma CodedWidth(fl: Floats, ctype: string, v: Given)
    requires Faithful(fl) && Coded(fl, ctype, v).Some?
    ensures |Coded(fl, ctype, v).value| == Width(ctype)
  {
  }

  predicate Inside(mem: seq<byte>, e: Entry) { e.Place? && e.offset + Width(e.ctype) <= |mem| }

  function FieldBytes(mem: seq<byte>, e: Entry): seq<byte>
    requires Inside(mem, e)
  {
    mem[e.offset..e.offset + Width(e.ctype)]
  }

  function Written(mem: seq<byte>, at: nat, bs: seq<byte>): (r: seq<byte>)
    requires at + |bs| <= |mem|
    ensures |r| == |mem|
  {
    mem[..at] + bs + mem[at + |bs|..]
  }

  /** sage_rt_struct_set; an unknown field, or a field of an unknown type, is ignored. */
  method StructSet(fl: Floats, mem: array<byte>, def: Def, field: string, v: Given)
    requires Faithful(fl) && (field in def && def[field].Place? ==> Inside(mem[..], def[field]))
    modifies mem
    ensures mem[..] == if field in def && def[field].Place? && Coded(fl, def[field].ctype, v).Some?
                       then Written(old(mem[..]), def[field].offset, Coded(fl, def[field].ctype, v).value)
                       else old(mem[..])
  {
    hide Coded, Width, Faithful;
    if field !in def || !def[field].Place? { return; }
    var base, code := def[field].offset, Coded(fl, def[field].ctype, v);
    if code.None? { return; }
    CodedWidth(fl, def[field].ctype, v);
    var bs := code.value;
    ghost var was := mem[..];
    forall i | 0 <= i < |bs| { mem[base + i] := bs[i]; }
    assert mem[..] == Written(was, base, bs);
  }

  /** sage_rt_struct_get; an unknown field, or a field of an unknown type, gives nil. */
  method StructGet(fl: Floats, mem: array<byte>, def: Def, field: string) returns (r: Option<Fetched>)
    requires field in def && def[field].Place? ==> Inside(mem[..], def[field])
    ensures r == if field in def && def[field].Place?
                 then Fetch(fl, def[field].ctype, FieldBytes(mem[..], def[field])) else None
  {
    if field !in def || !def[field].Place? { return None; }
    var p := def[field];
    return Fetch(fl, p.ctype, mem[p.offset..p.offset + Width(p.ctype)]);
  }

  /** What an assignment keeps of a value: integers are truncated to the field, a float
      is as close as four bytes come, a double is kept, and so is a pointer of the
      machine's width. */
  function KeptOf(fl: Floats, ctype: string, v: Given): Option<Fetched> {
    if IsIntType(ctype) then Some(IntF(Truncated(ctype, Width(ctype), v.iv)))
    else if ctype == "float" then Some(FloatF(fl.decode4(fl.encode4(v.dv))))
    else if ctype == "double" then Some(FloatF(v.dv))
    else if ctype == "ptr" && v.ptr.Some? then Some(PtrF(v.ptr.value % Pow256(8)))
    else None
  }

  lemma FetchCoded(fl: Floats, ctype: string, v: Given)
    requires Faithful(fl) && Coded(fl, ctype, v).Some?
    ensures Fetch(fl, ctype, Coded(fl, ctype, v).value) == KeptOf(fl, ctype, v)
  {
    hide Encode, Unsigned, Pow256, Decode, Truncated;
    if IsIntType(ctype) {
      DecodeTruncates(ctype, v.iv);
    } else if ctype == "ptr" {
      DecodeEncode(v.ptr.value, 8);
    }
  }

  /** Writing a field and reading it back gives what the field keeps of the value; every
      other field of the struct keeps its bytes. */
  lemma SetThenGet(fl: Floats, fields: seq<Field>, mem: seq<byte>, x: string, v: Given)
    requires Faithful(fl) && DefOf(fields).Some? && x in DefOf(fields).value && !Reserved(x)
    requires DefOf(fields).value["__size__"].Number? && |mem| == DefOf(fields).value["__size__"].n
    requires DefOf(fields).value[x].Place? && Coded(fl, DefOf(fields).value[x].ctype, v).Some?
    ensures var d := DefOf(fields).value;
            var bs := Coded(fl, d[x].ctype, v).value;
            && d[x].offset + |bs| <= |mem|
            && var mem' := Written(mem, d[x].offset, bs);
            && Inside(mem', d[x]) && Fetch(fl, d[x].ctype, FieldBytes(mem', d[x])) == KeptOf(fl, d[x].ctype, v)
            && forall y | y in d && y != x && !Reserved(y) ::
                 && Inside(mem, d[y]) && FieldBytes(mem', d[y]) == FieldBytes(mem, d[y])
  {
    hide Coded, Fetch, KeptOf, DefOf, InfoOf;
    var d := DefOf(fields).value;
    LayoutSound(fields, x);
    CodedWidth(fl, d[x].ctype, v);
    FetchCoded(fl, d[x].ctype, v);
    var bs := Coded(fl, d[x].ctype, v).value;
    var mem' := Written(mem, d[x].offset, bs);
    assert FieldBytes(mem', d[x]) == bs;
    forall y | y in d && y != x && !Reserved(y)
      ensures Inside(mem, d[y]) && FieldBytes(mem', d[y]) == FieldBytes(mem, d[y])
    {
      LayoutSound(fields, y);
      assert Apart(d[x], d[y]);
    }
  }

  /** Every type a field can have stores something, except a pointer field that is given
      no pointer. */
  lemma CodedIff(fl: Floats, fields: seq<Field>, x: string, v: Given)
    requires DefOf(fields).Some? && x in DefOf(fields).value && !Reserved(x)
    ensures var e := DefOf(fields).value[x];
            e.Place? && (Coded(fl, e.ctype, v).Some? <==> e.ctype != "ptr" || v.ptr.Some?)
  {
    LayoutSound(fields, x);
    hide DefOf;
  }
}
