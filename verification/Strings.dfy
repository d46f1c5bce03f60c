// split, join and replace of the compiled runtime (runtime/sage_runtime.c).
module Strings {
  import opened Common

  // ---------- occurrences ----------

  predicate Occurs(s: string, i: nat, sep: string) {
    i + |sep| <= |s| && s[i..i + |sep|] == sep
  }

  predicate Contains(s: string, sep: string) {
    exists i :: 0 <= i <= |s| && Occurs(s, i, sep)
  }

  /** The C function strstr: the first occurrence, if any. */
  function First(s: string, sep: string): (r: Option<nat>)
    ensures r.Some? ==> Occurs(s, r.value, sep) && forall j | 0 <= j < r.value :: !Occurs(s, j, sep)
    ensures r.None? ==> !Contains(s, sep)
  {
    FirstFrom(s, sep, 0)
  }

  function FirstFrom(s: string, sep: string, i: nat): (r: Option<nat>)
    requires i <= |s| && forall j | 0 <= j < i :: !Occurs(s, j, sep)
    ensures r.Some? ==> Occurs(s, r.value, sep) && forall j | 0 <= j < r.value :: !Occurs(s, j, sep)
    ensures r.None? ==> !Contains(s, sep)
    decreases |s| - i
  {
    if Occurs(s, i, sep) then Some(i) else if i == |s| then None else FirstFrom(s, sep, i + 1)
  }

  // ---------- meanings ----------

  function Chars(s: string): seq<string> {
    seq(|s|, i requires 0 <= i < |s| => [s[i]])
  }

  /** Cut at every occurrence, from left to right without overlap. */
  function Pieces(s: string, sep: string): (r: seq<string>)
    requires sep != ""
    ensures r != []
    decreases |s|
  {
    var f := First(s, sep);
    if f.None? then [s] else [s[..f.value]] + Pieces(s[f.value + |sep|..], sep)
  }

  function Split(s: string, sep: string): seq<string> {
    if sep == "" then Chars(s) else Pieces(s, sep)
  }

  function Join(parts: seq<string>, sep: string): string {
    if parts == [] then ""
    else if |parts| == 1 then parts[0]
    else parts[0] + sep + Join(parts[1..], sep)
  }

  // ---------- round trips ----------

  lemma {:induction false} JoinPieces(s: string, sep: string)
    requires sep != ""
    ensures Join(Pieces(s, sep), sep) == s
    decreases |s|
  {
    var f := First(s, sep);
    if f.Some? {
      var rest := s[f.value + |sep|..];
      JoinPieces(rest, sep);
      var all := Pieces(s, sep);
      assert all[1..] == Pieces(rest, sep);
      assert s == s[..f.value] + sep + rest;
    }
  }

  lemma {:induction false} JoinChars(s: string)
    ensures Join(Chars(s), "") == s
  {
    if |s| > 1 {
      JoinChars(s[1..]);
      assert Chars(s)[1..] == Chars(s[1..]);
      assert Join(Chars(s), "") == [s[0]] + "" + s[1..];
    }
  }

  /** Joining the pieces with the separator gives the string back, for every string
      and every separator. */
  lemma JoinSplit(s: string, sep: string)
    ensures Join(Split(s, sep), sep) == s
  {
    if sep == "" {
      JoinChars(s);
    } else {
      JoinPieces(s, sep);
    }
  }

  /** No piece contains a non-empty separator. */
  lemma {:induction false} PiecesLack(s: string, sep: string)
    requires sep != ""
    ensures forall p | p in Split(s, sep) :: !Contains(p, sep)
    decreases |s|
  {
    var f := First(s, sep);
    if f.Some? {
      PiecesLack(s[f.value + |sep|..], sep);
      var head := s[..f.value];
      forall j | 0 <= j <= |head|
        ensures !Occurs(head, j, sep)
      {
        if Occurs(head, j, sep) {
          assert s[j..j + |sep|] == head[j..j + |sep|];
          assert Occurs(s, j, sep);
        }
      }
    }
  }

  /** With a separator of one character, splitting undoes joining exactly when there
      is something to join and no part contains the separator. */
  lemma SplitJoinIff(parts: seq<string>, c: char)
    ensures Split(Join(parts, [c]), [c]) == parts <==> parts != [] && forall p | p in parts :: c !in p
  {
    if Split(Join(parts, [c]), [c]) == parts {
      PiecesLack(Join(parts, [c]), [c]);
      forall p | p in parts
        ensures c !in p
      {
        if c in p {
          var i :| 0 <= i < |p| && p[i] == c;
          assert Occurs(p, i, [c]);
          assert Contains(p, [c]);
          assert false;
        }
      }
    } else if parts != [] && forall p | p in parts :: c !in p {
      SplitJoin(parts, c);
    }
  }

  lemma {:induction false} SplitJoin(parts: seq<string>, c: char)
    requires parts != [] && forall p | p in parts :: c !in p
    ensures Pieces(Join(parts, [c]), [c]) == parts
  {
    var s, head := Join(parts, [c]), parts[0];
    forall j | 0 <= j < |head|
      ensures !Occurs(s, j, [c])
    {
      assert s[j] == head[j] && head[j] in head;
      assert s[j..j + 1][0] == s[j];
    }
    if |parts| == 1 {
      assert !Contains(s, [c]);
      assert parts == [s];
    } else {
      var rest := Join(parts[1..], [c]);
      assert s[|head|..|head| + 1] == [c];
      assert Occurs(s, |head|, [c]);
      assert First(s, [c]) == Some(|head|);
      assert s[|head| + 1..] == rest && s[..|head|] == head;
      SplitJoin(parts[1..], c);
    }
  }

  /** The cuts are the leftmost ones: in what is left at each cut, the separator does not
      start earlier, and after the last cut it is not there at all. */
  predicate IsLeftmost(parts: seq<string>, sep: string)
    requires parts != []
  {
    if |parts| == 1 then !Contains(parts[0], sep)
    else (forall j | 0 <= j < |parts[0]| :: !Occurs(Join(parts, sep), j, sep)) && IsLeftmost(parts[1..], sep)
  }

  /** What a split is, without the search: parts that join to the string, cut as far left as
      possible, or single characters when there is no separator. */
  lemma SplitIff(s: string, sep: string, parts: seq<string>)
    ensures Split(s, sep) == parts
            <==> Join(parts, sep) == s
                 && if sep == "" then forall p | p in parts :: |p| == 1 else parts != [] && IsLeftmost(parts, sep)
  {
    JoinSplit(s, sep);
    if sep == "" {
      if Join(parts, sep) == s && forall p | p in parts :: |p| == 1 { SinglesAreChars(parts); }
    } else {
      PiecesLeftmost(s, sep);
      if Join(parts, sep) == s && parts != [] && IsLeftmost(parts, sep) { LeftmostArePieces(parts, sep); }
    }
  }

  lemma {:induction false} SinglesAreChars(parts: seq<string>)
    requires forall p | p in parts :: |p| == 1
    ensures Chars(Join(parts, "")) == parts
  {
    if parts != [] {
      SinglesAreChars(parts[1..]);
      var s, rest := Join(parts, ""), Join(parts[1..], "");
      var c := parts[0];
      assert c in parts && s == c + rest && c == [s[0]];
      assert s[1..] == rest;
      assert Chars(s) == [c] + Chars(rest);
    }
  }

  lemma {:induction false} PiecesLeftmost(s: string, sep: string)
    requires sep != ""
    ensures IsLeftmost(Pieces(s, sep), sep)
    decreases |s|
  {
    var f := First(s, sep);
    if f.Some? {
      var rest := s[f.value + |sep|..];
      PiecesLeftmost(rest, sep);
      JoinPieces(s, sep);
      assert Pieces(s, sep)[1..] == Pieces(rest, sep);
    }
  }

  lemma {:induction false} LeftmostArePieces(parts: seq<string>, sep: string)
    requires sep != "" && parts != [] && IsLeftmost(parts, sep)
    ensures Pieces(Join(parts, sep), sep) == parts
  {
    if |parts| > 1 {
      var s, n := Join(parts, sep), |parts[0]|;
      var rest := Join(parts[1..], sep);
      LeftmostArePieces(parts[1..], sep);
      assert s[n..n + |sep|] == sep && s[n + |sep|..] == rest && s[..n] == parts[0];
      assert Occurs(s, n, sep);
      assert First(s, sep) == Some(n);
    }
  }

  // ---------- lengths ----------

  function Total(parts: seq<string>): nat {
    if parts == [] then 0 else |parts[0]| + Total(parts[1..])
  }

  lemma {:induction false} JoinLength(parts: seq<string>, sep: string)
    requires parts != []
    ensures |Join(parts, sep)| == Total(parts) + (|parts| - 1) * |sep|
  {
    if |parts| > 1 {
      JoinLength(parts[1..], sep);
    } else {
      assert parts[1..] == [];
    }
  }

  /** The length that replace computes beforehand. */
  lemma ReplacedLength(s: string, pat: string, sub: string)
    requires pat != ""
    ensures var n := |Pieces(s, pat)| - 1;
            |Join(Pieces(s, pat), sub)| == |s| + n * (|sub| - |pat|)
  {
    var ps := Pieces(s, pat);
    JoinPieces(s, pat);
    JoinLength(ps, pat);
    JoinLength(ps, sub);
    assert (|ps| - 1) * |sub| - (|ps| - 1) * |pat| == (|ps| - 1) * (|sub| - |pat|);
  }

  // ---------- the runtime's loops ----------

  /** sage_rt_str_split. */
  method StrSplit(s: string, sep: string) returns (arr: seq<string>)
    ensures arr == Split(s, sep)
  {
    if |sep| == 0 {
      arr := SplitChars(s);
    } else {
      arr := SplitAt(s, sep);
    }
  }

  /** Split into individual characters. */
  method SplitChars(s: string) returns (arr: seq<string>)
    ensures arr == Chars(s)
  {
    arr := [];
    for i := 0 to |s|
      invariant arr == Chars(s)[..i]
    {
      arr := arr + [[s[i]]];
    }
  }

  method SplitAt(s: string, sep: string) returns (arr: seq<string>)
    requires sep != ""
    ensures arr == Pieces(s, sep)
  {
    hide Pieces, First, Occurs, Contains;
    arr := [];
    var p := 0;
    var found := First(s, sep);
    assert s[0..] == s;
    while found.Some?
      invariant p <= |s| && found == First(s[p..], sep)
      invariant arr + Pieces(s[p..], sep) == Pieces(s, sep)
      decreases |s| - p
    {
      PieceStep(s, p, sep);
      arr := arr + [s[p..p + found.value]];
      p := p + found.value + |sep|;
      found := First(s[p..], sep);
    }
    PieceStep(s, p, sep);
    arr := arr + [s[p..]];
  }

  lemma PieceStep(s: string, p: nat, sep: string)
    requires p <= |s| && sep != ""
    ensures var f := First(s[p..], sep);
            && (f.None? ==> Pieces(s[p..], sep) == [s[p..]])
            && (f.Some? ==>
                  && p + f.value + |sep| <= |s|
                  && Pieces(s[p..], sep) == [s[p..p + f.value]] + Pieces(s[p + f.value + |sep|..], sep))
  {
    hide Pieces, First, Occurs, Contains;
    var t := s[p..];
    PiecesOf(t, sep);
    var f := First(t, sep);
    if f.Some? {
      var i, l := f.value, p + f.value + |sep|;
      var head, rest := s[p..p + i], s[l..];
      assert t[..i] == head;
      assert t[i + |sep|..] == rest;
      assert Pieces(t, sep) == [head] + Pieces(rest, sep);
    }
  }

  lemma PiecesOf(t: string, sep: string)
    requires sep != ""
    ensures var f := First(t, sep);
            && (f.Some? ==> f.value + |sep| <= |t|)
            && Pieces(t, sep) == if f.None? then [t] else [t[..f.value]] + Pieces(t[f.value + |sep|..], sep)
  {
  }

  /** memcpy. */
  method Copy(buf: array<char>, at: nat, src: string)
    requires at + |src| <= buf.Length
    modifies buf
    ensures buf[..at + |src|] == old(buf[..at]) + src
  {
    forall i | 0 <= i < |src| { buf[at + i] := src[i]; }
  }

  /** What is still to be written from part `i` on. */
  function Rest(parts: seq<string>, i: nat, sep: string): string
    requires i <= |parts|
  {
    if i == |parts| then "" else Join(parts[i..], sep)
  }

  lemma RestStep(parts: seq<string>, i: nat, sep: string)
    requires i < |parts|
    ensures Rest(parts, i, sep) == parts[i] + (if i < |parts| - 1 then sep else "") + Rest(parts, i + 1, sep)
    ensures Rest(parts, 0, sep) == Join(parts, sep)
  {
    assert parts[i..][1..] == parts[i + 1..] && parts[0..] == parts;
  }

  /** The measuring pass of join. */
  method Measure(parts: seq<string>, sep: string) returns (total: nat)
    ensures total == |Join(parts, sep)|
  {
    hide Rest, Join;
    RestEnds(parts, sep);
    total := 0;
    for i := 0 to |parts|
      invariant total + |Rest(parts, i, sep)| == |Join(parts, sep)|
    {
      RestStep(parts, i, sep);
      total := total + |parts[i]|;
      if i < |parts| - 1 { total := total + |sep|; }
    }
  }

  lemma JoinStep(head: string, rest: seq<string>, sep: string)
    requires rest != []
    ensures Join([head] + rest, sep) == head + (sep + Join(rest, sep))
  {
    assert ([head] + rest)[1..] == rest;
  }

  lemma RestEnds(parts: seq<string>, sep: string)
    ensures Rest(parts, 0, sep) == Join(parts, sep) && Rest(parts, |parts|, sep) == ""
  {
    assert parts[0..] == parts;
  }

  /** sage_rt_array_join: measure, allocate, fill. */
  method ArrayJoin(parts: seq<string>, sep: string) returns (r: string)
    ensures r == Join(parts, sep)
  {
    hide Rest, Join;
    var total := Measure(parts, sep);
    RestEnds(parts, sep);
    var buf := new char[total];
    var p: nat := 0;
    for i := 0 to |parts|
      invariant p <= buf.Length == |Join(parts, sep)|
      invariant buf[..p] + Rest(parts, i, sep) == Join(parts, sep)
    {
      RestStep(parts, i, sep);
      p := Append(buf, p, parts[i], (if i < |parts| - 1 then sep else "") + Rest(parts, i + 1, sep), Join(parts, sep));
      if i < |parts| - 1 {
        p := Append(buf, p, sep, Rest(parts, i + 1, sep), Join(parts, sep));
      }
    }
    return buf[..p];
  }

  /** Write one chunk; `rest` is still to come of `all`, so the chunk fits. */
  method Append(buf: array<char>, w: nat, chunk: string, ghost rest: string, ghost all: string) returns (w': nat)
    requires w <= buf.Length == |all| && buf[..w] + (chunk + rest) == all
    modifies buf
    ensures w' == w + |chunk| <= buf.Length && buf[..w'] + rest == all
  {
    assert |buf[..w] + (chunk + rest)| == |all|;
    Copy(buf, w, chunk);
    w' := w + |chunk|;
  }

  /** The counting pass of replace. */
  method CountPieces(s: string, pat: string) returns (count: nat)
    requires pat != ""
    ensures count == |Pieces(s, pat)| - 1
  {
    count := 0;
    var p := 0;
    var found := First(s, pat);
    assert s[0..] == s;
    while found.Some?
      invariant p <= |s| && found == First(s[p..], pat)
      invariant count + |Pieces(s[p..], pat)| == |Pieces(s, pat)|
      decreases |s| - p
    {
      count := count + 1;
      assert s[p..][found.value + |pat|..] == s[p + found.value + |pat|..];
      p := p + found.value + |pat|;
      found := First(s[p..], pat);
    }
  }

  /** sage_rt_str_replace: count, allocate exactly, copy. */
  method StrReplace(s: string, pat: string, sub: string) returns (r: string)
    ensures r == if pat == "" then s else Join(Split(s, pat), sub)
  {
    if |pat| == 0 { return s; }
    var count := CountPieces(s, pat);
    if count == 0 { return s; }
    ReplacedLength(s, pat, sub);
    var buf := new char[|s| + count * (|sub| - |pat|)];
    FillReplaced(buf, s, pat, sub);
    return buf[..];
  }

  /** The copying pass of replace fills the buffer exactly. */
  method FillReplaced(buf: array<char>, s: string, pat: string, sub: string)
    requires pat != "" && buf.Length == |Join(Pieces(s, pat), sub)|
    modifies buf
    ensures buf[..] == Join(Pieces(s, pat), sub)
  {
    hide Join, Pieces, First, Occurs, Contains;
    var w: nat, p: nat := 0, 0;
    var found := First(s, pat);
    ghost var all := Join(Pieces(s, pat), sub);
    assert s[0..] == s;
    while found.Some?
      invariant p <= |s| && w <= buf.Length && found == First(s[p..], pat)
      invariant buf[..w] + Join(Pieces(s[p..], pat), sub) == all
      decreases |s| - p
    {
      NextPiece(s, p, pat, sub);
      var chunk := s[p..p + found.value];
      ghost var rest := Join(Pieces(s[p + found.value + |pat|..], pat), sub);
      w := Append(buf, w, chunk, sub + rest, all);
      w := Append(buf, w, sub, rest, all);
      p := p + found.value + |pat|;
      found := First(s[p..], pat);
    }
    LastPiece(s, p, pat, sub);
    w := Append(buf, w, s[p..], "", all);
  }

  lemma NextPiece(s: string, p: nat, pat: string, sub: string)
    requires p <= |s| && pat != "" && First(s[p..], pat).Some?
    ensures var k := p + First(s[p..], pat).value;
            && p <= k && k + |pat| <= |s|
            && Join(Pieces(s[p..], pat), sub) == s[p..k] + (sub + Join(Pieces(s[k + |pat|..], pat), sub))
  {
    hide First, Pieces, Occurs, Contains, Join;
    PieceStep(s, p, pat);
    var k := p + First(s[p..], pat).value;
    JoinStep(s[p..k], Pieces(s[k + |pat|..], pat), sub);
  }

  lemma LastPiece(s: string, p: nat, pat: string, sub: string)
    requires p <= |s| && pat != "" && First(s[p..], pat).None?
    ensures Join(Pieces(s[p..], pat), sub) == s[p..] + ""
  {
  }
}
