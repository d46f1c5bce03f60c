// Firefly's "did you mean" machinery: the one-row edit distance and the
// search for the closest visible name (src/firefly.c).
module EditDistance {
  import opened Common

  // ---------- edit scripts ----------

  /** An edit script, last edit outermost.  Keep copies the next character, the
      other three edits cost one each. */
  datatype Script =
    | Done
    | Keep(prev: Script)
    | Subst(prev: Script, c: char)
    | Insert(prev: Script, c: char)
    | Delete(prev: Script)

  function Front(s: string): string
    requires s != ""
  {
    s[..|s| - 1]
  }

  function Last(s: string): char
    requires s != ""
  {
    s[|s| - 1]
  }

  /** The text a script turns `x` into, or None when it does not fit `x`. */
  function Run(e: Script, x: string): Option<string> {
    match e
    case Done => if x == "" then Some("") else None
    case Insert(p, c) =>
      (match Run(p, x) case None => None case Some(y) => Some(y + [c]))
    case Keep(p) =>
      if x == "" then None
      else (match Run(p, Front(x)) case None => None case Some(y) => Some(y + [Last(x)]))
    case Subst(p, c) =>
      if x == "" then None
      else (match Run(p, Front(x)) case None => None case Some(y) => Some(y + [c]))
    case Delete(p) =>
      if x == "" then None else Run(p, Front(x))
  }

  function Cost(e: Script): nat {
    match e
    case Done => 0
    case Keep(p) => Cost(p)
    case Subst(p, _) => Cost(p) + 1
    case Insert(p, _) => Cost(p) + 1
    case Delete(p) => Cost(p) + 1
  }

  /** `n` is the least number of edits that turn `x` into `y`. */
  ghost predicate IsMinEdits(x: string, y: string, n: nat) {
    && (exists e :: Run(e, x) == Some(y) && Cost(e) == n)
    && (forall e :: Run(e, x) == Some(y) ==> n <= Cost(e))
  }

  // ---------- the recurrence ----------

  function Dist(x: string, y: string): nat
    decreases |x| + |y|
  {
    if x == "" then |y|
    else if y == "" then |x|
    else
      var up := Dist(Front(x), y) + 1;
      var left := Dist(x, Front(y)) + 1;
      var diagonal := Dist(Front(x), Front(y)) + (if Last(x) == Last(y) then 0 else 1);
      Min(Min(up, left), diagonal)
  }

  lemma {:induction false} SomeScriptCostsDist(x: string, y: string) returns (e: Script)
    ensures Run(e, x) == Some(y) && Cost(e) == Dist(x, y)
    decreases |x| + |y|
  {
    if x == "" && y == "" {
      e := Done;
    } else if x == "" || (y != "" && Dist(x, y) == Dist(x, Front(y)) + 1) {
      var p := SomeScriptCostsDist(x, Front(y));
      e := Insert(p, Last(y));
      assert y == Front(y) + [Last(y)];
    } else if y == "" || Dist(x, y) == Dist(Front(x), y) + 1 {
      var p := SomeScriptCostsDist(Front(x), y);
      e := Delete(p);
    } else {
      var p := SomeScriptCostsDist(Front(x), Front(y));
      e := if Last(x) == Last(y) then Keep(p) else Subst(p, Last(y));
      assert y == Front(y) + [Last(y)];
    }
  }

  lemma {:induction false} NoScriptBeatsDist(e: Script, x: string, y: string)
    requires Run(e, x) == Some(y)
    ensures Dist(x, y) <= Cost(e)
    decreases e
  {
    match e
    case Done =>
    case Insert(p, c) => NoScriptBeatsDist(p, x, Front(y));
    case Delete(p) => NoScriptBeatsDist(p, Front(x), y);
    case Keep(p) => NoScriptBeatsDist(p, Front(x), Front(y));
    case Subst(p, c) => NoScriptBeatsDist(p, Front(x), Front(y));
  }

  /** The recurrence computes the minimum edit script length. */
  lemma DistIsMinEdits(x: string, y: string)
    ensures IsMinEdits(x, y, Dist(x, y))
  {
    var e := SomeScriptCostsDist(x, y);
    forall f | Run(f, x) == Some(y)
      ensures Dist(x, y) <= Cost(f)
    {
      NoScriptBeatsDist(f, x, y);
    }
  }

  // ---------- the distance is a metric ----------

  lemma {:induction false} Symmetric(x: string, y: string)
    ensures Dist(x, y) == Dist(y, x)
    decreases |x| + |y|
  {
    if x != "" && y != "" {
      Symmetric(Front(x), y);
      Symmetric(x, Front(y));
      Symmetric(Front(x), Front(y));
    }
  }

  /** One script doing the work of two. */
  function Compose(e: Script, f: Script): Script
    decreases e, f
  {
    match (e, f)
    case (_, Insert(p, c)) => Insert(Compose(e, p), c)
    case (Delete(p), _) => Delete(Compose(p, f))
    case (Keep(p), Keep(q)) => Keep(Compose(p, q))
    case (Keep(p), Subst(q, c)) => Subst(Compose(p, q), c)
    case (Keep(p), Delete(q)) => Delete(Compose(p, q))
    case (Subst(p, d), Keep(q)) => Subst(Compose(p, q), d)
    case (Subst(p, _), Subst(q, c)) => Subst(Compose(p, q), c)
    case (Subst(p, _), Delete(q)) => Delete(Compose(p, q))
    case (Insert(p, d), Keep(q)) => Insert(Compose(p, q), d)
    case (Insert(p, _), Subst(q, c)) => Insert(Compose(p, q), c)
    case (Insert(p, _), Delete(q)) => Compose(p, q)
    case _ => Done
  }

  lemma {:induction false} ComposeRuns(e: Script, f: Script, x: string, y: string, z: string)
    requires Run(e, x) == Some(y) && Run(f, y) == Some(z)
    ensures Run(Compose(e, f), x) == Some(z)
    ensures Cost(Compose(e, f)) <= Cost(e) + Cost(f)
    decreases e, f
  {
    match (e, f)
    case (_, Insert(p, _)) => ComposeRuns(e, p, x, y, Front(z));
    case (Delete(p), _) => ComposeRuns(p, f, Front(x), y, z);
    case (Insert(p, _), Delete(q)) => ComposeRuns(p, q, x, Front(y), z);
    case (Insert(p, _), Keep(q)) => ComposeRuns(p, q, x, Front(y), Front(z));
    case (Insert(p, _), Subst(q, _)) => ComposeRuns(p, q, x, Front(y), Front(z));
    case (Keep(p), Delete(q)) => ComposeRuns(p, q, Front(x), Front(y), z);
    case (Subst(p, _), Delete(q)) => ComposeRuns(p, q, Front(x), Front(y), z);
    case (Keep(p), Keep(q)) => ComposeRuns(p, q, Front(x), Front(y), Front(z));
    case (Keep(p), Subst(q, _)) => ComposeRuns(p, q, Front(x), Front(y), Front(z));
    case (Subst(p, _), Keep(q)) => ComposeRuns(p, q, Front(x), Front(y), Front(z));
    case (Subst(p, _), Subst(q, _)) => ComposeRuns(p, q, Front(x), Front(y), Front(z));
    case _ =>
  }

  lemma TriangleInequality(x: string, y: string, z: string)
    ensures Dist(x, z) <= Dist(x, y) + Dist(y, z)
  {
    var e := SomeScriptCostsDist(x, y);
    var f := SomeScriptCostsDist(y, z);
    ComposeRuns(e, f, x, y, z);
    NoScriptBeatsDist(Compose(e, f), x, z);
  }

  lemma {:induction false} LengthBounds(x: string, y: string)
    ensures |x| - |y| <= Dist(x, y) && |y| - |x| <= Dist(x, y)
    ensures Dist(x, y) <= Max(|x|, |y|)
    decreases |x| + |y|
  {
    if x != "" && y != "" {
      LengthBounds(Front(x), y);
      LengthBounds(x, Front(y));
      LengthBounds(Front(x), Front(y));
    }
  }

  lemma {:induction false} ZeroIffEqual(x: string, y: string)
    ensures Dist(x, y) == 0 <==> x == y
    decreases |x| + |y|
  {
    if x != "" && y != "" {
      ZeroIffEqual(Front(x), Front(y));
      assert x == Front(x) + [Last(x)] && y == Front(y) + [Last(y)];
    }
  }

  // ---------- names are compared without case ----------

  function ToLower(c: char): char {
    if 'A' <= c <= 'Z' then (c as int + 32) as char else c
  }

  function Lower(s: string): (r: string)
    ensures |r| == |s|
    ensures forall i :: 0 <= i < |s| ==> r[i] == ToLower(s[i])
  {
    seq(|s|, i requires 0 <= i < |s| => ToLower(s[i]))
  }

  /** The same letter, in upper or in lower case. */
  predicate SameLetter(c: char, d: char) { c == d || IsUpperOf(c, d) || IsUpperOf(d, c) }

  predicate IsUpperOf(c: char, d: char) {
    'A' <= c <= 'Z' && 'a' <= d <= 'z' && c as int - 'A' as int == d as int - 'a' as int
  }

  lemma LowerIff(c: char, d: char)
    ensures ToLower(c) == ToLower(d) <==> SameLetter(c, d)
  {
  }

  /** The distance Firefly reports for two names. */
  function NameDist(a: string, b: string): nat { Dist(Lower(a), Lower(b)) }

  /** The measure on names: a pseudometric whose zero is equality up to case. */
  lemma NameDistIsPseudometric(a: string, b: string, c: string)
    ensures NameDist(a, b) == NameDist(b, a)
    ensures NameDist(a, c) <= NameDist(a, b) + NameDist(b, c)
    ensures NameDist(a, b) == 0 <==>
            |a| == |b| && forall i :: 0 <= i < |a| ==> SameLetter(a[i], b[i])
    ensures |a| - |b| <= NameDist(a, b) <= Max(|a|, |b|)
  {
    Symmetric(Lower(a), Lower(b));
    TriangleInequality(Lower(a), Lower(b), Lower(c));
    ZeroIffEqual(Lower(a), Lower(b));
    LengthBounds(Lower(a), Lower(b));
    forall i | 0 <= i < Min(|a|, |b|)
      ensures ToLower(a[i]) == ToLower(b[i]) <==> SameLetter(a[i], b[i])
    {
      LowerIff(a[i], b[i]);
    }
  }

  // ---------- the one-row table ----------

  /** The entry of the distance table for the first `i` and `j` characters. */
  ghost function Cell(x: string, y: string, i: nat, j: nat): nat
    requires i <= |x| && j <= |y|
  {
    Dist(x[..i], y[..j])
  }

  lemma CellStep(x: string, y: string, i: nat, j: nat)
    requires 0 < i <= |x| && 0 < j <= |y|
    ensures Cell(x, y, i, j) ==
            Min(Min(Cell(x, y, i - 1, j) + 1, Cell(x, y, i, j - 1) + 1),
                Cell(x, y, i - 1, j - 1) + (if x[i - 1] == y[j - 1] then 0 else 1))
  {
    assert Front(x[..i]) == x[..i - 1] && Front(y[..j]) == y[..j - 1];
  }

  lemma CellEdges(x: string, y: string)
    ensures forall k :: 0 <= k <= |y| ==> Cell(x, y, 0, k) == k
    ensures forall k :: 0 <= k <= |x| ==> Cell(x, y, k, 0) == k
    ensures Cell(x, y, |x|, |y|) == Dist(x, y)
  {
    assert x[..|x|] == x && y[..|y|] == y;
  }

  method Edist(a: string, b: string) returns (res: nat)
    ensures res == NameDist(a, b)
    ensures IsMinEdits(Lower(a), Lower(b), res)
  {
    hide Cell, Dist, IsMinEdits;
    ghost var x, y := Lower(a), Lower(b);
    CellEdges(x, y);
    DistIsMinEdits(x, y);
    var al, bl := |a|, |b|;
    if al == 0 { return bl; }
    if bl == 0 { return al; }
    var r := new nat[bl + 1];
    for j := 0 to bl + 1
      invariant forall k :: 0 <= k < j ==> r[k] == k
    {
      r[j] := j;
    }
    var i := 1;
    while i <= al
      invariant 1 <= i <= al + 1
      invariant forall k :: 0 <= k <= bl ==> r[k] == Cell(x, y, i - 1, k)
    {
      var p := r[0];
      r[0] := i;
      var j := 1;
      while j <= bl
        invariant 1 <= j <= bl + 1
        invariant forall k :: 0 <= k < j ==> r[k] == Cell(x, y, i, k)
        invariant forall k :: j <= k <= bl ==> r[k] == Cell(x, y, i - 1, k)
        invariant p == Cell(x, y, i - 1, j - 1)
      {
        var c := if ToLower(a[i - 1]) == ToLower(b[j - 1]) then 0 else 1;
        var v, d, s := r[j] + 1, r[j - 1] + 1, p + c;
        var best := if v < d then (if v < s then v else s) else (if d < s then d else s);
        assert best == Cell(x, y, i, j) by { CellStep(x, y, i, j); }
        p := r[j];
        r[j] := best;
        j := j + 1;
      }
      i := i + 1;
    }
    res := r[bl];
  }

  // ---------- the suggestion ----------

  function Threshold(name: string): nat {
    if |name| <= 3 then 1 else if |name| <= 6 then 2 else 3
  }

  /** All visible names, innermost scope first. */
  function Visible(scopes: seq<seq<string>>): seq<string> {
    if scopes == [] then [] else Visible(scopes[..|scopes| - 1]) + scopes[|scopes| - 1]
  }

  predicate Eligible(name: string, candidate: string) {
    0 < NameDist(name, candidate) <= Threshold(name)
  }

  /** `names[i]` is the closest eligible name, and the first of the closest. */
  ghost predicate IsFirstClosest(name: string, names: seq<string>, i: nat) {
    && i < |names|
    && Eligible(name, names[i])
    && (forall k :: 0 <= k < |names| && Eligible(name, names[k]) ==>
          NameDist(name, names[i]) <= NameDist(name, names[k]))
    && (forall k :: 0 <= k < i && Eligible(name, names[k]) ==>
          NameDist(name, names[i]) < NameDist(name, names[k]))
  }

  /** How far away a name may be: one edit for up to three characters, two for up to six. */
  lemma EligibleIff(name: string, candidate: string)
    ensures Eligible(name, candidate) <==>
            NameDist(name, candidate) in (if |name| < 4 then {1} else if |name| < 7 then {1, 2} else {1, 2, 3})
  {
    hide NameDist;
  }

  method Suggest(name: string, scopes: seq<seq<string>>) returns (best: Option<string>, bd: nat)
    ensures best.None? ==> forall n :: n in Visible(scopes) ==> !Eligible(name, n)
    ensures best.Some? ==>
              exists i: nat :: IsFirstClosest(name, Visible(scopes), i)
                               && Visible(scopes)[i] == best.value && bd == NameDist(name, best.value)
  {
    best, bd := None, 999;
    var th := Threshold(name);
    ghost var seen: seq<string> := [];
    ghost var at: nat := 0;
    for s := 0 to |scopes|
      invariant seen == Visible(scopes[..s])
      invariant best.None? ==> bd == 999 && forall k :: 0 <= k < |seen| ==> !Eligible(name, seen[k])
      invariant best.Some? ==>
                  && IsFirstClosest(name, seen, at)
                  && seen[at] == best.value && bd == NameDist(name, best.value)
    {
      ghost var outer := seen;
      for n := 0 to |scopes[s]|
        invariant seen == outer + scopes[s][..n]
        invariant best.None? ==> bd == 999 && forall k :: 0 <= k < |seen| ==> !Eligible(name, seen[k])
        invariant best.Some? ==>
                    && IsFirstClosest(name, seen, at)
                    && seen[at] == best.value && bd == NameDist(name, best.value)
      {
        var d := Edist(name, scopes[s][n]);
        if d > 0 && d < bd && d <= th {
          bd, best, at := d, Some(scopes[s][n]), |seen|;
        }
        seen := seen + [scopes[s][n]];
      }
      assert scopes[..s + 1][..s] == scopes[..s] && scopes[s][..|scopes[s]|] == scopes[s];
    }
    assert scopes[..|scopes|] == scopes;
  }
}
