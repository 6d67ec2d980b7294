/**
 Levenshtein distance as the ASR benchmark computes it (asr/benchmark/metrics.py):
 a dynamic program that keeps two rows. The reference notion is the edit script;
 the distance is the least cost of a script that turns one sequence into the other.
 */
module EditDistance {

  /** One step of an edit script. */
  datatype Edit<T> = Keep(x: T) | Insert(y: T) | Delete(x: T) | Substitute(x: T, y: T)

  type Script<T> = seq<Edit<T>>

  function Reads<T>(e: Edit<T>): seq<T> { if e.Insert? then [] else [e.x] }

  function Writes<T>(e: Edit<T>): seq<T> {
    match e
    case Keep(x) => [x]
    case Insert(y) => [y]
    case Delete(_) => []
    case Substitute(_, y) => [y]
  }

  /** What a script reads. */
  function Source<T>(s: Script<T>): seq<T> {
    if s == [] then [] else Source(DropLast(s)) + Reads(Last(s))
  }

  /** What a script writes. */
  function Target<T>(s: Script<T>): seq<T> {
    if s == [] then [] else Target(DropLast(s)) + Writes(Last(s))
  }

  function StepCost<T>(e: Edit<T>): nat { if e.Keep? then 0 else 1 }

  function Cost<T>(s: Script<T>): nat {
    if s == [] then 0 else Cost(DropLast(s)) + StepCost(Last(s))
  }

  ghost predicate Turns<T>(s: Script<T>, a: seq<T>, b: seq<T>) {
    Source(s) == a && Target(s) == b
  }

  /** `d` is the least number of insertions, deletions and substitutions from `a` to `b`. */
  ghost predicate IsLeastCost<T(!new)>(d: nat, a: seq<T>, b: seq<T>) {
    && (exists s: Script<T> :: Turns(s, a, b) && Cost(s) == d)
    && (forall s: Script<T> :: Turns(s, a, b) ==> d <= Cost(s))
  }

  function Min(x: nat, y: nat): nat { if x <= y then x else y }

  function DropLast<T>(a: seq<T>): seq<T> requires a != [] { a[..|a| - 1] }

  function Last<T>(a: seq<T>): T requires a != [] { a[|a| - 1] }

  function Mismatch<T(==)>(x: T, y: T): nat { if x != y then 1 else 0 }

  /** The recurrence the two rows follow. */
  function Distance<T(==)>(a: seq<T>, b: seq<T>): nat
    decreases |a| + |b|
  {
    if a == [] then |b|
    else if b == [] then |a|
    else Min(Min(Distance(DropLast(a), b) + 1, Distance(a, DropLast(b)) + 1),
             Distance(DropLast(a), DropLast(b)) + Mismatch(Last(a), Last(b)))
  }

  // ----- the recurrence is the least cost over all scripts

  lemma Appended<T>(s: Script<T>, e: Edit<T>)
    ensures Source(s + [e]) == Source(s) + Reads(e)
    ensures Target(s + [e]) == Target(s) + Writes(e)
    ensures Cost(s + [e]) == Cost(s) + StepCost(e)
  {
    assert DropLast(s + [e]) == s;
  }

  lemma SplitLast<T>(a: seq<T>)
    requires a != []
    ensures a == DropLast(a) + [Last(a)]
  {
  }

  /** A script that attains the recurrence. */
  lemma {:induction false} Attained<T>(a: seq<T>, b: seq<T>) returns (s: Script<T>)
    ensures Turns(s, a, b) && Cost(s) == Distance(a, b)
    decreases |a| + |b|
  {
    if a == [] && b == [] {
      s := [];
      return;
    }
    var e;
    if a == [] || (b != [] && Distance(a, b) == Distance(a, DropLast(b)) + 1) {
      s := Attained(a, DropLast(b));
      SplitLast(b);
      e := Insert(Last(b));
    } else if b == [] || Distance(a, b) == Distance(DropLast(a), b) + 1 {
      s := Attained(DropLast(a), b);
      SplitLast(a);
      e := Delete(Last(a));
    } else {
      s := Attained(DropLast(a), DropLast(b));
      SplitLast(a);
      SplitLast(b);
      e := if Last(a) == Last(b) then Keep(Last(a)) else Substitute(Last(a), Last(b));
    }
    Appended(s, e);
    s := s + [e];
  }

  lemma InsertStep<T>(a: seq<T>, b: seq<T>, y: T)
    ensures Distance(a, b + [y]) <= Distance(a, b) + 1
  {
    assert DropLast(b + [y]) == b;
  }

  lemma DeleteStep<T>(a: seq<T>, b: seq<T>, x: T)
    ensures Distance(a + [x], b) <= Distance(a, b) + 1
  {
    assert DropLast(a + [x]) == a;
  }

  lemma ReplaceStep<T>(a: seq<T>, b: seq<T>, x: T, y: T)
    ensures Distance(a + [x], b + [y]) <= Distance(a, b) + (if x == y then 0 else 1)
  {
    assert DropLast(a + [x]) == a && DropLast(b + [y]) == b;
  }

  lemma LastStep<T>(a: seq<T>, b: seq<T>, e: Edit<T>)
    ensures Distance(a + Reads(e), b + Writes(e)) <= Distance(a, b) + StepCost(e)
  {
    assert a + [] == a && b + [] == b;
    match e
    case Keep(x) => ReplaceStep(a, b, x, x);
    case Insert(y) => InsertStep(a, b, y);
    case Delete(x) => DeleteStep(a, b, x);
    case Substitute(x, y) => ReplaceStep(a, b, x, y);
  }

  lemma {:induction false} ScriptBound<T>(s: Script<T>)
    ensures Distance(Source(s), Target(s)) <= Cost(s)
  {
    if s != [] {
      var p, e := DropLast(s), Last(s);
      SplitLast(s);
      ScriptBound(p);
      Appended(p, e);
      LastStep(Source(p), Target(p), e);
    }
  }

  lemma DistanceIsLeast<T(!new)>(a: seq<T>, b: seq<T>)
    ensures IsLeastCost(Distance(a, b), a, b)
  {
    var s := Attained(a, b);
    forall t: Script<T> | Turns(t, a, b) ensures Distance(a, b) <= Cost(t) {
      ScriptBound(t);
    }
  }

  // ----- the two-row program

  /** The recurrence over prefix lengths, as the program fills its cells. */
  function Cell<T(==)>(a: seq<T>, i: nat, b: seq<T>, j: nat): nat
    requires i <= |a| && j <= |b|
    decreases i + j
  {
    if i == 0 then j
    else if j == 0 then i
    else
      Min(Min(Cell(a, i - 1, b, j) + 1, Cell(a, i, b, j - 1) + 1),
          Cell(a, i - 1, b, j - 1) + Mismatch(a[i - 1], b[j - 1]))
  }

  lemma LongerPrefix<T>(a: seq<T>, i: nat)
    requires 0 < i <= |a|
    ensures a[..i] != [] && DropLast(a[..i]) == a[..i - 1] && Last(a[..i]) == a[i - 1]
  {
  }

  lemma {:induction false} CellIsDistance<T>(a: seq<T>, i: nat, b: seq<T>, j: nat)
    requires i <= |a| && j <= |b|
    ensures Cell(a, i, b, j) == Distance(a[..i], b[..j])
    decreases i + j
  {
    if i > 0 && j > 0 {
      CellIsDistance(a, i - 1, b, j);
      CellIsDistance(a, i, b, j - 1);
      CellIsDistance(a, i - 1, b, j - 1);
      LongerPrefix(a, i);
      LongerPrefix(b, j);
    }
  }

  predicate IsRow<T(==)>(row: seq<nat>, a: seq<T>, i: nat, b: seq<T>)
    requires i <= |a|
  {
    |row| == |b| + 1 && forall j :: 0 <= j <= |b| ==> row[j] == Cell(a, i, b, j)
  }

  method Levenshtein<T(==, !new)>(a: seq<T>, b: seq<T>) returns (d: nat)
    ensures IsLeastCost(d, a, b)
    ensures d == Distance(a, b)
  {
    DistanceIsLeast(a, b);
    if a == b {
      EqualMeansZero(a, b);
      return 0;
    }
    var prev: seq<nat> := seq(|b| + 1, j => j);
    for i := 0 to |a|
      invariant IsRow(prev, a, i, b)
    {
      prev := NextRow(a, i, b, prev);
    }
    CellIsDistance(a, |a|, b, |b|);
    assert a[..|a|] == a && b[..|b|] == b;
    d := prev[|b|];
  }

  /** The body of the outer loop: one row from the row above it. */
  method NextRow<T(==)>(a: seq<T>, i: nat, b: seq<T>, prev: seq<nat>) returns (cur: seq<nat>)
    requires i < |a| && IsRow(prev, a, i, b)
    ensures IsRow(cur, a, i + 1, b)
  {
    cur := [i + 1];
    for j := 0 to |b|
      invariant |cur| == j + 1
      invariant forall k :: 0 <= k <= j ==> cur[k] == Cell(a, i + 1, b, k)
    {
      cur := cur + [Min(Min(prev[j + 1] + 1, cur[j] + 1), prev[j] + Mismatch(a[i], b[j]))];
    }
  }

  // ----- the distance is a metric

  lemma {:induction false} KeepAll<T>(a: seq<T>) returns (s: Script<T>)
    ensures Turns(s, a, a) && Cost(s) == 0
  {
    if a == [] {
      s := [];
    } else {
      s := KeepAll(DropLast(a));
      SplitLast(a);
      Appended(s, Keep(Last(a)));
      s := s + [Keep(Last(a))];
    }
  }

  lemma {:induction false} FreeScriptsKeep<T>(s: Script<T>)
    requires Cost(s) == 0
    ensures Source(s) == Target(s)
  {
    if s != [] {
      FreeScriptsKeep(DropLast(s));
    }
  }

  lemma {:induction false} EqualMeansZero<T(!new)>(a: seq<T>, b: seq<T>)
    ensures Distance(a, b) == 0 <==> a == b
  {
    if a == b {
      var s := KeepAll(a);
      ScriptBound(s);
    }
    if Distance(a, b) == 0 {
      var s := Attained(a, b);
      FreeScriptsKeep(s);
    }
  }

  function Inverse<T>(e: Edit<T>): Edit<T> {
    match e
    case Keep(x) => Keep(x)
    case Insert(y) => Delete(y)
    case Delete(x) => Insert(x)
    case Substitute(x, y) => Substitute(y, x)
  }

  /** Undoing each step turns `b` into `a` at the same cost. */
  lemma {:induction false} Undo<T>(s: Script<T>) returns (r: Script<T>)
    ensures Turns(r, Target(s), Source(s)) && Cost(r) == Cost(s)
  {
    if s == [] {
      r := [];
    } else {
      r := Undo(DropLast(s));
      Appended(r, Inverse(Last(s)));
      r := r + [Inverse(Last(s))];
    }
  }

  lemma {:induction false} Symmetric<T(!new)>(a: seq<T>, b: seq<T>)
    ensures Distance(a, b) == Distance(b, a)
  {
    var s := Attained(a, b);
    var r := Undo(s);
    ScriptBound(r);
    var s' := Attained(b, a);
    var r' := Undo(s');
    ScriptBound(r');
  }

  /** What is left of two steps when the first writes the element the second reads. */
  function Fuse<T>(e: Edit<T>, f: Edit<T>): (r: Script<T>)
    requires !e.Delete? && !f.Insert?
    ensures |r| <= 1
  {
    match f
    case Keep(_) => [e]
    case Delete(_) => if e.Insert? then [] else [Delete(e.x)]
    case Substitute(_, z) => if e.Insert? then [Insert(z)] else [Substitute(e.x, z)]
  }

  /** Two scripts run one after the other, fused into a single script. */
  lemma {:induction false} Compose<T>(s: Script<T>, t: Script<T>) returns (r: Script<T>)
    requires Target(s) == Source(t)
    ensures Turns(r, Source(s), Target(t)) && Cost(r) <= Cost(s) + Cost(t)
    decreases |s| + |t|
  {
    if s != [] && Last(s).Delete? {
      r := Compose(DropLast(s), t);
      Appended(r, Last(s));
      r := r + [Last(s)];
    } else if t != [] && Last(t).Insert? {
      r := Compose(s, DropLast(t));
      Appended(r, Last(t));
      r := r + [Last(t)];
    } else if s == [] || t == [] {
      r := [];
    } else {
      SameLast(Target(DropLast(s)), Writes(Last(s)), Source(DropLast(t)), Reads(Last(t)));
      r := Compose(DropLast(s), DropLast(t));
      r := ComposeLast(r, Last(s), Last(t));
    }
  }

  lemma SameLast<T>(p: seq<T>, x: seq<T>, q: seq<T>, y: seq<T>)
    requires p + x == q + y && |x| == |y| == 1
    ensures p == q && x == y
  {
    assert p == (p + x)[..|p|] && q == (q + y)[..|q|];
    assert x == (p + x)[|p|..] && y == (q + y)[|q|..];
  }

  lemma ComposeLast<T>(p: Script<T>, e: Edit<T>, f: Edit<T>) returns (r: Script<T>)
    requires !e.Delete? && !f.Insert? && Writes(e) == Reads(f)
    ensures Source(r) == Source(p) + Reads(e)
    ensures Target(r) == Target(p) + Writes(f)
    ensures Cost(r) <= Cost(p) + StepCost(e) + StepCost(f)
  {
    r := p;
    if Fuse(e, f) != [] {
      Appended(p, Fuse(e, f)[0]);
      r := p + [Fuse(e, f)[0]];
    }
  }

  lemma {:induction false} TriangleInequality<T(!new)>(a: seq<T>, b: seq<T>, c: seq<T>)
    ensures Distance(a, c) <= Distance(a, b) + Distance(b, c)
  {
    var s := Attained(a, b);
    var t := Attained(b, c);
    var r := Compose(s, t);
    ScriptBound(r);
  }

  lemma {:induction false} WithinLengths<T(!new)>(a: seq<T>, b: seq<T>)
    ensures |a| - |b| <= Distance(a, b) && |b| - |a| <= Distance(a, b)
    ensures Distance(a, b) <= if |a| < |b| then |b| else |a|
    decreases |a| + |b|
  {
    if a != [] && b != [] {
      WithinLengths(DropLast(a), b);
      WithinLengths(a, DropLast(b));
      WithinLengths(DropLast(a), DropLast(b));
    }
  }
}
