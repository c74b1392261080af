/** The edit distance behind "did you mean": the two-row table of `levenshtein` against the
    least cost of any edit script. Words are sequences of runes. */
module EditDistance {

  datatype Op = Keep(c: char) | Substitute(c: char, d: char) | Delete(c: char) | Insert(d: char)

  /** An edit script from left to right; it fixes both the word it starts from and its result. */
  type Script = seq<Op>

  /** What an operation takes from the word and what it leaves in its place. */
  function Read(op: Op): string { if op.Insert? then "" else [op.c] }

  function Write(op: Op): string { if op.Delete? then "" else if op.Keep? then [op.c] else [op.d] }

  function Source(s: Script): string {
    if s == [] then "" else Source(s[..|s| - 1]) + Read(s[|s| - 1])
  }

  function Target(s: Script): string {
    if s == [] then "" else Target(s[..|s| - 1]) + Write(s[|s| - 1])
  }

  function Cost(s: Script): nat {
    if s == [] then 0 else Cost(s[..|s| - 1]) + if s[|s| - 1].Keep? then 0 else 1
  }

  predicate Turns(s: Script, a: string, b: string) { Source(s) == a && Target(s) == b }

  /** `d` is the least cost of any script that turns `a` into `b`. */
  ghost predicate Least(a: string, b: string, d: nat) {
    && (exists s :: Turns(s, a, b) && Cost(s) == d)
    && (forall s :: Turns(s, a, b) ==> d <= Cost(s))
  }

  function Min(x: nat, y: nat): nat { if y < x then y else x }

  /** The cheapest of the three ways into a cell. */
  function Cheapest(del: nat, ins: nat, sub: nat): nat { Min(Min(del, ins), sub) }

  function Price(c: char, d: char): nat { if c != d then 1 else 0 }

  /** Cells 0 to j of the row that follows `prev` when the next rune is `c`. */
  function Fill(prev: seq<nat>, c: char, b: string, j: nat): (r: seq<nat>)
    requires |prev| == |b| + 1 && j <= |b|
    ensures |r| == j + 1
  {
    if j == 0 then [prev[0] + 1] else
      var r := Fill(prev, c, b, j - 1);
      r + [Cheapest(prev[j] + 1, r[j - 1] + 1, prev[j - 1] + Price(c, b[j - 1]))]
  }

  function FirstRow(n: nat): (r: seq<nat>)
    ensures |r| == n + 1 && forall j :: 0 <= j <= n ==> r[j] == j
  {
    if n == 0 then [0] else FirstRow(n - 1) + [n]
  }

  /** Row i of the dynamic program's table. */
  function Row(a: string, b: string, i: nat): (r: seq<nat>)
    requires i <= |a|
    ensures |r| == |b| + 1
  {
    if i == 0 then FirstRow(|b|) else Fill(Row(a, b, i - 1), a[i - 1], b, |b|)
  }

  function Entry(a: string, b: string, i: nat, j: nat): nat
    requires i <= |a| && j <= |b|
  {
    Row(a, b, i)[j]
  }

  lemma {:induction false} FillPrefix(prev: seq<nat>, c: char, b: string, j: nat, k: nat)
    requires |prev| == |b| + 1 && k <= j <= |b|
    ensures Fill(prev, c, b, j)[..k + 1] == Fill(prev, c, b, k)
  {
    if k < j {
      FillPrefix(prev, c, b, j - 1, k);
      assert Fill(prev, c, b, j)[..j] == Fill(prev, c, b, j - 1);
    }
  }

  lemma FillCell(prev: seq<nat>, c: char, b: string, j: nat)
    requires |prev| == |b| + 1 && j <= |b|
    ensures var r := Fill(prev, c, b, |b|);
      r[j] == if j == 0 then prev[0] + 1 else Cheapest(prev[j] + 1, r[j - 1] + 1, prev[j - 1] + Price(c, b[j - 1]))
  {
    FillPrefix(prev, c, b, |b|, j);
    var r, s := Fill(prev, c, b, |b|), Fill(prev, c, b, j);
    assert r[j] == r[..j + 1][j];
    if j > 0 { assert r[j - 1] == r[..j + 1][j - 1]; }
  }

  /** The edges of the table. */
  lemma {:induction false} EntryEdge(a: string, b: string, i: nat, j: nat)
    requires i <= |a| && j <= |b|
    ensures Entry(a, b, i, 0) == i && Entry(a, b, 0, j) == j
  {
    if i > 0 {
      EntryEdge(a, b, i - 1, j);
      FillCell(Row(a, b, i - 1), a[i - 1], b, 0);
    }
  }

  /** The recurrence inside the table. */
  lemma EntryCell(a: string, b: string, i: nat, j: nat)
    requires 0 < i <= |a| && 0 < j <= |b|
    ensures Entry(a, b, i, j) ==
            Cheapest(Entry(a, b, i - 1, j) + 1, Entry(a, b, i, j - 1) + 1, Entry(a, b, i - 1, j - 1) + Price(a[i - 1], b[j - 1]))
  {
    FillCell(Row(a, b, i - 1), a[i - 1], b, j);
  }

  function Table(a: string, b: string): nat { Entry(a, b, |a|, |b|) }

  /** The last operation of a script that costs what the entry says. */
  function LastOp(a: string, b: string, i: nat, j: nat): Op
    requires i <= |a| && j <= |b| && (i > 0 || j > 0)
  {
    if i == 0 then Insert(b[j - 1])
    else if j == 0 || Entry(a, b, i, j) == Entry(a, b, i - 1, j) + 1 then Delete(a[i - 1])
    else if Entry(a, b, i, j) == Entry(a, b, i, j - 1) + 1 then Insert(b[j - 1])
    else if a[i - 1] == b[j - 1] then Keep(a[i - 1])
    else Substitute(a[i - 1], b[j - 1])
  }

  /** How far before (i, j) an operation starts. */
  function Back(op: Op, i: nat, j: nat): (nat, nat)
    requires (op.Insert? || i > 0) && (op.Delete? || j > 0)
  {
    (if op.Insert? then i else i - 1, if op.Delete? then j else j - 1)
  }

  lemma LastOpFits(a: string, b: string, i: nat, j: nat)
    requires i <= |a| && j <= |b| && (i > 0 || j > 0)
    ensures var op := LastOp(a, b, i, j);
      && (op.Insert? || i > 0) && (op.Delete? || j > 0)
      && var (i', j') := Back(op, i, j);
      && Entry(a, b, i, j) == Entry(a, b, i', j') + (if op.Keep? then 0 else 1)
      && a[..i] == a[..i'] + Read(op) && b[..j] == b[..j'] + Write(op)
  {
    EntryEdges(a, b, i, j);
    if i > 0 && j > 0 { EntryCell(a, b, i, j); }
  }

  lemma EntryEdges(a: string, b: string, i: nat, j: nat)
    requires i <= |a| && j <= |b|
    ensures i == 0 ==> Entry(a, b, i, j) == j && (j > 0 ==> Entry(a, b, i, j - 1) == j - 1)
    ensures j == 0 ==> Entry(a, b, i, j) == i && (i > 0 ==> Entry(a, b, i - 1, j) == i - 1)
  {
    EntryEdge(a, b, i, j);
    if j > 0 { EntryEdge(a, b, i, j - 1); }
    if i > 0 { EntryEdge(a, b, i - 1, j); }
  }

  lemma Extend(s: Script, op: Op)
    ensures Source(s + [op]) == Source(s) + Read(op) && Target(s + [op]) == Target(s) + Write(op)
    ensures Cost(s + [op]) == Cost(s) + if op.Keep? then 0 else 1
  {
    assert (s + [op])[..|s|] == s;
  }

  /** Some script has the cost of the entry. */
  lemma {:induction false} BestAchieves(a: string, b: string, i: nat, j: nat) returns (s: Script)
    requires i <= |a| && j <= |b|
    ensures Turns(s, a[..i], b[..j]) && Cost(s) == Entry(a, b, i, j)
    decreases i + j
  {
    if i == 0 && j == 0 {
      EntryEdge(a, b, i, j);
      s := [];
    } else {
      LastOpFits(a, b, i, j);
      var op := LastOp(a, b, i, j);
      var (i', j') := Back(op, i, j);
      s := BestAchieves(a, b, i', j');
      Extend(s, op);
      s := s + [op];
    }
  }

  /** An operation that ends at (i, j) starts where the entry is at most its cost less. */
  lemma EntryStep(a: string, b: string, i: nat, j: nat, x: string, y: string, op: Op)
    requires i <= |a| && j <= |b| && a[..i] == x + Read(op) && b[..j] == y + Write(op)
    ensures (op.Insert? || i > 0) && (op.Delete? || j > 0)
    ensures var (i', j') := Back(op, i, j);
      && x == a[..i'] && y == b[..j']
      && Entry(a, b, i, j) <= Entry(a, b, i', j') + if op.Keep? then 0 else 1
  {
    assert |x| + |Read(op)| == i && |y| + |Write(op)| == j;
    assert x == a[..i][..|x|] && y == b[..j][..|y|];
    if op.Keep? || op.Substitute? { assert a[..i][|x|] == op.c && b[..j][|y|] == Write(op)[0]; }
    EntryEdges(a, b, i, j);
    if i > 0 && j > 0 { EntryCell(a, b, i, j); }
  }

  lemma {:induction false} NoScriptIsCheaper(a: string, b: string, i: nat, j: nat, s: Script)
    requires i <= |a| && j <= |b| && Turns(s, a[..i], b[..j])
    ensures Entry(a, b, i, j) <= Cost(s)
    decreases |s|
  {
    if s == [] {
      assert |a[..i]| == i && |b[..j]| == j;
      EntryEdge(a, b, i, j);
    } else {
      var n := |s| - 1;
      EntryStep(a, b, i, j, Source(s[..n]), Target(s[..n]), s[n]);
      var (i', j') := Back(s[n], i, j);
      NoScriptIsCheaper(a, b, i', j', s[..n]);
    }
  }

  /** The table holds the least cost of any edit script. */
  lemma TableIsLeast(a: string, b: string)
    ensures Least(a, b, Table(a, b))
  {
    assert a[..|a|] == a && b[..|b|] == b;
    var best := BestAchieves(a, b, |a|, |b|);
    forall s | Turns(s, a, b) ensures Table(a, b) <= Cost(s) { NoScriptIsCheaper(a, b, |a|, |b|, s); }
  }

  lemma LeastUnique(a: string, b: string, d: nat)
    requires Least(a, b, d)
    ensures d == Table(a, b)
  {
    TableIsLeast(a, b);
  }

  /** The end of the inner loop's body: the cell gets the least of the three. */
  method SetCell(cur: array<nat>, j: nat, del: nat, ins: nat, sub: nat)
    requires j < cur.Length
    modifies cur
    ensures cur[..] == old(cur[..])[j := Cheapest(del, ins, sub)]
  {
    cur[j] := del;
    if ins < cur[j] { cur[j] := ins; }
    if sub < cur[j] { cur[j] := sub; }
  }

  /** The inner loop: row i from row i - 1. */
  method NextRow(a: string, b: string, i: nat, prev: array<nat>) returns (cur: array<nat>)
    requires 1 <= i <= |a| && prev[..] == Row(a, b, i - 1)
    ensures fresh(cur) && cur[..] == Row(a, b, i)
  {
    ghost var above := prev[..];
    cur := new nat[|b| + 1];
    cur[0] := i;
    EntryEdge(a, b, i - 1, 0);
    assert prev[0] == above[0];
    for j := 1 to |b| + 1
      invariant prev[..] == above
      invariant cur[..j] == Fill(above, a[i - 1], b, j - 1)
    {
      assert prev[j] == above[j] && prev[j - 1] == above[j - 1];
      ghost var done := cur[..j];
      assert cur[j - 1] == done[j - 1];
      var cost := if a[i - 1] != b[j - 1] then 1 else 0;
      var del, ins, sub := prev[j] + 1, cur[j - 1] + 1, prev[j - 1] + cost;
      SetCell(cur, j, del, ins, sub);
      assert cur[..j + 1] == done + [Cheapest(del, ins, sub)];
    }
    assert cur[..] == cur[..|b| + 1];
  }

  /** The two-row dynamic program returns the least cost of any edit script. */
  method Levenshtein(a: string, b: string) returns (r: nat)
    ensures Least(a, b, r)
  {
    var prev := new nat[|b| + 1](j => j);
    assert prev[..] == FirstRow(|b|);
    for i := 1 to |a| + 1
      invariant prev[..] == Row(a, b, i - 1)
    {
      prev := NextRow(a, b, i, prev);
    }
    TableIsLeast(a, b);
    r := prev[|b|];
    assert r == prev[..][|b|];
  }

  // ---- the distance is a metric ----

  lemma {:induction false} FreeScriptChangesNothing(s: Script)
    requires Cost(s) == 0
    ensures Source(s) == Target(s)
  {
    if s != [] { FreeScriptChangesNothing(s[..|s| - 1]); }
  }

  lemma {:induction false} SameWordIsFree(a: string, i: nat)
    requires i <= |a|
    ensures Entry(a, a, i, i) == 0
  {
    if i == 0 { EntryEdge(a, a, 0, 0); } else {
      SameWordIsFree(a, i - 1);
      EntryCell(a, a, i, i);
    }
  }

  /** Distance zero means equal words, and only then. */
  lemma ZeroIffEqual(a: string, b: string, d: nat)
    requires Least(a, b, d)
    ensures d == 0 <==> a == b
  {
    LeastUnique(a, b, d);
    var s :| Turns(s, a, b) && Cost(s) == d;
    if d == 0 { FreeScriptChangesNothing(s); }
    if a == b { SameWordIsFree(a, |a|); }
  }

  function Undo(op: Op): Op {
    match op
    case Keep(c) => Keep(c)
    case Substitute(c, d) => Substitute(d, c)
    case Delete(c) => Insert(c)
    case Insert(d) => Delete(d)
  }

  function Flip(s: Script): Script {
    if s == [] then [] else Flip(s[..|s| - 1]) + [Undo(s[|s| - 1])]
  }

  lemma {:induction false} FlipTurnsBack(s: Script)
    ensures Source(Flip(s)) == Target(s) && Target(Flip(s)) == Source(s) && Cost(Flip(s)) == Cost(s)
  {
    if s != [] {
      FlipTurnsBack(s[..|s| - 1]);
      Extend(Flip(s[..|s| - 1]), Undo(s[|s| - 1]));
    }
  }

  lemma Symmetric(a: string, b: string, d: nat, e: nat)
    requires Least(a, b, d) && Least(b, a, e)
    ensures d == e
  {
    var s :| Turns(s, a, b) && Cost(s) == d;
    var t :| Turns(t, b, a) && Cost(t) == e;
    FlipTurnsBack(s);
    FlipTurnsBack(t);
    assert Turns(Flip(s), b, a) && Turns(Flip(t), a, b);
  }

  /** One script that does the work of `s` and then `t`, at no more than their joint cost. */
  lemma {:induction false} Compose(s: Script, t: Script) returns (u: Script)
    requires Target(s) == Source(t)
    ensures Turns(u, Source(s), Target(t)) && Cost(u) <= Cost(s) + Cost(t)
    decreases |s| + |t|
  {
    if s != [] && s[|s| - 1].Delete? {
      var s' := s[..|s| - 1];
      assert Target(s) == Target(s') + "" == Target(s');
      var v := Compose(s', t);
      Extend(v, s[|s| - 1]);
      u := v + [s[|s| - 1]];
    } else if t != [] && t[|t| - 1].Insert? {
      var t' := t[..|t| - 1];
      assert Source(t) == Source(t') + "" == Source(t');
      var v := Compose(s, t');
      Extend(v, t[|t| - 1]);
      u := v + [t[|t| - 1]];
    } else if s == [] || t == [] {
      u := [];
    } else {
      var s', t', x, y := s[..|s| - 1], t[..|t| - 1], s[|s| - 1], t[|t| - 1];
      SameMiddle(s, t);
      var v := Compose(s', t');
      if x.Insert? && y.Delete? {
        assert Source(s) == Source(s') + "" == Source(s') && Target(t) == Target(t') + "" == Target(t');
        u := v;
      } else {
        var op := Joined(x, y);
        Extend(v, op);
        u := v + [op];
      }
    }
  }

  /** One operation for two that meet on the same rune; an insertion then deletion is none. */
  function Joined(x: Op, y: Op): Op
    requires !x.Delete? && !y.Insert? && !(x.Insert? && y.Delete?)
  {
    match (x, y)
    case (Keep(_), _) => y
    case (_, Keep(_)) => x
    case (Substitute(c, _), Substitute(_, d)) => Substitute(c, d)
    case (Substitute(c, _), Delete(_)) => Delete(c)
    case (Insert(_), Substitute(_, d)) => Insert(d)
  }

  function Written(x: Op): char
    requires !x.Delete?
  {
    if x.Keep? then x.c else x.d
  }

  lemma SameMiddle(s: Script, t: Script)
    requires Target(s) == Source(t) && s != [] && t != []
    requires !s[|s| - 1].Delete? && !t[|t| - 1].Insert?
    ensures Target(s[..|s| - 1]) == Source(t[..|t| - 1]) && Written(s[|s| - 1]) == t[|t| - 1].c
  {
    var a, b := Target(s[..|s| - 1]), Source(t[..|t| - 1]);
    assert Target(s) == a + [Written(s[|s| - 1])] && Source(t) == b + [t[|t| - 1].c];
    assert a == Target(s)[..|a|] && b == Source(t)[..|b|];
  }

  lemma TriangleInequality(a: string, b: string, c: string, ab: nat, bc: nat, ac: nat)
    requires Least(a, b, ab) && Least(b, c, bc) && Least(a, c, ac)
    ensures ac <= ab + bc
  {
    var s :| Turns(s, a, b) && Cost(s) == ab;
    var t :| Turns(t, b, c) && Cost(t) == bc;
    var u := Compose(s, t);
  }

  lemma {:induction false} ScriptLengths(s: Script)
    ensures |Target(s)| <= |Source(s)| + Cost(s) && |Source(s)| <= |Target(s)| + Cost(s)
  {
    if s != [] { ScriptLengths(s[..|s| - 1]); }
  }

  /** No entry exceeds the longer of the two prefixes. */
  lemma {:induction false} EntryAtMost(a: string, b: string, i: nat, j: nat)
    requires i <= |a| && j <= |b|
    ensures Entry(a, b, i, j) <= if i < j then j else i
    decreases i
  {
    EntryEdge(a, b, i, j);
    if i > 0 && j > 0 {
      EntryAtMost(a, b, i - 1, j - 1);
      EntryCell(a, b, i, j);
    }
  }

  /** The distance lies between the difference of the lengths and the greater length, so from
      the empty word it is the length. */
  lemma DistanceBounds(a: string, b: string, d: nat)
    requires Least(a, b, d)
    ensures |b| - |a| <= d && |a| - |b| <= d && d <= if |a| < |b| then |b| else |a|
  {
    var s :| Turns(s, a, b) && Cost(s) == d;
    ScriptLengths(s);
    TableIsLeast(a, b);
    LeastUnique(a, b, d);
    EntryAtMost(a, b, |a|, |b|);
  }
}
