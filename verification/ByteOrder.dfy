/** The order of `bytes.Compare`, and sorting by it. */
module ByteOrder {
  import opened Terms

  /** `bytes.Compare(a, b) <= 0`. */
  predicate Leq(a: Bytes, b: Bytes) {
    a == [] || (b != [] && (a[0] < b[0] || (a[0] == b[0] && Leq(a[1..], b[1..]))))
  }

  predicate Less(a: Bytes, b: Bytes) { !Leq(b, a) }

  lemma {:induction false} LeqTotal(a: Bytes, b: Bytes)
    ensures Leq(a, b) || Leq(b, a)
  {
    if a != [] && b != [] { LeqTotal(a[1..], b[1..]); }
  }

  lemma {:induction false} LeqAntisymmetric(a: Bytes, b: Bytes)
    requires Leq(a, b) && Leq(b, a)
    ensures a == b
  {
    if a != [] && b != [] {
      LeqAntisymmetric(a[1..], b[1..]);
      assert a == [a[0]] + a[1..] && b == [b[0]] + b[1..];
    }
  }

  lemma {:induction false} LeqTransitive(a: Bytes, b: Bytes, c: Bytes)
    requires Leq(a, b) && Leq(b, c)
    ensures Leq(a, c)
  {
    if a != [] && a[0] == b[0] == c[0] { LeqTransitive(a[1..], b[1..], c[1..]); }
  }

  /** The order is decided at the first difference, a prefix coming first. */
  lemma {:induction false} FirstDifferenceDecides(common: Bytes, s: Bytes, t: Bytes)
    requires s != [] && t != [] ==> s[0] != t[0]
    ensures Leq(common + s, common + t) <==> s == [] || (t != [] && s[0] < t[0])
  {
    if common == [] {
      assert common + s == s && common + t == t;
    } else {
      FirstDifferenceDecides(common[1..], s, t);
      assert (common + s)[1..] == common[1..] + s && (common + t)[1..] == common[1..] + t;
    }
  }

  predicate Sorted(s: seq<Bytes>) {
    forall i, j :: 0 <= i < j < |s| ==> Leq(s[i], s[j])
  }

  function Insert(x: Bytes, s: seq<Bytes>): seq<Bytes> {
    if s == [] then [x] else if Leq(x, s[0]) then [x] + s else [s[0]] + Insert(x, s[1..])
  }

  /** What `sort.Slice` returns under `bytes.Compare`: the sorted sequence is unique. */
  function Sort(s: seq<Bytes>): seq<Bytes> {
    if s == [] then [] else Insert(s[0], Sort(s[1..]))
  }

  lemma {:induction false} InsertElements(x: Bytes, s: seq<Bytes>)
    ensures multiset(Insert(x, s)) == multiset(s) + multiset{x}
  {
    if s != [] && !Leq(x, s[0]) {
      InsertElements(x, s[1..]);
      assert s == [s[0]] + s[1..];
    }
  }

  lemma {:induction false} InsertSorted(x: Bytes, s: seq<Bytes>)
    requires Sorted(s)
    ensures Sorted(Insert(x, s))
  {
    if s == [] {
    } else if Leq(x, s[0]) {
      forall j | 0 <= j < |s| ensures Leq(x, s[j]) {
        if j > 0 { LeqTransitive(x, s[0], s[j]); }
      }
    } else {
      LeqTotal(x, s[0]);
      InsertSorted(x, s[1..]);
      InsertElements(x, s[1..]);
      var t := Insert(x, s[1..]);
      forall j | 0 <= j < |t| ensures Leq(s[0], t[j]) {
        assert t[j] in multiset(t);
        assert t[j] == x || t[j] in s[1..];
      }
    }
  }

  lemma {:induction false} SortCorrect(s: seq<Bytes>)
    ensures Sorted(Sort(s)) && multiset(Sort(s)) == multiset(s)
  {
    if s != [] {
      SortCorrect(s[1..]);
      InsertSorted(s[0], Sort(s[1..]));
      InsertElements(s[0], Sort(s[1..]));
      assert s == [s[0]] + s[1..];
    }
  }

  lemma LeastFirst(a: seq<Bytes>, x: Bytes)
    requires Sorted(a) && x in a
    ensures Leq(a[0], x)
  {
    LeqTotal(x, x);
  }

  lemma HeadOff(a: seq<Bytes>)
    requires a != []
    ensures multiset(a[1..]) == multiset(a) - multiset{a[0]}
  {
    assert a == [a[0]] + a[1..];
  }

  /** Two sorted sequences with the same elements are equal. */
  lemma {:induction false} SortedUnique(a: seq<Bytes>, b: seq<Bytes>)
    requires Sorted(a) && Sorted(b) && multiset(a) == multiset(b)
    ensures a == b
  {
    if a == [] {
      assert |multiset(b)| == |b|;
    } else {
      assert a[0] in multiset(b) && b[0] in multiset(a);
      LeastFirst(a, b[0]);
      LeastFirst(b, a[0]);
      LeqAntisymmetric(a[0], b[0]);
      HeadOff(a);
      HeadOff(b);
      SortedUnique(a[1..], b[1..]);
    }
  }

  /** Sorting forgets the order of its input. */
  lemma SortIgnoresOrder(s: seq<Bytes>, t: seq<Bytes>)
    requires multiset(s) == multiset(t)
    ensures Sort(s) == Sort(t)
  {
    SortCorrect(s);
    SortCorrect(t);
    SortedUnique(Sort(s), Sort(t));
  }
}
