/** Sorting under any order, and the one sorted list a set has. */
module Order {

  /** Total and transitive: enough to sort by. */
  ghost predicate Preorder<T(!new)>(le: (T, T) -> bool) {
    && (forall a, b :: le(a, b) || le(b, a))
    && (forall a, b, c :: le(a, b) && le(b, c) ==> le(a, c))
  }

  ghost predicate TotalOrder<T(!new)>(le: (T, T) -> bool) {
    Preorder(le) && forall a, b :: le(a, b) && le(b, a) ==> a == b
  }

  predicate IntLe(a: int, b: int) { a <= b }

  /** Go's order on strings. */
  predicate StrLe(a: string, b: string) {
    a == "" || (b != "" && (a[0] < b[0] || (a[0] == b[0] && StrLe(a[1..], b[1..]))))
  }

  lemma {:induction false} StrLeTotal(a: string, b: string)
    ensures StrLe(a, b) || StrLe(b, a)
    ensures StrLe(a, b) && StrLe(b, a) ==> a == b
  {
    if a != "" && b != "" {
      StrLeTotal(a[1..], b[1..]);
      assert a == [a[0]] + a[1..] && b == [b[0]] + b[1..];
    }
  }

  lemma {:induction false} StrLeTrans(a: string, b: string, c: string)
    requires StrLe(a, b) && StrLe(b, c)
    ensures StrLe(a, c)
  {
    if a != "" && b != "" && c != "" && a[0] == b[0] == c[0] { StrLeTrans(a[1..], b[1..], c[1..]); }
  }

  lemma StrLeOrders()
    ensures TotalOrder(StrLe)
  {
    forall a: string, b: string ensures (StrLe(a, b) || StrLe(b, a)) && (StrLe(a, b) && StrLe(b, a) ==> a == b) {
      StrLeTotal(a, b);
    }
    forall a: string, b: string, c: string | StrLe(a, b) && StrLe(b, c) ensures StrLe(a, c) {
      StrLeTrans(a, b, c);
    }
  }

  ghost predicate Sorted<T(!new)>(s: seq<T>, le: (T, T) -> bool) {
    forall i, j :: 0 <= i < j < |s| ==> le(s[i], s[j])
  }

  function Insert<T>(x: T, s: seq<T>, le: (T, T) -> bool): seq<T> {
    if s == [] || le(x, s[0]) then [x] + s else [s[0]] + Insert(x, s[1..], le)
  }

  function Sort<T>(s: seq<T>, le: (T, T) -> bool): seq<T> {
    if s == [] then [] else Insert(s[0], Sort(s[1..], le), le)
  }

  lemma {:induction false} InsertSorted<T(!new)>(x: T, s: seq<T>, le: (T, T) -> bool)
    requires Preorder(le) && Sorted(s, le)
    ensures Sorted(Insert(x, s, le), le)
    ensures multiset(Insert(x, s, le)) == multiset(s) + multiset{x}
  {
    if s != [] {
      assert s == [s[0]] + s[1..];
      if le(x, s[0]) {
        forall j | 0 <= j < |s| ensures le(x, s[j]) {
          assert j > 0 ==> le(s[0], s[j]);
        }
      } else {
        InsertSorted(x, s[1..], le);
        var r := Insert(x, s[1..], le);
        forall j | 0 <= j < |r| ensures le(s[0], r[j]) {
          assert r[j] in multiset(r);
          assert r[j] == x || r[j] in s[1..];
        }
      }
    }
  }

  lemma {:induction false} SortSorts<T(!new)>(s: seq<T>, le: (T, T) -> bool)
    requires Preorder(le)
    ensures Sorted(Sort(s, le), le) && multiset(Sort(s, le)) == multiset(s)
  {
    if s != [] {
      SortSorts(s[1..], le);
      InsertSorted(s[0], Sort(s[1..], le), le);
      assert s == [s[0]] + s[1..];
    }
  }

  /** What is sorted stays as it is. */
  lemma {:induction false} SortFixed<T(!new)>(s: seq<T>, le: (T, T) -> bool)
    requires Sorted(s, le)
    ensures Sort(s, le) == s
  {
    if s != [] {
      SortFixed(s[1..], le);
      assert s == [s[0]] + s[1..];
    }
  }

  lemma HeadsAgree<T(!new)>(a: seq<T>, b: seq<T>, le: (T, T) -> bool)
    requires TotalOrder(le) && Sorted(a, le) && Sorted(b, le)
    requires a != [] && b != [] && a[0] in b && b[0] in a
    ensures a[0] == b[0]
  {
    var i :| 0 <= i < |b| && b[i] == a[0];
    var j :| 0 <= j < |a| && a[j] == b[0];
    assert le(b[0], b[i]) && le(a[0], a[j]);
  }

  lemma TailSorted<T(!new)>(s: seq<T>, le: (T, T) -> bool)
    requires s != [] && Sorted(s, le)
    ensures Sorted(s[1..], le)
  {
  }

  lemma TailBag<T>(s: seq<T>)
    requires s != []
    ensures multiset(s[1..]) == multiset(s) - multiset{s[0]}
  {
    assert s == [s[0]] + s[1..];
  }

  /** Sorting leaves nothing of the order the elements came in. */
  lemma {:induction false} SortedUnique<T(!new)>(a: seq<T>, b: seq<T>, le: (T, T) -> bool)
    requires TotalOrder(le) && Sorted(a, le) && Sorted(b, le) && multiset(a) == multiset(b)
    ensures a == b
  {
    if a == [] || b == [] {
      assert |multiset(a)| == |multiset(b)|;
    } else {
      assert a[0] in multiset(b) && b[0] in multiset(a);
      HeadsAgree(a, b, le);
      TailBag(a);
      TailBag(b);
      TailSorted(a, le);
      TailSorted(b, le);
      SortedUnique(a[1..], b[1..], le);
      assert a == [a[0]] + a[1..] && b == [b[0]] + b[1..];
    }
  }

  /** The sorted list of a set. */
  ghost function SortedOf<T(!new)>(s: set<T>, le: (T, T) -> bool): (r: seq<T>)
    requires Preorder(le)
    ensures Sorted(r, le) && multiset(r) == multiset(s)
  {
    if s == {} then []
    else
      var x :| x in s;
      var rest := SortedOf(s - {x}, le);
      InsertSorted(x, rest, le);
      assert multiset(s) == multiset(s - {x}) + multiset{x};
      Insert(x, rest, le)
  }

  lemma ElementsOfSorted<T(!new)>(s: set<T>, le: (T, T) -> bool)
    requires Preorder(le)
    ensures forall x :: x in SortedOf(s, le) <==> x in s
    ensures SortedOf(s, le) == [] <==> s == {}
  {
    var r := SortedOf(s, le);
    forall x ensures x in r <==> x in s {
      assert x in r <==> x in multiset(r);
    }
    if s != {} {
      var x :| x in s;
      assert x in r;
    }
  }

  /** Collecting a set in any order and sorting gives its sorted list. */
  method CollectSorted<T(!new, ==)>(s: set<T>, le: (T, T) -> bool) returns (r: seq<T>)
    requires TotalOrder(le)
    ensures r == SortedOf(s, le)
  {
    r := [];
    var rest := s;
    while rest != {}
      invariant rest <= s && multiset(r) == multiset(s - rest)
      decreases rest
    {
      var x :| x in rest;
      assert s - (rest - {x}) == (s - rest) + {x};
      r, rest := r + [x], rest - {x};
    }
    assert s - rest == s;
    SortSorts(r, le);
    r := Sort(r, le);
    SortedUnique(r, SortedOf(s, le), le);
  }

  /** The strings of a set, in Go's order. */
  ghost function SortedStrings(s: set<string>): seq<string> {
    StrLeOrders();
    SortedOf(s, StrLe)
  }

  method CollectStrings(s: set<string>) returns (r: seq<string>)
    ensures r == SortedStrings(s)
    ensures forall x :: x in r <==> x in s
  {
    StrLeOrders();
    ElementsOfSorted(s, StrLe);
    r := CollectSorted(s, StrLe);
  }
}
