/** The order in which a `std::set<std::string>` lists its elements. */
module StringOrder {

  /** `operator<` of std::string, which compares byte by byte. */
  predicate Precedes(a: string, b: string) {
    b != "" && (a == "" || a[0] < b[0] || (a[0] == b[0] && Precedes(a[1..], b[1..])))
  }

  lemma {:induction false} PrecedesIsStrict(a: string, b: string)
    ensures Precedes(a, b) ==> a != b && !Precedes(b, a)
    ensures a != b ==> Precedes(a, b) || Precedes(b, a)
  {
    if a != "" && b != "" && a[0] == b[0] {
      PrecedesIsStrict(a[1..], b[1..]);
      assert a == [a[0]] + a[1..] && b == [b[0]] + b[1..];
    }
  }

  lemma {:induction false} PrecedesIsTransitive(a: string, b: string, c: string)
    requires Precedes(a, b) && Precedes(b, c)
    ensures Precedes(a, c)
  {
    if a != "" && a[0] == b[0] == c[0] {
      PrecedesIsTransitive(a[1..], b[1..], c[1..]);
    }
  }

  ghost predicate Ascending(order: seq<string>) {
    forall i, j :: 0 <= i < j < |order| ==> Precedes(order[i], order[j])
  }

  /** The elements of a set in ascending order: there is only one such sequence. */
  ghost predicate InOrder(order: seq<string>, names: set<string>) {
    multiset(order) == multiset(names) && Ascending(order)
  }

  lemma SameFirst(a: seq<string>, b: seq<string>)
    requires a != [] && b != [] && multiset(a) == multiset(b) && Ascending(a) && Ascending(b)
    ensures a[0] == b[0]
  {
    hide Precedes;
    assert a[0] in multiset(b) && b[0] in multiset(a);
    var i :| 0 <= i < |b| && b[i] == a[0];
    var j :| 0 <= j < |a| && a[j] == b[0];
    PrecedesIsStrict(a[0], b[0]);
  }

  lemma WithoutFirst(a: seq<string>)
    requires a != []
    ensures multiset(a[1..]) == multiset(a) - multiset{a[0]}
    ensures Ascending(a) ==> Ascending(a[1..])
  {
    assert a == [a[0]] + a[1..];
  }

  lemma {:induction false} OrderIsUnique(a: seq<string>, b: seq<string>)
    requires multiset(a) == multiset(b) && Ascending(a) && Ascending(b)
    ensures a == b
  {
    hide Precedes, Ascending;
    assert |multiset(a)| == |a| && |multiset(b)| == |b|;
    if a != [] {
      SameFirst(a, b);
      WithoutFirst(a);
      WithoutFirst(b);
      OrderIsUnique(a[1..], b[1..]);
      assert a == [a[0]] + a[1..] && b == [b[0]] + b[1..];
    }
  }

  /** The first element. */
  method Least(names: set<string>) returns (first: string)
    requires names != {}
    ensures first in names && forall x :: x in names && x != first ==> Precedes(first, x)
  {
    first :| first in names;
    var todo := names - {first};
    while todo != {}
      invariant todo <= names && first in names - todo
      invariant forall x :: x in names - todo && x != first ==> Precedes(first, x)
      decreases todo
    {
      var y :| y in todo;
      PrecedesIsStrict(first, y);
      if Precedes(y, first) {
        forall x | x in names - todo && x != first ensures Precedes(y, x) {
          PrecedesIsTransitive(y, first, x);
        }
        first := y;
      }
      todo := todo - {y};
    }
  }

  /** Iterating over the set. */
  method EnumerateInOrder(names: set<string>) returns (order: seq<string>)
    ensures InOrder(order, names)
  {
    hide Precedes;
    order := [];
    var todo := names;
    while todo != {}
      invariant todo <= names && multiset(order) == multiset(names - todo)
      invariant Ascending(order) && forall i, y :: 0 <= i < |order| && y in todo ==> Precedes(order[i], y)
      decreases todo
    {
      var x := Least(todo);
      assert names - (todo - {x}) == (names - todo) + {x};
      order := order + [x];
      todo := todo - {x};
    }
  }
}
