/**
Lists sorted by a text key with later duplicates dropped: a stable sort followed by removal of
adjacent equal keys.
*/
module SortedLists {
  import opened TextOrder

  ghost predicate AscendingBy<T(!new)>(s: seq<T>, key: T -> string) {
    forall i, j | 0 <= i < j < |s| :: Less(key(s[i]), key(s[j]))
  }

  /** Elements with equal keys are equal. */
  ghost predicate KeyDetermines<T(!new)>(s: seq<T>, key: T -> string) {
    forall x, y | x in s && y in s && key(x) == key(y) :: x == y
  }

  ghost predicate SameElements<T(!new)>(a: seq<T>, b: seq<T>) {
    forall x :: x in a <==> x in b
  }

  function Place<T>(x: T, s: seq<T>, key: T -> string): seq<T> {
    if s == [] || Less(key(x), key(s[0])) then [x] + s
    else if key(x) == key(s[0]) then [x] + s[1..]
    else [s[0]] + Place(x, s[1..], key)
  }

  function SortedUniqueBy<T>(s: seq<T>, key: T -> string): seq<T> {
    if s == [] then [] else Place(s[0], SortedUniqueBy(s[1..], key), key)
  }

  lemma {:induction false} PlaceElements<T(!new)>(x: T, s: seq<T>, key: T -> string)
    ensures x in Place(x, s, key)
    ensures forall y | y in Place(x, s, key) :: y == x || y in s
    ensures forall y | y in s :: y in Place(x, s, key) || key(y) == key(x)
  {
    if s != [] {
      assert forall y :: y in s <==> y == s[0] || y in s[1..];
      if !Less(key(x), key(s[0])) && key(x) != key(s[0]) {
        PlaceElements(x, s[1..], key);
      }
    }
  }

  lemma {:induction false} PlaceAscends<T(!new)>(x: T, s: seq<T>, key: T -> string)
    requires AscendingBy(s, key)
    ensures AscendingBy(Place(x, s, key), key)
  {
    if s == [] {
    } else if Less(key(x), key(s[0])) {
      forall j | 0 < j < |s| ensures Less(key(x), key(s[j])) {
        LessTransitive(key(x), key(s[0]), key(s[j]));
      }
    } else if key(x) != key(s[0]) {
      LessTotal(key(x), key(s[0]));
      PlaceAscends(x, s[1..], key);
      PlaceElements(x, s[1..], key);
      var rest := Place(x, s[1..], key);
      forall j | 0 <= j < |rest| ensures Less(key(s[0]), key(rest[j])) {
        assert rest[j] in rest;
      }
    }
  }

  lemma {:induction false} SortedUniqueAscends<T(!new)>(s: seq<T>, key: T -> string)
    ensures AscendingBy(SortedUniqueBy(s, key), key)
    ensures forall x | x in SortedUniqueBy(s, key) :: x in s
  {
    if s != [] {
      SortedUniqueAscends(s[1..], key);
      PlaceAscends(s[0], SortedUniqueBy(s[1..], key), key);
      PlaceElements(s[0], SortedUniqueBy(s[1..], key), key);
    }
  }

  /** Where keys determine elements nothing is lost. */
  lemma {:induction false} SortedUniqueKeeps<T(!new)>(s: seq<T>, key: T -> string)
    requires KeyDetermines(s, key)
    ensures SameElements(SortedUniqueBy(s, key), s)
  {
    SortedUniqueAscends(s, key);
    if s != [] {
      SortedUniqueKeeps(s[1..], key);
      PlaceElements(s[0], SortedUniqueBy(s[1..], key), key);
      assert forall y :: y in s <==> y == s[0] || y in s[1..];
    }
  }

  lemma AscendingHead<T(!new)>(s: seq<T>, key: T -> string, x: T)
    requires AscendingBy(s, key) && x in s
    ensures x == s[0] || Less(key(s[0]), key(x))
  {
    var i :| 0 <= i < |s| && s[i] == x;
  }

  lemma NonEmptyHas<T(!new)>(s: seq<T>)
    requires s != []
    ensures exists x :: x in s
  {
    assert s[0] in s;
  }

  /** A set of elements has one sorted list. */
  lemma {:induction false} AscendingUnique<T(!new)>(a: seq<T>, b: seq<T>, key: T -> string)
    requires AscendingBy(a, key) && AscendingBy(b, key) && SameElements(a, b)
    ensures a == b
  {
    if a == [] {
      if b != [] {
        NonEmptyHas(b);
        assert false;
      }
    } else {
      assert a[0] in a;
      AscendingHead(b, key, a[0]);
      assert b[0] in b;
      AscendingHead(a, key, b[0]);
      if a[0] != b[0] {
        LessTransitive(key(a[0]), key(b[0]), key(a[0]));
        LessIrreflexive(key(a[0]));
        assert false;
      }
      NotInTail(a, key);
      NotInTail(b, key);
      assert forall y :: y in a <==> y == a[0] || y in a[1..];
      assert forall y :: y in b <==> y == b[0] || y in b[1..];
      AscendingUnique(a[1..], b[1..], key);
      assert a == [a[0]] + a[1..] && b == [b[0]] + b[1..];
    }
  }

  lemma NotInTail<T(!new)>(s: seq<T>, key: T -> string)
    requires AscendingBy(s, key) && s != []
    ensures s[0] !in s[1..]
  {
    if s[0] in s[1..] {
      var i :| 0 < i < |s| && s[i] == s[0];
      LessIrreflexive(key(s[0]));
      assert false;
    }
  }

  /** Sorting forgets the order of its input. */
  lemma SortedUniqueForgetsOrder<T(!new)>(a: seq<T>, b: seq<T>, key: T -> string)
    requires KeyDetermines(a, key) && SameElements(a, b)
    ensures SortedUniqueBy(a, key) == SortedUniqueBy(b, key)
  {
    SortedUniqueAscends(a, key);
    SortedUniqueAscends(b, key);
    SortedUniqueKeeps(a, key);
    SortedUniqueKeeps(b, key);
    AscendingUnique(SortedUniqueBy(a, key), SortedUniqueBy(b, key), key);
  }
}
