/** Lists, and lists of lists. */
module Sequences {

  lemma Grouped<T>(a: seq<T>, b: seq<T>, c: seq<T>)
    ensures a + (b + c) == a + b + c
  {
  }

  lemma Whole<T>(s: seq<T>)
    ensures s[..|s|] == s
  {
  }

  lemma LastApart<T>(s: seq<T>)
    requires s != []
    ensures s == s[..|s| - 1] + [s[|s| - 1]]
  {
  }

  /** The parts, one after the other. */
  function Flatten<T>(parts: seq<seq<T>>): seq<T> {
    if parts == [] then [] else parts[0] + Flatten(parts[1..])
  }

  lemma {:induction false} FlattenNext<T>(parts: seq<seq<T>>, last: seq<T>)
    ensures Flatten(parts + [last]) == Flatten(parts) + last
  {
    var all := parts + [last];
    if parts == [] {
      assert all[1..] == [];
    } else {
      assert all[1..] == parts[1..] + [last];
      FlattenNext(parts[1..], last);
      assert parts[0] + (Flatten(parts[1..]) + last) == parts[0] + Flatten(parts[1..]) + last;
    }
  }

  lemma {:induction false} FlattenExact<T(!new)>(parts: seq<seq<T>>)
    ensures Flatten(parts) == [] <==> forall p | p in parts :: p == []
  {
    if parts != [] {
      FlattenExact(parts[1..]);
      assert parts[0] in parts && forall p :: p in parts <==> p == parts[0] || p in parts[1..];
      assert |Flatten(parts)| == |parts[0]| + |Flatten(parts[1..])|;
    }
  }

  lemma {:induction false} FlattenHolds<T(!new)>(parts: seq<seq<T>>, x: T)
    ensures x in Flatten(parts) <==> exists p :: p in parts && x in p
  {
    if parts != [] {
      FlattenHolds(parts[1..], x);
      assert parts[0] in parts && forall p :: p in parts <==> p == parts[0] || p in parts[1..];
    }
  }
}
