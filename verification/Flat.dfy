/** Concatenation of a list of sequences, and where each part lies in it. */
module Flat {
  import opened Slices

  function Flatten<T>(parts: seq<seq<T>>): seq<T> {
    if parts == [] then [] else parts[0] + Flatten(parts[1..])
  }

  /** The offset of part `i`. */
  function Offset<T>(parts: seq<seq<T>>, i: nat): nat
    requires i <= |parts|
  {
    |Flatten(parts[..i])|
  }

  lemma {:induction false} FlattenAppend<T>(a: seq<seq<T>>, b: seq<seq<T>>)
    ensures Flatten(a + b) == Flatten(a) + Flatten(b)
  {
    if a == [] {
      assert a + b == b;
    } else {
      FlattenAppend(a[1..], b);
      assert (a + b)[1..] == a[1..] + b;
      Associate(a[0], Flatten(a[1..]), Flatten(b));
    }
  }

  lemma FlattenNone<T>()
    ensures Flatten<T>([]) == []
  {
  }

  lemma FlattenOne<T>(part: seq<T>)
    ensures Flatten([part]) == part
  {
    assert [part][1..] == [];
  }

  lemma FlattenSplit<T>(parts: seq<seq<T>>, i: nat)
    requires i < |parts|
    ensures Flatten(parts[..i + 1]) == Flatten(parts[..i]) + parts[i]
    ensures Flatten(parts) == Flatten(parts[..i]) + parts[i] + Flatten(parts[i + 1..])
    ensures Offset(parts, i + 1) == Offset(parts, i) + |parts[i]| <= |Flatten(parts)|
  {
    hide Flatten;
    assert parts[..i + 1] == parts[..i] + [parts[i]];
    SplitAt(parts, i + 1);
    FlattenOne(parts[i]);
    FlattenAppend(parts[..i], [parts[i]]);
    FlattenAppend(parts[..i + 1], parts[i + 1..]);
  }

  /** Part `i` is found at its offset. */
  lemma FlattenPart<T>(parts: seq<seq<T>>, i: nat)
    requires i < |parts|
    ensures Offset(parts, i) + |parts[i]| <= |Flatten(parts)|
    ensures Flatten(parts)[Offset(parts, i)..Offset(parts, i) + |parts[i]|] == parts[i]
  {
    hide Flatten;
    FlattenSplit(parts, i);
    ThreeParts(Flatten(parts[..i]), parts[i], Flatten(parts[i + 1..]));
  }

  /** Replacing a part by one of the same length changes only its own span. */
  lemma FlattenUpdate<T>(parts: seq<seq<T>>, i: nat, part: seq<T>)
    requires i < |parts| && |part| == |parts[i]|
    ensures Offset(parts, i) + |part| <= |Flatten(parts)|
    ensures Flatten(parts[i := part]) ==
      Flatten(parts)[..Offset(parts, i)] + part + Flatten(parts)[Offset(parts, i) + |part|..]
  {
    hide Flatten;
    var parts' := parts[i := part];
    FlattenSplit(parts, i);
    FlattenSplit(parts', i);
    ThreeParts(Flatten(parts[..i]), parts[i], Flatten(parts[i + 1..]));
    assert parts'[..i] == parts[..i] && parts'[i + 1..] == parts[i + 1..];
  }

  /** Parts of one known length can be told apart in the concatenation. */
  lemma {:induction false} FlattenInjective<T>(a: seq<seq<T>>, b: seq<seq<T>>, n: nat)
    requires n > 0
    requires forall x :: x in a || x in b ==> |x| == n
    requires Flatten(a) == Flatten(b)
    ensures a == b
  {
    assert a != [] ==> |a[0]| == n;
    assert b != [] ==> |b[0]| == n;
    if a == [] || b == [] {
    } else {
      assert Flatten(a)[..n] == a[0] && Flatten(b)[..n] == b[0];
      assert Flatten(a)[n..] == Flatten(a[1..]) && Flatten(b)[n..] == Flatten(b[1..]);
      FlattenInjective(a[1..], b[1..], n);
      assert a == [a[0]] + a[1..] && b == [b[0]] + b[1..];
    }
  }
}
