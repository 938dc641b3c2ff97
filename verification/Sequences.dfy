/** Splitting a sequence at a separator and joining it again: what `String.split` and
    `Array.join` do in the modelled sources, for any element type. */
module Sequences {

  /** The stretches of `s` between occurrences of `d`; there is always at least one. */
  function Split<T(==)>(s: seq<T>, d: T): (parts: seq<seq<T>>)
    ensures |parts| >= 1
  {
    if s == [] then [[]]
    else
      var rest := Split(s[1..], d);
      if s[0] == d then [[]] + rest
      else [[s[0]] + rest[0]] + rest[1..]
  }

  /** The parts with one separator between neighbours; nothing at all gives the empty sequence. */
  function Join<T>(parts: seq<seq<T>>, d: T): seq<T> {
    if parts == [] then []
    else if |parts| == 1 then parts[0]
    else parts[0] + [d] + Join(parts[1..], d)
  }

  ghost predicate AllFree<T>(parts: seq<seq<T>>, d: T) {
    forall i :: 0 <= i < |parts| ==> d !in parts[i]
  }

  lemma {:induction false} JoinSplit<T>(s: seq<T>, d: T)
    ensures Join(Split(s, d), d) == s
    ensures AllFree(Split(s, d), d)
  {
    if s != [] {
      JoinSplit(s[1..], d);
      var rest := Split(s[1..], d);
      if s[0] == d {
        assert Split(s, d)[1..] == rest;
        assert s == [s[0]] + s[1..];
      } else {
        var parts := Split(s, d);
        assert parts[1..] == rest[1..];
        assert s == [s[0]] + s[1..];
        if |rest| > 1 {
          assert Join(parts, d) == [s[0]] + (rest[0] + [d] + Join(rest[1..], d));
        }
      }
    }
  }

  lemma {:induction false} SplitFree<T>(s: seq<T>, d: T)
    requires d !in s
    ensures Split(s, d) == [s]
  {
    if s != [] {
      SplitFree(s[1..], d);
      assert s == [s[0]] + s[1..];
    }
  }

  /** Splitting distributes over a separator placed between two sequences. */
  lemma {:induction false} SplitConcat<T>(a: seq<T>, b: seq<T>, d: T)
    ensures Split(a + [d] + b, d) == Split(a, d) + Split(b, d)
  {
    var whole := a + [d] + b;
    if a == [] {
      assert whole[1..] == b;
    } else {
      assert whole[1..] == a[1..] + [d] + b;
      SplitConcat(a[1..], b, d);
    }
  }

  lemma {:induction false} SplitJoin<T>(parts: seq<seq<T>>, d: T)
    requires parts != [] && AllFree(parts, d)
    ensures Split(Join(parts, d), d) == parts
  {
    SplitFree(parts[0], d);
    if |parts| == 1 {
      assert parts == [parts[0]];
    } else {
      assert AllFree(parts[1..], d) by {
        forall i | 0 <= i < |parts[1..]| ensures d !in parts[1..][i] {
          assert parts[1..][i] == parts[i + 1];
        }
      }
      SplitJoin(parts[1..], d);
      SplitConcat(parts[0], Join(parts[1..], d), d);
      assert parts == [parts[0]] + parts[1..];
    }
  }

  // ----- rearranging concatenations and slices -----

  lemma Regroup<T>(a: seq<T>, b: seq<T>, c: seq<T>, d: seq<T>)
    ensures a + (b + c + d) == (a + b + c) + d == (a + b) + (c + d)
    ensures (a + b) + c + d == a + (b + c + d)
  {
  }

  lemma Associate<T>(a: seq<T>, b: seq<T>, c: seq<T>)
    ensures (a + b) + c == a + (b + c)
  {
  }

  lemma Thirds<T>(s: seq<T>, i: nat, j: nat, k: nat)
    requires i <= j <= k <= |s|
    ensures s[i..j] + s[j..k] + s[k..] == s[i..]
  {
  }

  lemma SliceOfPrefix<T>(a: seq<T>, b: seq<T>, i: nat)
    requires i <= |a|
    ensures (a + b)[i..|a|] == a[i..]
    ensures (a + b)[|a|..] == b
  {
  }

  lemma SliceBetween<T>(a: seq<T>, b: seq<T>, c: seq<T>)
    ensures (a + (b + c))[|a|..|a| + |b|] == b
  {
  }

  lemma DropAll<T>(a: seq<T>, b: seq<T>)
    ensures a[|a|..] + b == b
  {
    assert a[|a|..] == [];
  }
}
