/** Sequences without repetition. */
module Sequences {
  ghost predicate NoRepeat<T(!new)>(s: seq<T>) {
    forall i, j | 0 <= i < j < |s| :: s[i] != s[j]
  }

  lemma NoRepeatAppend<T(!new)>(s: seq<T>, x: T)
    requires NoRepeat(s) && x !in s
    ensures NoRepeat(s + [x])
  {
  }

  /** A concatenation repeats nothing iff its parts repeat nothing and share nothing. */
  lemma NoRepeatJoin<T(!new)>(a: seq<T>, b: seq<T>)
    ensures NoRepeat(a + b) <==> NoRepeat(a) && NoRepeat(b) && forall x | x in a :: x !in b
  {
    var s := a + b;
    assert forall j | 0 <= j < |b| :: s[|a| + j] == b[j];
    if NoRepeat(s) {
      assert NoRepeat(a) by {
        assert forall i | 0 <= i < |a| :: s[i] == a[i];
      }
      assert NoRepeat(b) by {
        forall i, j | 0 <= i < j < |b| ensures b[i] != b[j] {
          assert s[|a| + i] != s[|a| + j];
        }
      }
      forall x | x in a ensures x !in b {
        var i :| 0 <= i < |a| && a[i] == x;
        forall j | 0 <= j < |b| ensures b[j] != x {
          assert s[i] != s[|a| + j];
        }
      }
    }
    if NoRepeat(a) && NoRepeat(b) && forall x | x in a :: x !in b {
      forall i, j | 0 <= i < j < |s| ensures s[i] != s[j] {
        if |a| <= i {
          assert b[i - |a|] != b[j - |a|];
        } else if |a| <= j {
          assert a[i] in a && b[j - |a|] in b;
        }
      }
    }
  }
}
