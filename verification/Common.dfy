/** Small datatypes and facts about finite sets of numbers shared by the other modules. */
module Common {

  datatype Option<+T> = None | Some(value: T)

  newtype Byte = b: int | 0 <= b < 256

  type Bytes = seq<Byte>

  /** A user's role on one document, as the permission service computes it. */
  datatype Role = Owner | Editor | Viewer | NoRole

  /** The largest element of a finite set of numbers, 0 for the empty set (SQL's COALESCE(MAX(..), 0)). */
  ghost function Top(s: set<nat>): (m: nat)
    ensures forall x :: x in s ==> x <= m
    ensures if s == {} then m == 0 else m in s
  {
    if s == {} then 0
    else
      var x :| x in s;
      var rest := Top(s - {x});
      assert s == (s - {x}) + {x};
      if x >= rest then x else rest
  }

  lemma TopIs(s: set<nat>, m: nat)
    requires m in s
    requires forall x :: x in s ==> x <= m
    ensures Top(s) == m
  {
  }

  predicate IsLeast(s: set<nat>, m: nat) {
    m in s && forall x :: x in s ==> m <= x
  }

  lemma {:induction false} LeastExists(s: set<nat>)
    requires s != {}
    ensures exists m :: IsLeast(s, m)
  {
    var y :| y in s;
    if s == {y} {
      assert IsLeast(s, y);
    } else {
      LeastExists(s - {y});
      var m :| IsLeast(s - {y}, m);
      LeastOfBoth(s, y, m);
    }
  }

  lemma LeastOfBoth(s: set<nat>, y: nat, m: nat)
    requires y in s && IsLeast(s - {y}, m)
    ensures IsLeast(s, if y <= m then y else m)
  {
    forall x | x in s ensures (if y <= m then y else m) <= x {
      assert x == y || x in s - {y};
    }
  }

  /** The elements of a sequence, as a set. */
  function Elements<T(!new)>(xs: seq<T>): (s: set<T>)
    ensures forall x :: x in s <==> x in xs
  {
    set x | x in xs
  }

  predicate Distinct<T(==)>(xs: seq<T>) {
    forall i, j :: 0 <= i < j < |xs| ==> xs[i] != xs[j]
  }
}
