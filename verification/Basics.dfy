/** Vocabulary shared by every module: identifiers, instants, optional values and ordered listing. */
module Basics {
  // A UUID, ordered as its bytes are.
  type Id = nat

  // A UTC instant or a duration, in microseconds.
  type Time = int

  datatype Option<+T> = None | Some(value: T)

  datatype Result<+T, +E> = Ok(value: T) | Err(error: E)

  ghost predicate IsLeast(m: Id, ids: set<Id>) {
    m in ids && forall x :: x in ids ==> m <= x
  }

  lemma {:induction false} LeastExists(ids: set<Id>) returns (m: Id)
    requires ids != {}
    ensures IsLeast(m, ids)
    decreases |ids|
  {
    m :| m in ids;
    var rest := ids - {m};
    if rest != {} {
      var least := LeastExists(rest);
      forall x | x in ids ensures x == m || least <= x {
        assert x == m || x in rest;
      }
      m := if m < least then m else least;
    } else {
      forall x | x in ids ensures x == m {
        assert x !in rest;
      }
    }
  }

  function Least(ids: set<Id>): (m: Id)
    requires ids != {}
    ensures IsLeast(m, ids)
  {
    assert exists m :: IsLeast(m, ids) by {
      var m := LeastExists(ids);
    }
    var m :| m in ids && forall x :: x in ids ==> m <= x;
    m
  }

  /** There is always a number nobody uses yet. */
  lemma {:induction false} Unused(ids: set<nat>) returns (id: nat)
    ensures forall x <- ids :: x < id
    decreases |ids|
  {
    if ids == {} {
      id := 0;
    } else {
      var x :| x in ids;
      id := Unused(ids - {x});
      forall y <- ids ensures y == x || y < id {
        assert y == x || y in ids - {x};
      }
      id := if x < id then id else x + 1;
    }
  }

  /** The members of a finite set in ascending order, as ORDER BY lists them. */
  function Ascending(ids: set<Id>): seq<Id>
    decreases |ids|
  {
    if ids == {} then []
    else
      var least := Least(ids);
      [least] + Ascending(ids - {least})
  }

  lemma {:induction false} AscendingLists(ids: set<Id>)
    ensures forall x :: x in Ascending(ids) <==> x in ids
    ensures forall i, j :: 0 <= i < j < |Ascending(ids)| ==> Ascending(ids)[i] < Ascending(ids)[j]
    decreases |ids|
  {
    if ids != {} {
      var rest := ids - {Least(ids)};
      AscendingLists(rest);
      var s := Ascending(ids);
      forall i, j | 0 <= i < j < |s| ensures s[i] < s[j] {
        assert s[j] == Ascending(rest)[j - 1] && s[j] in rest;
        if i > 0 {
          assert s[i] == Ascending(rest)[i - 1];
        }
      }
    }
  }
}
