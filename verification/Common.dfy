/** Small shared vocabulary: an option type and the least element of a finite set. */
module Common {

  datatype Option<+T> = None | Some(value: T)

  type Byte = x: int | 0 <= x < 256

  lemma {:induction false} LeastOf(s: set<nat>) returns (x: nat)
    requires s != {}
    ensures x in s && forall y :: y in s ==> x <= y
    decreases |s|
  {
    x :| x in s;
    var others := s - {x};
    assert s == others + {x};
    if others != {} {
      var z := LeastOf(others);
      x := if x <= z then x else z;
    }
  }

  lemma LeastExists(s: set<nat>)
    requires s != {}
    ensures exists x :: x in s && forall y :: y in s ==> x <= y
  {
    var x := LeastOf(s);
  }

  /** `Iterator::min` over a non-empty set of identifiers. */
  function Least(s: set<nat>): (x: nat)
    requires s != {}
    ensures x in s
    ensures forall y :: y in s ==> x <= y
  {
    LeastExists(s);
    var x :| x in s && forall y :: y in s ==> x <= y;
    x
  }

  /** Concatenation is associative; spelled out because it is used far from any index. */
  lemma Assoc<T>(a: seq<T>, b: seq<T>, c: seq<T>)
    ensures (a + b) + c == a + (b + c)
  {
  }
}
