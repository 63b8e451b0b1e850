/** Taking out and putting in list elements. */
module Lists {

  /** `q` without the element at `i`. */
  function Removed<T>(q: seq<T>, i: nat): (r: seq<T>)
    requires i < |q|
    ensures |r| == |q| - 1
    ensures forall j :: 0 <= j < |r| ==> r[j] == if j < i then q[j] else q[j + 1]
  {
    q[..i] + q[i + 1..]
  }

  /** `q` with `x` put in at `i`. */
  function Put<T>(q: seq<T>, i: nat, x: T): (r: seq<T>)
    requires i <= |q|
    ensures |r| == |q| + 1
    ensures forall j :: 0 <= j < |r| ==> r[j] == if j < i then q[j] else if j == i then x else q[j - 1]
  {
    q[..i] + [x] + q[i..]
  }

  ghost predicate NoRepeat<T>(q: seq<T>) {
    forall i, j :: 0 <= i < j < |q| ==> q[i] != q[j]
  }
}
