/** What the modules share. */
module Common {

  datatype Option<T> = None | Some(value: T)

  /** The sequence with the element at position k taken out. */
  function Without<T>(s: seq<T>, k: nat): (r: seq<T>)
    requires k < |s|
    ensures |r| == |s| - 1
    ensures forall i :: 0 <= i < |r| ==> r[i] == if i < k then s[i] else s[i + 1]
  {
    s[..k] + s[k + 1..]
  }

  /** The position of the first element that satisfies p, the length when there is none. */
  function FindFirst<T>(s: seq<T>, p: T -> bool): (k: nat)
    ensures k <= |s| && (k < |s| ==> p(s[k]))
    ensures forall i :: 0 <= i < k ==> !p(s[i])
  {
    if |s| == 0 || p(s[0]) then 0 else
      var k := FindFirst(s[1..], p);
      assert forall i :: 1 <= i < 1 + k ==> s[i] == s[1..][i - 1];
      1 + k
  }

  lemma {:induction false} SubsetSize<T>(a: set<T>, b: set<T>)
    requires a <= b
    ensures |a| <= |b| && (|a| == |b| ==> a == b)
  {
    if a != {} {
      var x :| x in a;
      SubsetSize(a - {x}, b - {x});
    }
  }

  lemma {:induction false} StaysIn<T>(s: seq<T>, k: nat, x: T)
    requires k < |s| && x in s && s[k] != x
    ensures x in Without(s, k)
  {
    var m :| 0 <= m < |s| && s[m] == x;
    assert Without(s, k)[if m < k then m else m - 1] == x;
  }
}
