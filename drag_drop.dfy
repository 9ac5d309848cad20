/** The two list operations of the drag-and-drop library that `dropCard`
    uses, stated by their documented splice semantics: both indices are
    clamped into range, the item is removed at the source index and inserted
    at the target index. */
module DragDrop {

  /** `Math.max(0, Math.min(max, value))`. */
  function Clamp(value: int, max: int): (r: int)
    ensures 0 <= r
    ensures max >= 0 ==> r <= max
    ensures 0 <= value <= max ==> r == value
  {
    if value < max then (if value < 0 then 0 else value) else (if max < 0 then 0 else max)
  }

  function RemoveAt<T>(s: seq<T>, i: nat): seq<T>
    requires i < |s|
  {
    s[..i] + s[i + 1..]
  }

  function InsertAt<T>(s: seq<T>, i: nat, x: T): seq<T>
    requires i <= |s|
  {
    s[..i] + [x] + s[i..]
  }

  lemma RemoveAtMultiset<T>(s: seq<T>, i: nat)
    requires i < |s|
    ensures multiset(RemoveAt(s, i)) + multiset{s[i]} == multiset(s)
  {
    assert s == s[..i] + [s[i]] + s[i + 1..];
  }

  lemma {:induction false} InsertAtRemoveAt<T>(s: seq<T>, i: nat, x: T)
    requires i <= |s|
    ensures |InsertAt(s, i, x)| == |s| + 1 && InsertAt(s, i, x)[i] == x
    ensures RemoveAt(InsertAt(s, i, x), i) == s
    ensures multiset(InsertAt(s, i, x)) == multiset(s) + multiset{x}
  {
    var t := InsertAt(s, i, x);
    assert t[..i] == s[..i];
    assert t[i + 1..] == s[i..];
    assert s == s[..i] + s[i..];
  }

  /** `moveItemInArray`: reorder within one list. The moved item lands at the
      clamped target index and the other items keep their order. */
  function MoveItemInArray<T>(s: seq<T>, fromIndex: int, toIndex: int): (r: seq<T>)
    ensures |r| == |s| && multiset(r) == multiset(s)
    ensures |s| > 0 ==> r[Clamp(toIndex, |s| - 1)] == s[Clamp(fromIndex, |s| - 1)]
    ensures |s| > 0 ==> RemoveAt(r, Clamp(toIndex, |s| - 1)) == RemoveAt(s, Clamp(fromIndex, |s| - 1))
  {
    var from := Clamp(fromIndex, |s| - 1);
    var to := Clamp(toIndex, |s| - 1);
    if from == to then s
    else
      RemoveAtMultiset(s, from);
      InsertAtRemoveAt(RemoveAt(s, from), to, s[from]);
      InsertAt(RemoveAt(s, from), to, s[from])
  }

  /** `transferArrayItem`: move one item from `current` into `target`. An
      empty `current` leaves both lists as they are. */
  function TransferArrayItem<T>(current: seq<T>, target: seq<T>, currentIndex: int, targetIndex: int): (r: (seq<T>, seq<T>))
    ensures multiset(r.0) + multiset(r.1) == multiset(current) + multiset(target)
    ensures current == [] ==> r == (current, target)
    ensures current != [] ==>
      var from := Clamp(currentIndex, |current| - 1);
      var to := Clamp(targetIndex, |target|);
      r.0 == RemoveAt(current, from) &&
      |r.1| == |target| + 1 && r.1[to] == current[from] && RemoveAt(r.1, to) == target
  {
    if current == [] then (current, target)
    else
      var from := Clamp(currentIndex, |current| - 1);
      var to := Clamp(targetIndex, |target|);
      RemoveAtMultiset(current, from);
      InsertAtRemoveAt(target, to, current[from]);
      (RemoveAt(current, from), InsertAt(target, to, current[from]))
  }
}
