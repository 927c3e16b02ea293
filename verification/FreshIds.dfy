/** Ids outside any finite set of ids. */
module FreshIds {

  ghost function AboveAll(ms: set<nat>): (m: nat)
    ensures forall n :: n in ms ==> n < m
  {
    if ms == {} then 0
    else
      var n :| n in ms;
      assert forall k :: k in ms ==> k == n || k in ms - {n};
      n + 1 + AboveAll(ms - {n})
  }

  ghost function LongerThanAll(ids: set<string>): (id: string)
    ensures forall i :: i in ids ==> |i| < |id|
  {
    if ids == {} then "x"
    else
      var i :| i in ids;
      i + LongerThanAll(ids - {i})
  }
}
