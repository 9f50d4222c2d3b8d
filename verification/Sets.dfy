/** Facts about finite sets of integers. */
module Sets {

  lemma SomeElement(s: set<int>)
    requires s != {}
    ensures exists t :: t in s
  {
    if forall t :: t !in s {
      assert false;
    }
  }

  /** A number above every element. */
  ghost function AboveAll(s: set<int>): (c: int)
    ensures forall b | b in s :: b < c
    decreases |s|
  {
    if s == {} then 0 else
    SomeElement(s);
    var b :| b in s;
    var rest := AboveAll(s - {b});
    assert forall k | k in s :: k == b || k in s - {b};
    if b < rest then rest else b + 1
  }
}
