/** Process identifiers and lists of them. */
module Pids {

  type Pid = nat

  ghost predicate NoRepeats(s: seq<Pid>) {
    forall i, j :: 0 <= i < j < |s| ==> s[i] != s[j]
  }

  function Elements(s: seq<Pid>): set<Pid> {
    set p | p in s
  }

  lemma {:induction false} NoRepeatsCounts(s: seq<Pid>)
    requires NoRepeats(s)
    ensures |Elements(s)| == |s|
    decreases |s|
  {
    if s != [] {
      var init, last := s[..|s| - 1], s[|s| - 1];
      NoRepeatsCounts(init);
      assert s == init + [last];
      assert Elements(s) == Elements(init) + {last};
    }
  }
}
