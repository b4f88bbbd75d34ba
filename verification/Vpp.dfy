/** How a call into VPP answers: it either takes its effect or fails with no effect, and a call that
    allocates an index may return any index that is not in use. An oracle fixes all answers of a run
    in advance, so a statement about every oracle is a statement about every pattern of failures. */
module Vpp {
  datatype Reply = Reply(ok: bool, hint: nat)

  type Oracle = nat -> Reply

  ghost predicate NeverFails(o: Oracle) {
    forall n: nat :: o(n).ok
  }

  function FirstFree(used: set<nat>, from: nat): (index: nat)
    ensures index !in used && from <= index
    decreases set x | x in used && from <= x
  {
    if from !in used then from
    else
      assert (set x | x in used && from + 1 <= x) == (set x | x in used && from <= x) - {from};
      FirstFree(used, from + 1)
  }

  /** An index not in use: the hinted one when it is free, else the next one that is. Index 0 is never
      handed out, it is VPP's own local interface. */
  function Allocate(used: set<nat>, hint: nat): (index: nat)
    ensures index !in used && index != 0
    ensures hint !in used && hint != 0 ==> index == hint
  {
    FirstFree(used, if hint == 0 then 1 else hint)
  }
}
