/** Handlers of a run: the part of it that one of them performed, and one that is not running. */
module Traces {
  import opened Wrappers

  /** The steps that handler `me` performed, in order. */
  function Own<E>(es: seq<E>, mover: E -> Option<nat>, me: nat): seq<E> {
    if es == [] then []
    else
      var last := es[|es| - 1];
      Own(es[..|es| - 1], mover, me) + (if mover(last) == Some(me) then [last] else [])
  }

  lemma OwnSnoc<E>(es: seq<E>, e: E, mover: E -> Option<nat>, me: nat)
    ensures Own(es + [e], mover, me) == Own(es, mover, me) + (if mover(e) == Some(me) then [e] else [])
  {
    assert (es + [e])[..|es|] == es;
  }

  /** There is always a handler that is not running. */
  lemma {:induction false} SomeoneNew(running: set<nat>) returns (h: nat)
    ensures h !in running && forall h' :: h' in running ==> h' < h
  {
    h := 0;
    if running != {} {
      var p :| p in running;
      var g := SomeoneNew(running - {p});
      h := if g > p then g else p + 1;
      assert forall h' :: h' in running ==> h' == p || h' in running - {p};
    }
  }
}
