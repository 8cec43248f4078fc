/** The bounded semaphore around work that really renders, and the shutdown drain that takes it whole. */
module RenderExecution {
  /** Free slots, the attempts holding one, and the slots a drain took and keeps. */
  datatype Slots = Slots(free: nat, holders: set<nat>, drained: nat)

  predicate Conserved(s: Slots, limit: nat) {
    s.free + |s.holders| + s.drained == limit
  }

  /** What other threads do to the semaphore while a drain waits: some leave, some enter. */
  datatype Turn = Turn(leaving: set<nat>, entering: set<nat>)

  /**
   A drain that took every slot leaves nothing running and nothing to start with: no attempt
   holds a slot and no acquire can succeed, now or after any further turn.
   */
  lemma DrainedIsFinal(s: Slots, limit: nat)
    requires Conserved(s, limit) && s.drained == limit
    ensures s.holders == {} && s.free == 0
  {
    assert |s.holders| == 0;
  }

  /** Everyone who leaves in one of the turns. */
  function Leaving(turns: seq<Turn>): set<nat> {
    if turns == [] then {} else Leaving(turns[..|turns| - 1]) + turns[|turns| - 1].leaving
  }

  /** A stretch of turns in which renders only finish. */
  predicate NobodyEnters(turns: seq<Turn>) {
    forall k :: 0 <= k < |turns| ==> turns[k].entering == {}
  }

  lemma {:induction false} LeavingGrows(turns: seq<Turn>, i: nat, j: nat)
    requires i <= j <= |turns|
    ensures Leaving(turns[..i]) <= Leaving(turns[..j])
  {
    if i < j {
      LeavingGrows(turns, i, j - 1);
      assert turns[..j][..j - 1] == turns[..j - 1];
    }
  }

  class RenderExecutionLimiter {
    const limit: nat
    var free: nat
    // The semaphore only counts; these two say whose the missing slots are.
    var holders: set<nat>
    var drained: nat

    function View(): Slots
      reads this
    {
      Slots(free, holders, drained)
    }

    predicate Valid()
      reads this
    {
      limit >= 1 && Conserved(View(), limit)
    }

    constructor (limit: nat)
      requires limit >= 1
      ensures Valid() && this.limit == limit && View() == Slots(limit, {}, 0)
    {
      this.limit := limit;
      free, holders, drained := limit, {}, 0;
    }

    /** Never waits: a submission that finds no slot is refused. */
    method Acquire(who: nat) returns (ok: bool)
      requires Valid() && who !in holders
      modifies this
      ensures Valid()
      ensures ok <==> old(free) > 0
      ensures View() == if ok then Slots(old(free) - 1, old(holders) + {who}, old(drained)) else old(View())
    {
      ok := free > 0;
      if ok {
        free, holders := free - 1, holders + {who};
      }
    }

    method Release(who: nat)
      requires Valid() && who in holders
      modifies this
      ensures Valid()
      ensures View() == Slots(old(free) + 1, old(holders) - {who}, old(drained))
    {
      free, holders := free + 1, holders - {who};
    }

    /** One turn of the rest of the process; entrants beyond the free slots are refused. */
    method Elsewhere(turn: Turn)
      requires Valid()
      modifies this
      ensures Valid() && drained == old(drained)
      ensures turn.entering == {} ==> holders == old(holders) - turn.leaving
    {
      var leave := turn.leaving * holders;
      var stay := holders - leave;
      free, holders := free + |leave|, stay;
      var enter := turn.entering - holders;
      if |enter| <= free {
        free, holders := free - |enter|, holders + enter;
      }
    }

    /**
     The wait of one blocking acquire: the turns that pass before it is reached, then further ones
     until a slot is free or the deadline, turn number `due`, has come.
     */
    method Await(turns: seq<Turn>, from: nat, pause: nat, due: nat, ghost first: set<nat>) returns (passed: nat)
      requires Valid() && from <= |turns| && due <= |turns|
      requires NobodyEnters(turns) ==> holders == first - Leaving(turns[..from])
      modifies this
      ensures Valid() && drained == old(drained) && from <= passed <= |turns|
      ensures free == 0 ==> passed >= due
      ensures NobodyEnters(turns) ==> holders == first - Leaving(turns[..passed])
    {
      passed := from;
      while passed < |turns| && (passed < from + pause || (free == 0 && passed < due))
        invariant Valid() && drained == old(drained) && from <= passed <= |turns|
        invariant NobodyEnters(turns) ==> holders == first - Leaving(turns[..passed])
      {
        Elsewhere(turns[passed]);
        assert turns[..passed + 1][..passed] == turns[..passed];
        passed := passed + 1;
      }
    }

    /**
     Takes every slot and gives none back. A first drain succeeds exactly when it ends with no
     render holding a slot; one that gives up keeps what it took, and does so no sooner than at the
     deadline, with no slot free. While renders only finish it succeeds whenever they all do in time.
     */
    method Drain(turns: seq<Turn>, pauses: seq<nat>, due: nat) returns (ok: bool, passed: nat)
      requires Valid() && |pauses| == limit && due <= |turns|
      modifies this
      ensures Valid() && drained >= old(drained) && passed <= |turns|
      ensures ok <==> old(drained) == 0 && drained == limit
      ensures ok <==> old(drained) == 0 && holders == {}
      ensures !ok ==> free == 0 && passed >= due
      ensures NobodyEnters(turns) && old(drained) == 0 ==>
                && (ok <==> old(holders) <= Leaving(turns[..passed]))
                && (old(holders) <= Leaving(turns[..due]) ==> ok)
    {
      var taken := 0;
      passed := 0;
      while taken < limit
        invariant Valid() && taken <= limit && drained == old(drained) + taken && passed <= |turns|
        invariant NobodyEnters(turns) ==> holders == old(holders) - Leaving(turns[..passed])
      {
        passed := Await(turns, passed, pauses[taken], due, old(holders));
        if free == 0 {
          assert |holders| == 0 ==> drained == limit;
          assert holders == {} ==> |holders| == 0;
          LeavingGrows(turns, due, passed);
          return false, passed;
        }
        free, drained, taken := free - 1, drained + 1, taken + 1;
      }
      return true, passed;
    }
  }
}
