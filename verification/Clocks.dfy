/** Time as the program sees it: one monotone clock that every look advances. */
module Clocks {

  class Clock {
    /** What the k-th look at the clock sees, in seconds since the Unix epoch. */
    const at: nat -> real
    /** Time passes: by look `reach(t)` the clock has come to `t`. */
    const reach: real -> nat
    /** The look at which a sleep or a wait begun at look k ends; the runtime's choice. */
    const wake: nat -> nat
    var tick: nat

    ghost predicate Valid()
      reads this
    {
      && (forall i: nat, j: nat :: i <= j ==> at(i) <= at(j))
      && (forall t: real :: at(reach(t)) >= t)
      && at(0) >= 0.0
    }

    /** The latest time anyone has seen. */
    ghost function Latest(): real
      reads this
    {
      at(if tick == 0 then 0 else tick - 1)
    }

    twostate lemma TimePassed()
      requires Valid() && old(tick) <= tick
      ensures old(Latest()) <= Latest()
    {
    }

    constructor (at: nat -> real, reach: real -> nat, wake: nat -> nat)
      requires forall i: nat, j: nat :: i <= j ==> at(i) <= at(j)
      requires forall t: real :: at(reach(t)) >= t
      requires at(0) >= 0.0
      ensures Valid() && tick == 0
    {
      this.at := at;
      this.reach := reach;
      this.wake := wake;
      tick := 0;
    }

    method Now() returns (t: real)
      requires Valid()
      modifies this
      ensures Valid() && tick == old(tick) + 1
      ensures t == at(old(tick)) == Latest() && old(Latest()) <= t
    {
      t := at(tick);
      tick := tick + 1;
    }

    /** The first look after a sleep begun at look `k`. */
    function Awake(k: nat): nat { if wake(k) > k then wake(k) else k }

    /** Lets time pass, however long the runtime takes. */
    method Sleep()
      requires Valid()
      modifies this
      ensures Valid() && tick >= old(tick) && Latest() >= old(Latest())
      ensures tick == Awake(old(tick))
    {
      if wake(tick) > tick {
        tick := wake(tick);
      }
    }
  }
}
