/**
  What becomes of the broker buffers that surfaces hold on to in src/vaapi_advc/advc_vaapi_decode_runtime.c: one ledger
  for all surface slots. In an honest ledger every lease a slot took is given back once, overwritten once, or still held
  by that slot.
 */
module LeaseLedger {
  import opened Bits

  /** A leased output, or a destination reserved for one. */
  datatype Hold = Lease(id: nat) | Booking(id: nat)

  /**
    A destination was reserved for a picture of context `who` on the slot; its picture was queued; the slot took an
    output that context `who` dequeued in its life `life`; what the slot held was returned to context `to`. Reserving and
    taking write over what the slot held.
   */
  datatype Entry =
    | Booked(slot: nat, who: nat, id: nat, over: Option<Hold>)
    | Queued(slot: nat, who: nat)
    | Took(slot: nat, who: nat, life: nat, id: nat, over: Option<Hold>)
    | Returned(slot: nat, to: nat, hold: Hold)

  /** What a slot holds, the context it was last booked or queued for, and whether it may be waiting for an output. */
  datatype Slot = Slot(held: Option<Hold>, keeper: Option<nat>, waiting: bool)

  function Step(v: Slot, e: Entry): Slot {
    match e
    case Booked(_, who, id, _) => v.(held := if id == 0 then None else Some(Booking(id)), keeper := Some(who))
    case Queued(_, who) => v.(keeper := Some(who), waiting := true)
    case Took(_, _, _, id, _) => v.(held := if id == 0 then None else Some(Lease(id)), waiting := false)
    case Returned(_, _, _) => Slot(None, None, false)
  }

  function SlotAfter(l: seq<Entry>, s: nat): Slot {
    if l == [] then Slot(None, None, false)
    else if l[|l| - 1].slot == s then Step(SlotAfter(l[..|l| - 1], s), l[|l| - 1])
    else SlotAfter(l[..|l| - 1], s)
  }

  /** Entries name what the slot holds; a slot takes an output only while it waits, and returns what it holds to its keeper. */
  predicate Allowed(v: Slot, e: Entry) {
    match e
    case Booked(_, _, _, over) => v.held == over
    case Queued(_, _) => true
    case Took(_, _, _, _, over) => v.held == over && v.waiting
    case Returned(_, to, hold) => v.held == Some(hold) && v.keeper == Some(to)
  }

  ghost predicate Honest(l: seq<Entry>) {
    forall i :: 0 <= i < |l| ==> Allowed(SlotAfter(l[..i], l[i].slot), l[i])
  }

  lemma Snoc(l: seq<Entry>, e: Entry)
    ensures forall s :: SlotAfter(l + [e], s) == if e.slot == s then Step(SlotAfter(l, s), e) else SlotAfter(l, s)
    ensures Honest(l) && Allowed(SlotAfter(l, e.slot), e) ==> Honest(l + [e])
  {
    var l' := l + [e];
    assert l'[..|l|] == l && l'[|l|] == e;
    forall i | 0 <= i < |l| ensures l'[..i] == l[..i] {}
  }

  /** The leases that slots took from this life of context `c`, in order. */
  function TakenBy(l: seq<Entry>, c: nat, life: nat): seq<nat> {
    if l == [] then [] else
    var e := l[|l| - 1];
    TakenBy(l[..|l| - 1], c, life) + if e.Took? && e.who == c && e.life == life && e.id != 0 then [e.id] else []
  }

  lemma TakenSnoc(l: seq<Entry>, e: Entry)
    ensures forall c, life :: TakenBy(l + [e], c, life) ==
                              TakenBy(l, c, life) + if e.Took? && e.who == c && e.life == life && e.id != 0 then [e.id] else []
  {
    assert (l + [e])[..|l|] == l;
  }

  /** No life beyond the present one has anything to its name. */
  ghost predicate Timely(l: seq<Entry>, lives: seq<nat>) {
    forall i :: 0 <= i < |l| && l[i].Took? ==> l[i].who < |lives| && l[i].life <= lives[l[i].who]
  }

  lemma {:induction false} NewLifeTookNothing(l: seq<Entry>, lives: seq<nat>, c: nat)
    requires Timely(l, lives) && c < |lives|
    ensures TakenBy(l, c, lives[c] + 1) == []
  {
    if l != [] {
      var n := |l| - 1;
      forall i | 0 <= i < n && l[..n][i].Took? ensures l[..n][i].who < |lives| && l[..n][i].life <= lives[l[..n][i].who] {
        assert l[..n][i] == l[i];
      }
      NewLifeTookNothing(l[..n], lives, c);
      assert l[n].Took? ==> l[n].life <= lives[l[n].who];
    }
  }

  // ---------- what becomes of a lease ----------

  /** What the entry takes from its slot. */
  function Ended(e: Entry): Option<Hold> {
    match e
    case Booked(_, _, _, over) => over
    case Queued(_, _) => None
    case Took(_, _, _, _, over) => over
    case Returned(_, _, hold) => Some(hold)
  }

  predicate Ends(e: Entry, s: nat) {
    e.slot == s && Ended(e).Some?
  }

  predicate TakesLease(e: Entry) {
    e.Took? && e.id != 0
  }

  /** Between entry `i` and place `n` nothing ends what the slot of entry `i` took. */
  ghost predicate OpenUntil(l: seq<Entry>, i: nat, n: nat)
    requires i < |l| && n <= |l|
  {
    forall j :: i < j < n ==> !Ends(l[j], l[i].slot)
  }

  lemma SlotAt(l: seq<Entry>, n: nat, s: nat)
    requires n < |l|
    ensures SlotAfter(l[..n + 1], s) == if l[n].slot == s then Step(SlotAfter(l[..n], s), l[n]) else SlotAfter(l[..n], s)
  {
    assert l[..n + 1][..n] == l[..n];
  }

  /** As long as nothing ends it, the slot holds the lease it took. */
  lemma {:induction false} StillHeld(l: seq<Entry>, i: nat, n: nat)
    requires Honest(l) && i < n <= |l| && TakesLease(l[i]) && OpenUntil(l, i, n)
    ensures SlotAfter(l[..n], l[i].slot).held == Some(Lease(l[i].id))
  {
    hide SlotAfter;
    var s := l[i].slot;
    SlotAt(l, n - 1, s);
    if n - 1 > i {
      StillHeld(l, i, n - 1);
      assert Allowed(SlotAfter(l[..n - 1], l[n - 1].slot), l[n - 1]);
      assert !Ends(l[n - 1], s);
    }
  }

  /** What ends it first names that very lease; until then the slot's pictures are queued at most. */
  lemma EndsItself(l: seq<Entry>, i: nat, j: nat)
    requires Honest(l) && i < j < |l| && TakesLease(l[i]) && OpenUntil(l, i, j) && l[j].slot == l[i].slot
    ensures Ended(l[j]) == (if l[j].Queued? then None else Some(Lease(l[i].id)))
  {
    StillHeld(l, i, j);
    assert Allowed(SlotAfter(l[..j], l[j].slot), l[j]);
  }

  lemma StepToLease(v: Slot, e: Entry, id: nat)
    requires Step(v, e).held == Some(Lease(id))
    ensures (e.Took? && e.id == id != 0) || (e.Queued? && v.held == Some(Lease(id)))
  {
  }

  lemma NothingYet(s: nat)
    ensures SlotAfter([], s).held == None
  {
  }

  /** A held lease was taken, and nothing has ended that since. */
  lemma {:induction false} HeldWasTaken(l: seq<Entry>, n: nat, s: nat) returns (i: nat)
    requires Honest(l) && n <= |l| && SlotAfter(l[..n], s).held.Some? && SlotAfter(l[..n], s).held.value.Lease?
    ensures i < n && TakesLease(l[i]) && l[i].slot == s && l[i].id == SlotAfter(l[..n], s).held.value.id && OpenUntil(l, i, n)
  {
    hide Step, SlotAfter, Honest;
    NothingYet(s);
    assert l[..0] == [];
    SlotAt(l, n - 1, s);
    if l[n - 1].slot == s { StepToLease(SlotAfter(l[..n - 1], s), l[n - 1], SlotAfter(l[..n], s).held.value.id); }
    if l[n - 1].slot == s && l[n - 1].Took? {
      i := n - 1;
    } else {
      i := HeldWasTaken(l, n - 1, s);
    }
  }

  /** A lease that ends was taken, by the slot it ends in, and had not ended since. */
  lemma EndedWasTaken(l: seq<Entry>, j: nat) returns (i: nat)
    requires Honest(l) && j < |l| && Ended(l[j]).Some? && Ended(l[j]).value.Lease?
    ensures i < j && TakesLease(l[i]) && l[i].slot == l[j].slot && l[i].id == Ended(l[j]).value.id && OpenUntil(l, i, j)
  {
    assert Allowed(SlotAfter(l[..j], l[j].slot), l[j]);
    i := HeldWasTaken(l, j, l[j].slot);
  }

  /** So no lease ends twice: between two ends there is another taking. */
  lemma EndsOnce(l: seq<Entry>, j: nat, k: nat)
    requires Honest(l) && j < k < |l| && Ends(l[j], l[k].slot) && Ended(l[k]).Some? && Ended(l[k]).value.Lease?
    ensures exists i :: j <= i < k && TakesLease(l[i]) && l[i].slot == l[k].slot && l[i].id == Ended(l[k]).value.id
  {
    var i := EndedWasTaken(l, k);
    assert !(i < j);
  }

  // ---------- to whom a lease goes back ----------

  /** A picture is booked or queued on slot `s`. */
  predicate Moves(e: Entry, s: nat) {
    e.slot == s && (e.Booked? || e.Queued?)
  }

  /** The context whose picture was the last to be booked or queued on slot `s` from place `i` to place `n`. */
  function LastMover(l: seq<Entry>, i: nat, n: nat, s: nat): Option<nat>
    requires i <= n <= |l|
  {
    if i == n then None else if Moves(l[n - 1], s) then Some(l[n - 1].who) else LastMover(l, i, n - 1, s)
  }

  lemma {:induction false} KeeperIs(l: seq<Entry>, i: nat, n: nat, s: nat)
    requires i <= n <= |l| && forall k :: i <= k < n ==> !(l[k].slot == s && l[k].Returned?)
    ensures var mover := LastMover(l, i, n, s);
            SlotAfter(l[..n], s).keeper == if mover.Some? then mover else SlotAfter(l[..i], s).keeper
  {
    hide SlotAfter;
    if i < n {
      KeeperIs(l, i, n - 1, s);
      SlotAt(l, n - 1, s);
    }
  }

  lemma {:induction false} WaitingNeedsMove(l: seq<Entry>, i: nat, n: nat)
    requires i < n <= |l| && l[i].Took? && SlotAfter(l[..n], l[i].slot).waiting
    ensures LastMover(l, i, n, l[i].slot).Some?
  {
    hide SlotAfter;
    SlotAt(l, n - 1, l[i].slot);
    if n - 1 > i && l[n - 1].slot != l[i].slot {
      WaitingNeedsMove(l, i, n - 1);
    }
  }

  lemma NoReturnBetween(l: seq<Entry>, i: nat, j: nat)
    requires i < j <= |l| && l[i].Took? && OpenUntil(l, i, j)
    ensures forall k :: i <= k < j ==> !(l[k].slot == l[i].slot && l[k].Returned?)
  {
    forall k | i <= k < j ensures !(l[k].slot == l[i].slot && l[k].Returned?) {
      if k > i { assert !Ends(l[k], l[i].slot); }
    }
  }

  /**
    What ends the lease taken by entry `i`, and to whom it goes. It goes back to the context its slot waited for when it
    was taken if and only if it is returned and no picture of another context was the last one queued on the slot since;
    it is overwritten only by a booking or after such a picture.
   */
  lemma GoesHome(l: seq<Entry>, i: nat, j: nat)
    requires Honest(l) && i < j < |l| && TakesLease(l[i]) && OpenUntil(l, i, j) && Ends(l[j], l[i].slot)
    ensures var home, mover := SlotAfter(l[..i], l[i].slot).keeper, LastMover(l, i, j, l[i].slot);
            && (l[j].Returned? && Some(l[j].to) == home <==> l[j].Returned? && (mover.None? || mover == home))
            && (l[j].Returned? <==> !l[j].Booked? && !l[j].Took?) && (l[j].Took? ==> mover.Some?)
  {
    var s := l[i].slot;
    EndsItself(l, i, j);
    assert Allowed(SlotAfter(l[..j], s), l[j]);
    hide SlotAfter, Honest;
    NoReturnBetween(l, i, j);
    KeeperIs(l, i, j, s);
    if l[j].Took? { WaitingNeedsMove(l, i, j); }
  }

  // ---------- when nothing is overwritten ----------

  ghost predicate HoldsLease(l: seq<Entry>, n: nat, s: nat)
    requires n <= |l|
  {
    var held := SlotAfter(l[..n], s).held; held.Some? && held.value.Lease?
  }

  /** Pictures are booked and queued only on slots without a lease. */
  ghost predicate Exclusive(l: seq<Entry>, n: nat)
    requires n <= |l|
  {
    forall k :: 0 <= k < n && (l[k].Booked? || l[k].Queued?) ==> !HoldsLease(l, k, l[k].slot)
  }

  lemma {:induction false} HoldersDoNotWait(l: seq<Entry>, n: nat, s: nat)
    requires Honest(l) && n <= |l| && Exclusive(l, n) && HoldsLease(l, n, s)
    ensures !SlotAfter(l[..n], s).waiting
  {
    if n > 0 {
      SlotAt(l, n - 1, s);
      if l[n - 1].slot != s { HoldersDoNotWait(l, n - 1, s); }
    }
  }

  /** Then no lease is overwritten: every lease that ends is returned. */
  lemma NothingOverwritten(l: seq<Entry>, j: nat)
    requires Honest(l) && j < |l| && Exclusive(l, j + 1) && Ended(l[j]).Some? && Ended(l[j]).value.Lease?
    ensures l[j].Returned?
  {
    var s := l[j].slot;
    assert Allowed(SlotAfter(l[..j], s), l[j]);
    assert HoldsLease(l, j, s);
    if l[j].Took? { HoldersDoNotWait(l, j, s); }
  }
}
