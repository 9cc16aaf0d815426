/**
  The slot tables of src/vaapi_advc/advc_vaapi_decode_runtime.c and the private end-of-stream state of
  src/vaapi_advc/advc_vaapi_decode_eos.h as values, with the history of each session and the invariant that ties
  them together.
 */
module DecodeState {
  import opened Bits
  import opened DecodeLog
  import opened SlotIds
  import LeaseLedger

  const CONTEXT_SLOTS: nat := 4
  const SURFACE_SLOTS: nat := 64
  const CONTEXT_KIND: int := 0x0200_0000
  const SURFACE_KIND: int := 0x0300_0000
  const INVALID: int := 0xFFFF_FFFF
  const PTS_STEP: nat := 1_000_000
  const MAX_I64: nat := 0x7FFF_FFFF_FFFF_FFFF

  datatype SurfaceState = Idle | Pending | Ready | Error

  datatype Surface = Surface(
    used: bool, width: nat, height: nat, state: SurfaceState, pts: nat, owner: int, session: int, bufferId: nat, reserved: bool)

  datatype Phase = Open | SignalPending | Draining | Complete | Failed

  datatype Eos = Eos(
    phase: Phase, signalRequested: bool, signalQueued: bool, outputEosSeen: bool, outputs: nat, frames: nat, controls: nat)

  datatype Context = Context(
    used: bool, codec: Codec, session: int, width: nat, height: nat, pictureActive: bool, target: int, configured: bool,
    lastConfig: seq<Byte>, eos: Eos)

  const OPEN_EOS: Eos := Eos(Open, false, false, false, 0, 0, 0)
  const NO_SURFACE: Surface := Surface(false, 0, 0, Idle, 0, 0, 0, 0, false)
  const NO_CONTEXT: Context := Context(false, H264, 0, 0, 0, false, INVALID, false, [], OPEN_EOS)

  /**
    What happens to the outputs a session leases: dequeued, attached to a surface, returned by a fenced release that is
    accepted or refused, and given up by a release attempt. Only outputs with a nonzero id are leases.
   */
  datatype LeaseEvent = Leased(id: nat) | Attached(id: nat) | FencedRelease(id: nat, accepted: bool) | ReleaseTry(id: nat)

  /** What a session owes: nothing, a lease, or a lease whose fenced release was refused. */
  datatype Debt = Clear | Owing(id: nat) | Refused(id: nat) | Muddled

  function After(d: Debt, e: LeaseEvent): Debt {
    match e
    case Leased(id) => if d == Clear && id != 0 then Owing(id) else Muddled
    case Attached(id) => if d == Owing(id) then Clear else Muddled
    case FencedRelease(id, accepted) => if d == Owing(id) then (if accepted then Clear else Refused(id)) else Muddled
    case ReleaseTry(id) => if d == Owing(id) || d == Refused(id) then Clear else Muddled
  }

  function DebtOf(es: seq<LeaseEvent>): Debt {
    if es == [] then Clear else After(DebtOf(es[..|es| - 1]), es[|es| - 1])
  }

  lemma DebtSnoc(es: seq<LeaseEvent>, e: LeaseEvent)
    ensures DebtOf(es + [e]) == After(DebtOf(es), e)
  {
    assert (es + [e])[..|es|] == es;
  }

  lemma {:induction false} DebtPrefix(es: seq<LeaseEvent>, n: nat)
    requires n <= |es| && DebtOf(es) != Muddled
    ensures DebtOf(es[..n]) != Muddled
    decreases |es| - n
  {
    if n == |es| {
      assert es[..n] == es;
    } else {
      DebtPrefix(es, n + 1);
      assert es[..n + 1][..n] == es[..n];
    }
  }

  lemma DebtStep(es: seq<LeaseEvent>, i: nat)
    requires i < |es| && DebtOf(es) != Muddled
    ensures DebtOf(es[..i + 1]) == After(DebtOf(es[..i]), es[i]) != Muddled && DebtOf(es[..i]) != Muddled
  {
    DebtPrefix(es, i + 1);
    DebtPrefix(es, i);
    assert es[..i + 1][..i] == es[..i];
  }

  /**
    A session that owes nothing has settled every lease it took, at once and in one way: attached to a surface, returned
    by an accepted fenced release, or given up by a release attempt. There are two release attempts for a lease if and
    only if the first was a fenced one that was refused; nothing else ever follows a settled lease but the next lease.
   */
  lemma EveryLeaseIsSettled(es: seq<LeaseEvent>, i: nat)
    requires DebtOf(es) == Clear && i < |es| && es[i].Leased?
    ensures i + 1 < |es| && es[i + 1].id == es[i].id && !es[i + 1].Leased?
    ensures es[i + 1] == FencedRelease(es[i].id, false) <==> i + 2 < |es| && es[i + 2] == ReleaseTry(es[i].id)
    ensures var next := if es[i + 1] == FencedRelease(es[i].id, false) then i + 3 else i + 2;
            next < |es| ==> es[next].Leased?
  {
    assert es[..|es|] == es;
    DebtStep(es, i);
    if i + 1 < |es| {
      DebtStep(es, i + 1);
      if i + 2 < |es| {
        DebtStep(es, i + 2);
        if i + 3 < |es| {
          DebtStep(es, i + 3);
        }
      }
    }
  }

  /** Conversely, nothing is attached, returned or released that was not leased just before. */
  lemma NothingSettledTwice(es: seq<LeaseEvent>, j: nat)
    requires DebtOf(es) == Clear && j < |es| && !es[j].Leased?
    ensures j > 0 && es[j - 1].id == es[j].id
    ensures es[j - 1].Leased? ||
            (j > 1 && es[j - 2] == Leased(es[j].id) && es[j - 1] == FencedRelease(es[j].id, false) && es[j] == ReleaseTry(es[j].id))
  {
    DebtStep(es, j);
    if j > 0 {
      DebtStep(es, j - 1);
      if j > 1 {
        DebtStep(es, j - 2);
      }
    }
  }

  /**
    What happened in a session: the inputs offered and those accepted, the leases, and how often what remained was
    failed.
   */
  datatype History = History(tries: seq<Try>, log: seq<Input>, events: seq<LeaseEvent>, marks: nat)

  const NEW_HISTORY: History := History([], [], [], 0)

  function GetContext(cs: seq<Context>, id: int): (c: int)
    ensures -1 <= c < |cs| && (c >= 0 ==> cs[c].used && id == Id(CONTEXT_KIND, c))
  {
    var c := SlotOf(id, CONTEXT_KIND, |cs|);
    if c >= 0 && cs[c].used then c else -1
  }

  function GetSurface(ss: seq<Surface>, id: int): (s: int)
    ensures -1 <= s < |ss| && (s >= 0 ==> ss[s].used && id == Id(SURFACE_KIND, s))
  {
    var s := SlotOf(id, SURFACE_KIND, |ss|);
    if s >= 0 && ss[s].used then s else -1
  }

  predicate IsPending(x: Surface) {
    x.used && x.state == Pending
  }

  // ---------- the end-of-stream state ----------

  /** `ended`: the session has been given the end of the stream; `marks`: how often what remained was failed. */
  predicate EosOk(e: Eos, ended: bool, marks: nat) {
    && (e.phase == Open ==> e == OPEN_EOS)
    && (e.phase == Complete <==> e.outputEosSeen) && (e.outputEosSeen <==> marks == 1) && marks <= 1
    && e.controls <= 1 && (e.controls == 1 ==> e.phase == Complete || e.phase == Failed)
    && e.frames + e.controls <= e.outputs <= e.frames + e.controls + 1
    && (e.phase != Failed ==> e.outputs == e.frames + e.controls)
    && (ended <==> e.signalQueued) && (e.signalQueued ==> e.signalRequested)
    && (e.phase == Draining || e.phase == Complete ==> e.signalQueued)
    && (e.phase == Open || e.phase == SignalPending ==> !e.signalQueued)
  }

  function FailedEos(e: Eos): Eos {
    e.(outputs := e.outputs + 1, phase := Failed)
  }

  function FrameEos(e: Eos): Eos {
    e.(outputs := e.outputs + 1, frames := e.frames + 1)
  }

  function ControlEos(e: Eos): Eos {
    e.(outputs := e.outputs + 1, controls := e.controls + 1)
  }

  function CompleteEos(e: Eos): Eos {
    e.(outputEosSeen := true, phase := Complete)
  }

  // ---------- contexts and surfaces ----------

  ghost predicate ConfigsOk(z: Context, h: History) {
    && (z.codec != Vp9 ==> LastConfig(h.log) == if z.configured then Some(z.lastConfig) else None)
    && (z.codec == H264 && z.configured ==> Built(z.lastConfig))
    && (z.codec == Vp9 ==> (z.configured <==> HasUnit(h.log)))
  }

  ghost predicate ContextOk(next: nat, z: Context, h: History) {
    z.used ==>
      && EosOk(z.eos, Ended(h.log), h.marks) && Fits(z.codec, h.log) && h.log == Taken(h.tries)
      && (forall i :: 0 <= i < |h.log| && h.log[i].Access? ==> h.log[i].pts < next)
      && (z.pictureActive ==> z.eos.phase == Open)
  }

  /**
    A surface's owner is live and its session is the one it was last used in. A pending surface carries a timestamp
    that was issued for it alone and, but for the surface `hole` whose turn it is, one whose access unit was accepted.
   */
  ghost predicate SurfaceOk(next: nat, cs: seq<Context>, hs: seq<History>, claimed: map<nat, nat>, hole: int, s: nat, x: Surface)
    requires |cs| == |hs|
  {
    if !x.used then x == NO_SURFACE else
      var c := GetContext(cs, x.owner);
      && (x.owner != 0 ==> c >= 0 && cs[c].session == x.session)
      && (x.bufferId != 0 ==> x.owner != 0)
      && (x.state == Pending ==>
            && x.owner != 0 && c >= 0 && cs[c].eos.phase != Complete
            && x.pts < next && x.pts % PTS_STEP == 0 && x.pts in claimed && claimed[x.pts] == s
            && (s == hole || Accepted(hs[c].log, x.pts)))
  }

  /** The invariant; the context `stale`, if any, is about to take note of what its session has just accepted. */
  ghost predicate Sound(
    next: nat, cs: seq<Context>, ss: seq<Surface>, hs: seq<History>, claimed: map<nat, nat>, hole: int, stale: int)
  {
    && |cs| == CONTEXT_SLOTS && |hs| == CONTEXT_SLOTS && |ss| == SURFACE_SLOTS
    && next > 0 && next % PTS_STEP == 0 && (forall p :: p in claimed ==> p < next)
    && (forall s :: 0 <= s < |ss| ==> SurfaceOk(next, cs, hs, claimed, hole, s, ss[s]))
    && (forall c :: 0 <= c < |cs| && c != stale ==> ContextOk(next, cs[c], hs[c]) && (cs[c].used ==> ConfigsOk(cs[c], hs[c])))
  }

  /** Pending surfaces carry pairwise distinct timestamps, whatever their contexts and codecs. */
  lemma TimestampsAreUnique(next: nat, cs: seq<Context>, ss: seq<Surface>, hs: seq<History>, claimed: map<nat, nat>, hole: int, stale: int, s: nat, t: nat)
    requires Sound(next, cs, ss, hs, claimed, hole, stale) && s < |ss| && t < |ss|
    requires IsPending(ss[s]) && IsPending(ss[t]) && ss[s].pts == ss[t].pts
    ensures s == t
  {
    assert SurfaceOk(next, cs, hs, claimed, hole, s, ss[s]) && SurfaceOk(next, cs, hs, claimed, hole, t, ss[t]);
  }

  /** Between calls a pending surface waits for an access unit its own context's broker accepted at that timestamp. */
  lemma PendingWasAccepted(next: nat, cs: seq<Context>, ss: seq<Surface>, hs: seq<History>, claimed: map<nat, nat>, s: nat)
    requires Sound(next, cs, ss, hs, claimed, -1, -1) && s < |ss| && IsPending(ss[s])
    ensures var c := GetContext(cs, ss[s].owner);
            c >= 0 && Accepted(hs[c].log, ss[s].pts) && claimed[ss[s].pts] == s && ss[s].pts % PTS_STEP == 0 && ss[s].pts < next
  {
    assert SurfaceOk(next, cs, hs, claimed, -1, s, ss[s]);
  }

  /** Once a context is complete nothing it owns is pending. */
  lemma CompleteMeansSettled(next: nat, cs: seq<Context>, ss: seq<Surface>, hs: seq<History>, claimed: map<nat, nat>, hole: int, stale: int, c: nat, s: nat)
    requires Sound(next, cs, ss, hs, claimed, hole, stale) && c < |cs| && cs[c].used && cs[c].eos.phase == Complete
    requires s < |ss| && ss[s].used && ss[s].owner == Id(CONTEXT_KIND, c)
    ensures ss[s].state != Pending
  {
    assert SurfaceOk(next, cs, hs, claimed, hole, s, ss[s]);
  }

  /** While a picture is open its session has not been told of the end of the stream. */
  lemma ActiveMeansOpen(next: nat, cs: seq<Context>, ss: seq<Surface>, hs: seq<History>, claimed: map<nat, nat>, c: nat)
    requires Sound(next, cs, ss, hs, claimed, -1, -1) && c < |cs| && cs[c].used && cs[c].pictureActive
    ensures cs[c].eos == OPEN_EOS && !Ended(hs[c].log)
  {
    assert ContextOk(next, cs[c], hs[c]);
  }

  /**
    An HEVC context at rest that has had no access unit accepted yet remembers this configuration, which is what lets a
    picture that is not an IRAP picture go out first, if and only if the configuration was accepted and its own access
    unit, like every other, was refused.
   */
  lemma HevcOpenToOthers(
    next: nat, cs: seq<Context>, ss: seq<Surface>, hs: seq<History>, claimed: map<nat, nat>, c: nat, config: seq<Byte>)
    requires Sound(next, cs, ss, hs, claimed, -1, -1) && c < |cs| && cs[c].used && cs[c].codec == Hevc && TurnsDone(hs[c].tries)
    ensures cs[c].configured && cs[c].lastConfig == config && !HasUnit(hs[c].log) <==>
            (exists i: nat :: LatestRefused(hs[c].tries, i, config)) && NoUnitTaken(hs[c].tries)
  {
    hide Built, HasUnit, Fits, TurnsDone, NoUnitTaken, LatestRefused, LastConfig;
    assert ContextOk(next, cs[c], hs[c]) && ConfigsOk(cs[c], hs[c]);
    ConfiguredWithoutUnit(hs[c].tries, config);
  }

  // ---------- updates ----------

  lemma SurfaceUpdate(
    next: nat, cs: seq<Context>, ss: seq<Surface>, hs: seq<History>, claimed: map<nat, nat>, hole: int, stale: int, s: nat, x: Surface)
    requires Sound(next, cs, ss, hs, claimed, hole, stale) && s < |ss| && SurfaceOk(next, cs, hs, claimed, hole, s, x)
    ensures Sound(next, cs, ss[s := x], hs, claimed, hole, stale)
  {
  }

  /** The hole may be filled once its surface needs no excuse, and opened at any time. */
  lemma HoleUpdate(
    next: nat, cs: seq<Context>, ss: seq<Surface>, hs: seq<History>, claimed: map<nat, nat>, hole: int, stale: int, hole': int)
    requires Sound(next, cs, ss, hs, claimed, hole, stale)
    requires 0 <= hole < |ss| ==> hole' == hole || SurfaceOk(next, cs, hs, claimed, hole', hole, ss[hole])
    ensures Sound(next, cs, ss, hs, claimed, hole', stale)
  {
    forall s | 0 <= s < |ss| ensures SurfaceOk(next, cs, hs, claimed, hole', s, ss[s]) {
      assert SurfaceOk(next, cs, hs, claimed, hole, s, ss[s]);
    }
  }

  /** Any input accepted so far stays accepted. */
  ghost predicate AcceptsMore(h: History, h': History) {
    forall pts :: Accepted(h.log, pts) ==> Accepted(h'.log, pts)
  }

  /**
    A live context that keeps its session may change together with its history, the log only growing. It is stale
    afterwards unless the two agree.
   */
  lemma ContextUpdate(
    next: nat, cs: seq<Context>, ss: seq<Surface>, hs: seq<History>, claimed: map<nat, nat>, hole: int, stale: int, c: nat,
    z: Context, h: History, stale': int)
    requires Sound(next, cs, ss, hs, claimed, hole, stale) && c < |cs| && (stale == -1 || stale == c)
    requires cs[c].used && z.used && z.session == cs[c].session && AcceptsMore(hs[c], h)
    requires stale' == c || (stale' == -1 && ContextOk(next, z, h) && ConfigsOk(z, h))
    requires z.eos.phase == Complete ==>
               forall s :: 0 <= s < |ss| && IsPending(ss[s]) ==> ss[s].owner != Id(CONTEXT_KIND, c)
    ensures Sound(next, cs[c := z], ss, hs[c := h], claimed, hole, stale')
  {
    hide Accepted, ContextOk, ConfigsOk;
    var cs', hs' := cs[c := z], hs[c := h];
    forall s | 0 <= s < |ss| ensures SurfaceOk(next, cs', hs', claimed, hole, s, ss[s]) {
      assert SurfaceOk(next, cs, hs, claimed, hole, s, ss[s]);
    }
    forall d | 0 <= d < |cs'| && d != stale' ensures ContextOk(next, cs'[d], hs'[d]) && (cs'[d].used ==> ConfigsOk(cs'[d], hs'[d])) {
    }
  }

  /** A context slot that owns nothing may be filled or emptied. */
  lemma SlotUpdate(
    next: nat, cs: seq<Context>, ss: seq<Surface>, hs: seq<History>, claimed: map<nat, nat>, hole: int, c: nat, z: Context, h: History)
    requires Sound(next, cs, ss, hs, claimed, hole, -1) && c < |cs|
    requires ContextOk(next, z, h) && (z.used ==> ConfigsOk(z, h))
    requires forall s :: 0 <= s < |ss| && ss[s].used ==> ss[s].owner != Id(CONTEXT_KIND, c)
    ensures Sound(next, cs[c := z], ss, hs[c := h], claimed, hole, -1)
  {
    hide Accepted, ContextOk, ConfigsOk;
    var cs', hs' := cs[c := z], hs[c := h];
    forall s | 0 <= s < |ss| ensures SurfaceOk(next, cs', hs', claimed, hole, s, ss[s]) {
      assert SurfaceOk(next, cs, hs, claimed, hole, s, ss[s]);
    }
    forall d | 0 <= d < |cs'| ensures ContextOk(next, cs'[d], hs'[d]) && (cs'[d].used ==> ConfigsOk(cs'[d], hs'[d])) {
    }
  }

  /** The invariant does not look at the leases. */
  lemma EventsKeepSound(
    next: nat, cs: seq<Context>, ss: seq<Surface>, hs: seq<History>, claimed: map<nat, nat>, hole: int, stale: int, c: nat,
    es: seq<LeaseEvent>)
    requires Sound(next, cs, ss, hs, claimed, hole, stale) && c < |cs|
    ensures Sound(next, cs, ss, hs[c := hs[c].(events := es)], claimed, hole, stale)
  {
    hide Accepted, Fits, Taken;
    var hs' := hs[c := hs[c].(events := es)];
    forall s | 0 <= s < |ss| ensures SurfaceOk(next, cs, hs', claimed, hole, s, ss[s]) {
      assert SurfaceOk(next, cs, hs, claimed, hole, s, ss[s]);
    }
    forall d | 0 <= d < |cs| && d != stale ensures ContextOk(next, cs[d], hs'[d]) && (cs[d].used ==> ConfigsOk(cs[d], hs'[d])) {
      assert ContextOk(next, cs[d], hs[d]);
    }
  }

  /** A timestamp is issued for surface `s`. */
  lemma IssueUpdate(next: nat, cs: seq<Context>, ss: seq<Surface>, hs: seq<History>, claimed: map<nat, nat>, s: nat)
    requires Sound(next, cs, ss, hs, claimed, -1, -1)
    ensures Sound(next + PTS_STEP, cs, ss, hs, claimed[next := s], -1, -1)
  {
    hide Accepted, EosOk, Fits, ConfigsOk;
    forall t | 0 <= t < |ss| ensures SurfaceOk(next + PTS_STEP, cs, hs, claimed[next := s], -1, t, ss[t]) {
      assert SurfaceOk(next, cs, hs, claimed, -1, t, ss[t]);
    }
    forall c | 0 <= c < |cs| ensures ContextOk(next + PTS_STEP, cs[c], hs[c]) && (cs[c].used ==> ConfigsOk(cs[c], hs[c])) {
      assert ContextOk(next, cs[c], hs[c]);
    }
  }

  // ---------- the leases surfaces hold ----------

  function HoldOf(x: Surface): Option<LeaseLedger.Hold> {
    if !x.used || x.bufferId == 0 then None
    else if x.reserved then Some(LeaseLedger.Booking(x.bufferId)) else Some(LeaseLedger.Lease(x.bufferId))
  }

  /** The surface holds what its slot holds by the ledger, for the context the ledger names, and waits only if it may. */
  predicate Agrees(v: LeaseLedger.Slot, x: Surface) {
    && HoldOf(x) == v.held && (IsPending(x) ==> v.waiting)
    && (x.used && x.owner != 0 ==> v.keeper.Some? && x.owner == Id(CONTEXT_KIND, v.keeper.value))
  }

  /** The leases a session attached to surfaces. */
  function AttachedIn(es: seq<LeaseEvent>): seq<nat> {
    if es == [] then []
    else AttachedIn(es[..|es| - 1]) + if es[|es| - 1].Attached? then [es[|es| - 1].id] else []
  }

  lemma AttachedSnoc(es: seq<LeaseEvent>, e: LeaseEvent)
    ensures AttachedIn(es + [e]) == AttachedIn(es) + if e.Attached? then [e.id] else []
  {
    assert (es + [e])[..|es|] == es;
  }

  /** The books balance: the ledger is honest, agrees with every surface, and has taken from each session what it attached. */
  ghost predicate Balanced(
    l: seq<LeaseLedger.Entry>, cs: seq<Context>, ss: seq<Surface>, hs: seq<History>, lives: seq<nat>)
  {
    && |cs| == |hs| == |lives| && LeaseLedger.Honest(l) && LeaseLedger.Timely(l, lives)
    && (forall i :: 0 <= i < |l| ==> l[i].slot < |ss|)
    && (forall s :: 0 <= s < |ss| ==> Agrees(LeaseLedger.SlotAfter(l, s), ss[s]))
    && (forall c :: 0 <= c < |cs| ==> AttachedIn(hs[c].events) == LeaseLedger.TakenBy(l, c, lives[c]))
    && (forall c :: 0 <= c < |cs| && !cs[c].used ==> hs[c].events == [])
  }

  lemma SurfaceKeepsBalance(
    l: seq<LeaseLedger.Entry>, cs: seq<Context>, ss: seq<Surface>, hs: seq<History>, lives: seq<nat>, s: nat, x: Surface)
    requires Balanced(l, cs, ss, hs, lives) && s < |ss| && Agrees(LeaseLedger.SlotAfter(l, s), x)
    ensures Balanced(l, cs, ss[s := x], hs, lives)
  {
    hide Agrees, LeaseLedger.Honest, LeaseLedger.Timely;
  }

  /** An entry that takes no output changes nothing but its slot. */
  lemma EntryKeepsBalance(
    l: seq<LeaseLedger.Entry>, cs: seq<Context>, ss: seq<Surface>, hs: seq<History>, lives: seq<nat>, e: LeaseLedger.Entry, x: Surface)
    requires Balanced(l, cs, ss, hs, lives) && e.slot < |ss| && !e.Took?
    requires var v := LeaseLedger.SlotAfter(l, e.slot); LeaseLedger.Allowed(v, e) && Agrees(LeaseLedger.Step(v, e), x)
    ensures Balanced(l + [e], cs, ss[e.slot := x], hs, lives)
  {
    hide Agrees, LeaseLedger.Honest, LeaseLedger.Step, LeaseLedger.Allowed, AttachedIn;
    LeaseLedger.Snoc(l, e);
    LeaseLedger.TakenSnoc(l, e);
    hide LeaseLedger.SlotAfter, LeaseLedger.TakenBy;
    forall c | 0 <= c < |cs| ensures AttachedIn(hs[c].events) == LeaseLedger.TakenBy(l + [e], c, lives[c]) {
      assert LeaseLedger.TakenBy(l, c, lives[c]) + [] == LeaseLedger.TakenBy(l, c, lives[c]);
    }
  }

  /** An output of session `c` is taken; if it is a lease its session has attached it. */
  lemma TakingKeepsBalance(
    l: seq<LeaseLedger.Entry>, cs: seq<Context>, ss: seq<Surface>, hs: seq<History>, lives: seq<nat>, e: LeaseLedger.Entry, x: Surface)
    requires Balanced(l, cs, ss, hs, lives) && e.slot < |ss| && e.Took? && e.who < |cs| && cs[e.who].used && e.life == lives[e.who]
    requires var v := LeaseLedger.SlotAfter(l, e.slot); LeaseLedger.Allowed(v, e) && Agrees(LeaseLedger.Step(v, e), x)
    ensures var es := hs[e.who].events + if e.id == 0 then [] else [Attached(e.id)];
            Balanced(l + [e], cs, ss[e.slot := x], hs[e.who := hs[e.who].(events := es)], lives)
  {
    hide Agrees, LeaseLedger.Honest, LeaseLedger.Step, LeaseLedger.Allowed, AttachedIn;
    var h := hs[e.who];
    LeaseLedger.Snoc(l, e);
    LeaseLedger.TakenSnoc(l, e);
    AttachedSnoc(h.events, Attached(e.id));
    assert h.events + [] == h.events;
    hide LeaseLedger.SlotAfter, LeaseLedger.TakenBy;
    forall c | 0 <= c < |cs| && (c != e.who || e.id == 0) ensures AttachedIn(hs[c].events) == LeaseLedger.TakenBy(l + [e], c, lives[c]) {
      assert LeaseLedger.TakenBy(l, c, lives[c]) + [] == LeaseLedger.TakenBy(l, c, lives[c]);
    }
  }

  /** A pending surface that takes an output is as sound as it was, and holds what it took. */
  lemma AttachedIsOk(
    next: nat, cs: seq<Context>, hs: seq<History>, claimed: map<nat, nat>, hole: int, s: nat, x: Surface, id: nat)
    requires |cs| == |hs| && IsPending(x) && SurfaceOk(next, cs, hs, claimed, hole, s, x)
    ensures SurfaceOk(next, cs, hs, claimed, hole, s, x.(state := Ready, bufferId := id, reserved := false))
  {
  }

  lemma AttachedAgrees(v: LeaseLedger.Slot, x: Surface, e: LeaseLedger.Entry)
    requires Agrees(v, x) && IsPending(x) && e.Took? && e.over == HoldOf(x)
    ensures LeaseLedger.Allowed(v, e) && Agrees(LeaseLedger.Step(v, e), x.(state := Ready, bufferId := e.id, reserved := false))
  {
  }

  /** Contexts and histories may change as long as no slot is filled or emptied and no lease attached. */
  lemma ContextKeepsBalance(
    l: seq<LeaseLedger.Entry>, cs: seq<Context>, ss: seq<Surface>, hs: seq<History>, lives: seq<nat>, c: nat, z: Context, h: History)
    requires Balanced(l, cs, ss, hs, lives) && c < |cs| && z.used && AttachedIn(h.events) == AttachedIn(hs[c].events)
    ensures Balanced(l, cs[c := z], ss, hs[c := h], lives)
  {
    hide Agrees, LeaseLedger.Honest, LeaseLedger.Timely, AttachedIn;
  }

  /** An empty slot is filled with a new session. */
  lemma FillingKeepsBalance(
    l: seq<LeaseLedger.Entry>, cs: seq<Context>, ss: seq<Surface>, hs: seq<History>, lives: seq<nat>, c: nat, z: Context)
    requires Balanced(l, cs, ss, hs, lives) && c < |cs| && !cs[c].used
    ensures Balanced(l, cs[c := z], ss, hs[c := NEW_HISTORY], lives)
  {
    hide Agrees, LeaseLedger.Honest, LeaseLedger.Timely;
  }

  /** A slot is emptied, and its next life begins. */
  lemma EmptyingKeepsBalance(
    l: seq<LeaseLedger.Entry>, cs: seq<Context>, ss: seq<Surface>, hs: seq<History>, lives: seq<nat>, c: nat, z: Context)
    requires Balanced(l, cs, ss, hs, lives) && c < |cs|
    ensures Balanced(l, cs[c := z], ss, hs[c := NEW_HISTORY], lives[c := lives[c] + 1])
  {
    hide Agrees, LeaseLedger.Honest;
    LeaseLedger.NewLifeTookNothing(l, lives, c);
  }

  /** The lease taken by entry `i` is still with its slot. */
  ghost predicate IsOpen(l: seq<LeaseLedger.Entry>, i: nat)
    requires i < |l|
  {
    LeaseLedger.TakesLease(l[i]) && LeaseLedger.OpenUntil(l, i, |l|)
  }

  /** Surface `x` in slot `s` holds the lease taken by entry `e`. */
  predicate Holds(x: Surface, s: nat, e: LeaseLedger.Entry) {
    x.used && !x.reserved && e.slot == s && LeaseLedger.TakesLease(e) && x.bufferId == e.id
  }

  /**
    The leases the sessions attached are those taken by slots; those taken and not ended are exactly those the surfaces
    hold; and a lease ends only where it was taken, and once.
   */
  ghost predicate Conserved(l: seq<LeaseLedger.Entry>, ss: seq<Surface>, hs: seq<History>, lives: seq<nat>) {
    && |hs| == |lives| && (forall c :: 0 <= c < |hs| ==> AttachedIn(hs[c].events) == LeaseLedger.TakenBy(l, c, lives[c]))
    && (forall i :: 0 <= i < |l| && IsOpen(l, i) ==> l[i].slot < |ss| && Holds(ss[l[i].slot], l[i].slot, l[i]))
    && (forall s :: 0 <= s < |ss| && ss[s].used && ss[s].bufferId != 0 && !ss[s].reserved ==>
          exists i :: 0 <= i < |l| && IsOpen(l, i) && Holds(ss[s], s, l[i]))
    && (forall i, j :: 0 <= i < j < |l| && LeaseLedger.TakesLease(l[i]) && LeaseLedger.Ends(l[j], l[i].slot) &&
                       LeaseLedger.OpenUntil(l, i, j) ==>
          LeaseLedger.Ended(l[j]) == Some(LeaseLedger.Lease(l[i].id)))
    && (forall j :: 0 <= j < |l| && LeaseLedger.Ended(l[j]).Some? && LeaseLedger.Ended(l[j]).value.Lease? ==>
          exists i :: 0 <= i < j && LeaseLedger.TakesLease(l[i]) && l[i].slot == l[j].slot &&
            l[i].id == LeaseLedger.Ended(l[j]).value.id && LeaseLedger.OpenUntil(l, i, j))
  }

  lemma BalancedIsConserved(
    l: seq<LeaseLedger.Entry>, cs: seq<Context>, ss: seq<Surface>, hs: seq<History>, lives: seq<nat>)
    requires Balanced(l, cs, ss, hs, lives)
    ensures Conserved(l, ss, hs, lives)
  {
    hide LeaseLedger.Honest, LeaseLedger.SlotAfter, LeaseLedger.TakenBy, AttachedIn, LeaseLedger.OpenUntil, LeaseLedger.Timely;
    assert l[..|l|] == l;
    forall i | 0 <= i < |l| && IsOpen(l, i) ensures l[i].slot < |ss| && Holds(ss[l[i].slot], l[i].slot, l[i]) {
      LeaseLedger.StillHeld(l, i, |l|);
      assert Agrees(LeaseLedger.SlotAfter(l, l[i].slot), ss[l[i].slot]);
    }
    forall s | 0 <= s < |ss| && ss[s].used && ss[s].bufferId != 0 && !ss[s].reserved
      ensures exists i :: 0 <= i < |l| && IsOpen(l, i) && Holds(ss[s], s, l[i])
    {
      assert Agrees(LeaseLedger.SlotAfter(l, s), ss[s]);
      var i := LeaseLedger.HeldWasTaken(l, |l|, s);
      assert IsOpen(l, i) && Holds(ss[s], s, l[i]);
    }
    forall i, j | 0 <= i < j < |l| && LeaseLedger.TakesLease(l[i]) && LeaseLedger.Ends(l[j], l[i].slot) && LeaseLedger.OpenUntil(l, i, j)
      ensures LeaseLedger.Ended(l[j]) == Some(LeaseLedger.Lease(l[i].id))
    {
      LeaseLedger.EndsItself(l, i, j);
    }
    forall j | 0 <= j < |l| && LeaseLedger.Ended(l[j]).Some? && LeaseLedger.Ended(l[j]).value.Lease?
      ensures exists i :: 0 <= i < j && LeaseLedger.TakesLease(l[i]) && l[i].slot == l[j].slot &&
                l[i].id == LeaseLedger.Ended(l[j]).value.id && LeaseLedger.OpenUntil(l, i, j)
    {
      var i := LeaseLedger.EndedWasTaken(l, j);
    }
  }

  // ---------- what one call after another may change ----------

  predicate HistoryGrows(h: History, h': History) {
    h.tries <= h'.tries && h.log <= h'.log && h.events <= h'.events && h.marks <= h'.marks
  }

  /** Complete and failed are final, the end of the stream is not taken back, and the counters do not fall. */
  predicate EosAdvances(e: Eos, e': Eos) {
    && (e.phase == Complete || e.phase == Failed ==> e' == e)
    && (e.phase != Open ==> e'.phase != Open) && (e.phase == Draining ==> e'.phase != SignalPending)
    && (e.signalRequested ==> e'.signalRequested) && (e.signalQueued ==> e'.signalQueued)
    && e.outputs <= e'.outputs && e.frames <= e'.frames && e.controls <= e'.controls
  }

  predicate ContextMoves(z: Context, z': Context) {
    && z'.used && z'.codec == z.codec && z'.session == z.session && z'.width == z.width && z'.height == z.height
    && (z.configured ==> z'.configured) && EosAdvances(z.eos, z'.eos)
  }

  /** What may still be offered to a session: nothing once its end was taken or it failed, nothing but its end once requested. */
  ghost predicate OffersMove(phase: Phase, ts: seq<Try>, ts': seq<Try>) {
    && (phase == SignalPending ==> OnlyEnds(ts, ts'))
    && (phase == Draining || phase == Complete || phase == Failed ==> ts' == ts)
  }

  /** Between the two states every context that has not been destroyed kept its history and only added to it. */
  ghost predicate Evolves(
    cs: seq<Context>, hs: seq<History>, lives: seq<nat>, cs': seq<Context>, hs': seq<History>, lives': seq<nat>)
  {
    && |cs| == |cs'| == |hs| == |hs'| == |lives| == |lives'|
    && forall c :: 0 <= c < |cs| ==>
         && lives[c] <= lives'[c]
         && (cs[c].used && lives'[c] == lives[c] ==>
               ContextMoves(cs[c], cs'[c]) && HistoryGrows(hs[c], hs'[c]) && OffersMove(cs[c].eos.phase, hs[c].tries, hs'[c].tries))
  }

  lemma EvolvesRefl(cs: seq<Context>, hs: seq<History>, lives: seq<nat>)
    requires |cs| == |hs| == |lives|
    ensures Evolves(cs, hs, lives, cs, hs, lives)
  {
  }

  lemma EvolvesTrans(
    cs: seq<Context>, hs: seq<History>, ls: seq<nat>, cs': seq<Context>, hs': seq<History>, ls': seq<nat>,
    cs'': seq<Context>, hs'': seq<History>, ls'': seq<nat>)
    requires Evolves(cs, hs, ls, cs', hs', ls') && Evolves(cs', hs', ls', cs'', hs'', ls'')
    ensures Evolves(cs, hs, ls, cs'', hs'', ls'')
  {
    forall c | 0 <= c < |cs| && cs[c].used && ls''[c] == ls[c]
      ensures ContextMoves(cs[c], cs''[c]) && HistoryGrows(hs[c], hs''[c]) && OffersMove(cs[c].eos.phase, hs[c].tries, hs''[c].tries)
    {
      assert ContextMoves(cs[c], cs'[c]) && HistoryGrows(hs[c], hs'[c]) && OffersMove(cs[c].eos.phase, hs[c].tries, hs'[c].tries);
      assert ContextMoves(cs'[c], cs''[c]) && HistoryGrows(hs'[c], hs''[c]);
      assert OffersMove(cs'[c].eos.phase, hs'[c].tries, hs''[c].tries);
    }
  }

  /** One context moved on. */
  lemma OneEvolves(cs: seq<Context>, hs: seq<History>, lives: seq<nat>, cs': seq<Context>, hs': seq<History>, c: nat)
    requires c < |cs| == |cs'| == |hs| == |hs'| == |lives| && cs' == cs[c := cs'[c]] && hs' == hs[c := hs'[c]]
    requires ContextMoves(cs[c], cs'[c]) && HistoryGrows(hs[c], hs'[c]) && OffersMove(cs[c].eos.phase, hs[c].tries, hs'[c].tries)
    ensures Evolves(cs, hs, lives, cs', hs', lives)
  {
    hide EosAdvances;
    forall d | 0 <= d < |cs| && cs[d].used
      ensures ContextMoves(cs[d], cs'[d]) && HistoryGrows(hs[d], hs'[d]) && OffersMove(cs[d].eos.phase, hs[d].tries, hs'[d].tries)
    {
      if d != c { assert cs'[d] == cs[d] && hs'[d] == hs[d]; SelfMoves(cs[d], hs[d]); }
    }
  }

  lemma SelfMoves(z: Context, h: History)
    requires z.used
    ensures ContextMoves(z, z) && HistoryGrows(h, h) && forall phase :: OffersMove(phase, h.tries, h.tries)
  {
  }

  /** A log that grows past the end of the stream does not grow. */
  lemma EndIsFinal(codec: Codec, log: seq<Input>, log': seq<Input>)
    requires Ended(log) && log <= log' && Fits(codec, log')
    ensures log' == log
  {
    hide Fits;
    var i :| 0 <= i < |log| && log[i].EndOfStream?;
    NothingAfterEnd(codec, log', i);
  }
}
