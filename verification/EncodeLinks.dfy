/**
  The slot tables of src/vaapi_advc/advc_vaapi_encode_runtime.c as values: contexts, surfaces and coded
  buffers that name each other by id, the invariant that ties them together, and what each kind of update
  does to it.
 */
module EncodeLinks {
  import opened Bits
  import opened SlotIds

  const CONTEXT_SLOTS: nat := 4
  const SURFACE_SLOTS: nat := 64
  const BUFFER_SLOTS: nat := 256
  const CONTEXT_KIND: int := 0x1200_0000
  const SURFACE_KIND: int := 0x1300_0000
  const BUFFER_KIND: int := 0x1400_0000
  const INVALID: int := 0xFFFF_FFFF
  const MAX_INFLIGHT: nat := 4
  const MAX_U64: int := 0xFFFF_FFFF_FFFF_FFFF

  datatype SurfaceState = Idle | Pending | Ready | Error

  datatype Surface = Surface(
    used: bool, width: nat, height: nat, state: SurfaceState, owner: int, codedBuffer: int, ptsNs: nat,
    submitIndex: nat, registered: bool, writeExported: bool)

  /** One coded output: the broker's bytes (opaque), their size and the timestamp put on them. */
  datatype Output = Output(payload: int, size: nat, ptsNs: nat)

  datatype Buffer = Buffer(
    used: bool, mapped: bool, owner: int, coded: bool, capacity: nat, pendingSurface: int, output: Option<Output>)

  datatype Frame = Frame(codedBuffer: int, fpsMilli: nat, bitrate: nat, complete: bool)

  datatype Eos = Eos(signalAttempted: bool, signalSucceeded: bool, eosReceived: bool, failedClosed: bool)

  const FRESH_EOS: Eos := Eos(false, false, false, false)

  datatype Context = Context(
    used: bool, width: nat, height: nat, pictureActive: bool, target: int, pendingCount: nat, frameIndex: nat,
    lastPtsNs: nat, frame: Frame, brokerOpen: bool, brokerFps: nat, brokerBitrate: nat, frameSession: bool,
    brokerEos: bool, eos: Eos)

  const NO_SURFACE: Surface := Surface(false, 0, 0, Idle, 0, 0, 0, 0, false, false)
  const NO_BUFFER: Buffer := Buffer(false, false, 0, false, 0, 0, None)
  const NO_FRAME: Frame := Frame(INVALID, 60000, 8000000, false)
  const NO_CONTEXT: Context :=
    Context(false, 0, 0, false, INVALID, 0, 0, 0, NO_FRAME, false, 0, 0, false, false, FRESH_EOS)

  // ---------- ids ----------

  function GetContext(cs: seq<Context>, id: int): (c: int)
    ensures -1 <= c < |cs| && (c >= 0 ==> cs[c].used && id == Id(CONTEXT_KIND, c))
  {
    var c := SlotOf(id, CONTEXT_KIND, |cs|);
    if c >= 0 && cs[c].used then c else -1
  }

  function GetSurface(ss: seq<Surface>, id: int): (s: int)
    ensures -1 <= s < |ss| && (s >= 0 ==> ss[s].used && id == Id(SURFACE_KIND, s))
  {
    var s := SlotOf(id, SURFACE_KIND, |ss|);
    if s >= 0 && ss[s].used then s else -1
  }

  function GetBuffer(bs: seq<Buffer>, id: int): (b: int)
    ensures -1 <= b < |bs| && (b >= 0 ==> bs[b].used && id == Id(BUFFER_KIND, b))
  {
    var b := SlotOf(id, BUFFER_KIND, |bs|);
    if b >= 0 && bs[b].used then b else -1
  }

  // ---------- pending pictures ----------

  predicate IsPending(s: Surface) {
    s.used && s.state == Pending
  }

  predicate PendingFor(s: Surface, id: int) {
    IsPending(s) && s.owner == id
  }

  /** The number of pending surfaces a context owns. */
  function PendingOf(ss: seq<Surface>, id: int): nat {
    if ss == [] then 0
    else PendingOf(ss[..|ss| - 1], id) + (if PendingFor(ss[|ss| - 1], id) then 1 else 0)
  }

  lemma {:induction false} PendingOfUpdate(ss: seq<Surface>, s: nat, x: Surface, id: int)
    requires s < |ss|
    ensures PendingOf(ss[s := x], id) + (if PendingFor(ss[s], id) then 1 else 0) ==
            PendingOf(ss, id) + (if PendingFor(x, id) then 1 else 0)
  {
    var n := |ss| - 1;
    if s < n {
      PendingOfUpdate(ss[..n], s, x, id);
      assert ss[s := x][..n] == ss[..n][s := x];
    } else {
      assert ss[s := x][..n] == ss[..n];
    }
  }

  lemma {:induction false} PendingOfPositive(ss: seq<Surface>, s: nat, id: int)
    requires s < |ss| && PendingFor(ss[s], id)
    ensures PendingOf(ss, id) > 0
  {
    if s < |ss| - 1 {
      PendingOfPositive(ss[..|ss| - 1], s, id);
    }
  }

  lemma {:induction false} PendingOfZero(ss: seq<Surface>, id: int)
    requires forall s :: 0 <= s < |ss| ==> !PendingFor(ss[s], id)
    ensures PendingOf(ss, id) == 0
  {
    if ss != [] {
      PendingOfZero(ss[..|ss| - 1], id);
    }
  }

  // ---------- timestamps ----------

  /** `frame_pts_ns`: the nominal time of a frame, or the largest value if the product would overflow. */
  function FramePts(index: nat, fpsMilli: nat): nat {
    if fpsMilli == 0 || index > MAX_U64 / 1_000_000_000_000 then MAX_U64
    else index * 1_000_000_000_000 / fpsMilli
  }

  function MediaPts(pts: nat): nat {
    pts / 1000 * 1000
  }

  predicate FpsOk(fpsMilli: nat) {
    1000 <= fpsMilli <= 240000
  }

  /** The time in nanoseconds of frame `index` at `fpsMilli` frames in a thousand seconds, whose dividend fits 64 bits. */
  predicate OnTime(t: nat, index: nat, fpsMilli: nat) {
    t * fpsMilli <= index * 1_000_000_000_000 < (t + 1) * fpsMilli && index * 1_000_000_000_000 <= 0xFFFF_FFFF_FFFF_FFFF
  }

  /** `m` is `t` in whole microseconds. */
  predicate InMicros(m: nat, t: nat) {
    m % 1000 == 0 && m <= t < m + 1000
  }

  /** A frame has its time unless the rate is zero or the product of its number and a thousand seconds overflows. */
  lemma FrameTime(index: nat, fpsMilli: nat)
    ensures FramePts(index, fpsMilli) != MAX_U64 <==> fpsMilli > 0 && index * 1_000_000_000_000 <= MAX_U64
    ensures FramePts(index, fpsMilli) != MAX_U64 ==> OnTime(FramePts(index, fpsMilli), index, fpsMilli)
  {
    var n := index * 1_000_000_000_000;
    if fpsMilli > 0 && n <= MAX_U64 {
      var t := n / fpsMilli;
      assert n == t * fpsMilli + n % fpsMilli;
      assert (t + 1) * fpsMilli == t * fpsMilli + fpsMilli;
      QuotientAtMost(t, fpsMilli);
      assert t != MAX_U64;
    }
  }

  lemma QuotientAtMost(t: nat, d: nat)
    requires d > 0
    ensures t <= t * d
  {
  }

  lemma MediaTime(t: nat)
    ensures InMicros(MediaPts(t), t)
  {
  }

  /** At any supported rate, later frames have later times even after truncation to microseconds. */
  lemma TimesIncrease(i: nat, j: nat, fpsMilli: nat, t: nat, u: nat, m: nat, n: nat)
    requires FpsOk(fpsMilli) && i < j && OnTime(t, i, fpsMilli) && OnTime(u, j, fpsMilli)
    requires InMicros(m, t) && InMicros(n, u)
    ensures t + 1000 <= u && m < n
  {
    var gap := u + 1 - t;
    assert gap * fpsMilli == (u + 1) * fpsMilli - t * fpsMilli;
    assert gap * fpsMilli > 1_000_000_000_000;
    if gap <= 1000 {
      AtMost(gap, 1000, fpsMilli);
    }
  }

  lemma AtMost(a: int, b: int, d: nat)
    requires a <= b
    ensures a * d <= b * d
  {
  }

  // ---------- the links ----------

  /** A pending surface is served by a live context with an open session and a coded buffer that names it back. */
  predicate Served(cs: seq<Context>, ss: seq<Surface>, bs: seq<Buffer>, s: nat)
    requires s < |ss|
  {
    var c := GetContext(cs, ss[s].owner);
    var b := GetBuffer(bs, ss[s].codedBuffer);
    && c >= 0 && cs[c].brokerOpen && ss[s].submitIndex < cs[c].frameIndex
    && b >= 0 && bs[b].coded && bs[b].pendingSurface == Id(SURFACE_KIND, s)
  }

  /** A busy coded buffer names a pending surface that names it back. */
  predicate Awaited(ss: seq<Surface>, bs: seq<Buffer>, b: nat)
    requires b < |bs|
  {
    var s := GetSurface(ss, bs[b].pendingSurface);
    s >= 0 && ss[s].state == Pending && ss[s].codedBuffer == Id(BUFFER_KIND, b)
  }

  predicate Busy(b: Buffer) {
    b.used && b.pendingSurface != INVALID
  }

  /** The surface a picture is being drawn to is not already queued by the same context. */
  predicate TargetFree(cs: seq<Context>, ss: seq<Surface>, c: nat)
    requires c < |cs|
  {
    var s := GetSurface(ss, cs[c].target);
    s >= 0 ==> !PendingFor(ss[s], Id(CONTEXT_KIND, c))
  }

  /** Everything but the counters. */
  ghost predicate Woven(cs: seq<Context>, ss: seq<Surface>, bs: seq<Buffer>) {
    && |cs| == CONTEXT_SLOTS && |ss| == SURFACE_SLOTS && |bs| == BUFFER_SLOTS
    && (forall s :: 0 <= s < |ss| && IsPending(ss[s]) ==> Served(cs, ss, bs, s))
    && (forall b :: 0 <= b < |bs| && Busy(bs[b]) ==> Awaited(ss, bs, b))
    && (forall s :: 0 <= s < |ss| && ss[s].used && ss[s].owner != 0 ==> GetContext(cs, ss[s].owner) >= 0)
    && (forall s, t :: 0 <= s < t < |ss| && IsPending(ss[s]) && PendingFor(ss[t], ss[s].owner) ==>
          ss[s].submitIndex != ss[t].submitIndex)
    && (forall c :: 0 <= c < |cs| && cs[c].used && cs[c].pictureActive ==> TargetFree(cs, ss, c))
  }

  /** A context's counter is the number of its pending surfaces, within the limit even once the active picture ends. */
  predicate Counted(cs: seq<Context>, ss: seq<Surface>, c: nat)
    requires c < |cs|
  {
    cs[c].used ==>
      && cs[c].pendingCount == PendingOf(ss, Id(CONTEXT_KIND, c))
      && cs[c].pendingCount <= MAX_INFLIGHT
      && (cs[c].pictureActive ==> cs[c].pendingCount < MAX_INFLIGHT)
      && (cs[c].brokerOpen ==> FpsOk(cs[c].brokerFps))
  }

  ghost predicate Linked(cs: seq<Context>, ss: seq<Surface>, bs: seq<Buffer>) {
    && Woven(cs, ss, bs)
    && (forall c :: 0 <= c < |cs| ==> Counted(cs, ss, c))
  }

  /** The branches that would find a pending surface without a context, an open session or a count cannot be taken. */
  lemma PendingIsServed(cs: seq<Context>, ss: seq<Surface>, bs: seq<Buffer>, s: nat)
    requires Linked(cs, ss, bs) && s < |ss| && IsPending(ss[s])
    ensures var c := GetContext(cs, ss[s].owner); c >= 0 && cs[c].brokerOpen && cs[c].pendingCount > 0
    ensures var b := GetBuffer(bs, ss[s].codedBuffer); b >= 0 && bs[b].coded
  {
    assert Served(cs, ss, bs, s);
    var c := GetContext(cs, ss[s].owner);
    assert Counted(cs, ss, c);
    PendingOfPositive(ss, s, Id(CONTEXT_KIND, c));
  }

  /** Pending surfaces and busy coded buffers are in one-to-one correspondence. */
  lemma PairsAreUnique(cs: seq<Context>, ss: seq<Surface>, bs: seq<Buffer>, s: nat, t: nat)
    requires Woven(cs, ss, bs) && s < |ss| && t < |ss| && IsPending(ss[s]) && IsPending(ss[t])
    requires ss[s].codedBuffer == ss[t].codedBuffer
    ensures s == t
  {
    assert Served(cs, ss, bs, s) && Served(cs, ss, bs, t);
  }

  // ---------- updates ----------

  /** A pending surface `s` stops being pending and its coded buffer `b` is released. */
  lemma UnpairKeepsWoven(cs: seq<Context>, ss: seq<Surface>, bs: seq<Buffer>, s: nat, b: nat, x: Surface, y: Buffer)
    requires Woven(cs, ss, bs) && s < |ss| && IsPending(ss[s]) && b == GetBuffer(bs, ss[s].codedBuffer)
    requires x == ss[s].(state := x.state) && x.state != Pending
    requires y.used && y.pendingSurface == INVALID && y.coded == bs[b].coded
    ensures Woven(cs, ss[s := x], bs[b := y])
  {
    var ss', bs' := ss[s := x], bs[b := y];
    assert Served(cs, ss, bs, s);
    forall t | 0 <= t < |ss'| && IsPending(ss'[t]) ensures Served(cs, ss', bs', t) {
      assert Served(cs, ss, bs, t);
    }
    forall d | 0 <= d < |bs'| && Busy(bs'[d]) ensures Awaited(ss', bs', d) {
      assert Awaited(ss, bs, d);
    }
    forall c | 0 <= c < |cs| && cs[c].used && cs[c].pictureActive ensures TargetFree(cs, ss', c) {
      assert TargetFree(cs, ss, c);
    }
  }

  /** A surface that is not pending, before or after, may change freely as long as its owner stays live. */
  lemma QuietSurfaceKeepsWoven(cs: seq<Context>, ss: seq<Surface>, bs: seq<Buffer>, s: nat, x: Surface)
    requires Woven(cs, ss, bs) && s < |ss| && !IsPending(ss[s]) && !IsPending(x)
    requires x.used && x.owner != 0 ==> GetContext(cs, x.owner) >= 0
    ensures Woven(cs, ss[s := x], bs)
    ensures forall id :: PendingOf(ss[s := x], id) == PendingOf(ss, id)
  {
    var ss' := ss[s := x];
    forall t | 0 <= t < |ss'| && IsPending(ss'[t]) ensures Served(cs, ss', bs, t) {
      assert Served(cs, ss, bs, t);
    }
    forall d | 0 <= d < |bs| && Busy(bs[d]) ensures Awaited(ss', bs, d) {
      assert Awaited(ss, bs, d);
    }
    forall c | 0 <= c < |cs| && cs[c].used && cs[c].pictureActive ensures TargetFree(cs, ss', c) {
      assert TargetFree(cs, ss, c);
    }
    forall id ensures PendingOf(ss', id) == PendingOf(ss, id) {
      PendingOfUpdate(ss, s, x, id);
    }
  }

  /** A buffer that awaits nothing, before or after, may change freely. */
  lemma QuietBufferKeepsWoven(cs: seq<Context>, ss: seq<Surface>, bs: seq<Buffer>, b: nat, y: Buffer)
    requires Woven(cs, ss, bs) && b < |bs| && !Busy(bs[b]) && !Busy(y)
    ensures Woven(cs, ss, bs[b := y])
  {
    var bs' := bs[b := y];
    forall t | 0 <= t < |ss| && IsPending(ss[t]) ensures Served(cs, ss, bs', t) {
      assert Served(cs, ss, bs, t);
    }
    forall d | 0 <= d < |bs'| && Busy(bs'[d]) ensures Awaited(ss, bs', d) {
      assert Awaited(ss, bs, d);
    }
  }

  /** A busy buffer may be mapped or refilled without touching its link. */
  lemma SameLinkKeepsWoven(cs: seq<Context>, ss: seq<Surface>, bs: seq<Buffer>, b: nat, y: Buffer)
    requires Woven(cs, ss, bs) && b < |bs| && bs[b].used && y.used && y.coded == bs[b].coded
    requires y.pendingSurface == bs[b].pendingSurface
    ensures Woven(cs, ss, bs[b := y])
  {
    var bs' := bs[b := y];
    forall t | 0 <= t < |ss| && IsPending(ss[t]) ensures Served(cs, ss, bs', t) {
      assert Served(cs, ss, bs, t);
    }
    forall d | 0 <= d < |bs'| && Busy(bs'[d]) ensures Awaited(ss, bs', d) {
      assert Awaited(ss, bs, d);
    }
  }

  /** A live context may change anything but the facts its pending surfaces rely on. */
  lemma ContextKeepsWoven(cs: seq<Context>, ss: seq<Surface>, bs: seq<Buffer>, c: nat, z: Context)
    requires Woven(cs, ss, bs) && c < |cs| && cs[c].used && z.used
    requires z.frameIndex >= cs[c].frameIndex
    requires z.brokerOpen || PendingOf(ss, Id(CONTEXT_KIND, c)) == 0
    requires z.pictureActive ==> TargetFree(cs[c := z], ss, c)
    ensures Woven(cs[c := z], ss, bs)
  {
    var cs' := cs[c := z];
    forall t | 0 <= t < |ss| && IsPending(ss[t]) ensures Served(cs', ss, bs, t) {
      assert Served(cs, ss, bs, t);
      if !z.brokerOpen && ss[t].owner == Id(CONTEXT_KIND, c) {
        PendingOfPositive(ss, t, Id(CONTEXT_KIND, c));
      }
    }
    forall d | 0 <= d < |cs'| && cs'[d].used && cs'[d].pictureActive ensures TargetFree(cs', ss, d) {
      if d != c { assert TargetFree(cs, ss, d); }
    }
    forall s | 0 <= s < |ss| && ss[s].used && ss[s].owner != 0 ensures GetContext(cs', ss[s].owner) >= 0 {
      assert GetContext(cs, ss[s].owner) >= 0;
    }
  }

  /** An unowned context slot may be filled or emptied. */
  lemma SlotKeepsWoven(cs: seq<Context>, ss: seq<Surface>, bs: seq<Buffer>, c: nat, z: Context)
    requires Woven(cs, ss, bs) && c < |cs| && !z.pictureActive
    requires forall s :: 0 <= s < |ss| && ss[s].used ==> ss[s].owner != Id(CONTEXT_KIND, c)
    ensures Woven(cs[c := z], ss, bs)
  {
    var cs' := cs[c := z];
    forall t | 0 <= t < |ss| && IsPending(ss[t]) ensures Served(cs', ss, bs, t) {
      assert Served(cs, ss, bs, t);
    }
    forall d | 0 <= d < |cs'| && cs'[d].used && cs'[d].pictureActive ensures TargetFree(cs', ss, d) {
      assert TargetFree(cs, ss, d);
    }
    forall s | 0 <= s < |ss| && ss[s].used && ss[s].owner != 0 ensures GetContext(cs', ss[s].owner) >= 0 {
      assert GetContext(cs, ss[s].owner) >= 0;
    }
  }

  /** An idle surface of context `c` and a free coded buffer become a pending pair. */
  lemma PairKeepsWoven(cs: seq<Context>, ss: seq<Surface>, bs: seq<Buffer>, c: nat, s: nat, b: nat, x: Surface, y: Buffer, z: Context)
    requires Woven(cs, ss, bs) && c < |cs| && s < |ss| && b < |bs|
    requires cs[c].used && ss[s].used && !IsPending(ss[s]) && bs[b].used && bs[b].coded && !Busy(bs[b])
    requires x.used && x.state == Pending && x.owner == Id(CONTEXT_KIND, c) && x.codedBuffer == Id(BUFFER_KIND, b)
    requires x.submitIndex == cs[c].frameIndex
    requires y.used && y.coded && y.pendingSurface == Id(SURFACE_KIND, s)
    requires z.used && z.brokerOpen && z.frameIndex == cs[c].frameIndex + 1 && !z.pictureActive
    ensures Woven(cs[c := z], ss[s := x], bs[b := y])
  {
    var cs', ss', bs' := cs[c := z], ss[s := x], bs[b := y];
    forall t | 0 <= t < |ss'| && IsPending(ss'[t]) ensures Served(cs', ss', bs', t) {
      if t != s { assert Served(cs, ss, bs, t); }
    }
    forall d | 0 <= d < |bs'| && Busy(bs'[d]) ensures Awaited(ss', bs', d) {
      if d != b { assert Awaited(ss, bs, d); }
    }
    forall d | 0 <= d < |cs'| && cs'[d].used && cs'[d].pictureActive ensures TargetFree(cs', ss', d) {
      assert TargetFree(cs, ss, d);
    }
    forall t | 0 <= t < |ss'| && ss'[t].used && ss'[t].owner != 0 ensures GetContext(cs', ss'[t].owner) >= 0 {
      if t != s { assert GetContext(cs, ss[t].owner) >= 0; }
    }
    forall t, u | 0 <= t < u < |ss'| && IsPending(ss'[t]) && PendingFor(ss'[u], ss'[t].owner)
      ensures ss'[t].submitIndex != ss'[u].submitIndex
    {
      if t != s { assert Served(cs, ss, bs, t); }
      if u != s { assert Served(cs, ss, bs, u); }
    }
  }
}
