/**
  The encode runtime of src/vaapi_advc/advc_vaapi_encode_runtime.c. Every public call holds one mutex, so each
  method is one atomic step; broker replies, fences, clocks and allocations are nondeterministic choices.
 */
module EncodeRuntime {
  import opened Bits
  import opened SlotIds
  import opened EncodeLinks
  import opened EncodeEos
  import opened EncodeFifo

  datatype Status =
    | Success | InvalidContext | InvalidSurface | InvalidBuffer | InvalidParameter | InvalidConfig | SurfaceBusy
    | EncodingError | TimedOut | NotEnoughBuffer | OperationFailed | AttributeNotSupported | Unsupported
    | MaxNumExceeded | BrokerFailed | MissingSurface

  /** What the broker answers to a receive request. */
  datatype Receipt = Late | Broken | Coded(payload: int, size: nat, last: bool)

  /** How a wait on a release fence ends. */
  datatype FenceWait = Signalled | FenceLate | FenceBroken

  datatype Call =
    | CreateContext(width: nat, height: nat, targets: seq<int>, supported: bool)
    | DestroyContext(id: int)
    | CreateSurfaces(width: nat, height: nat, count: nat)
    | DestroySurfaces(ids: seq<int>)
    | CreateBuffer(id: int, supported: bool, coded: bool, size: nat, count: nat)
    | DestroyBuffer(id: int)
    | MapBuffer(id: int)
    | UnmapBuffer(id: int)
    | BeginPicture(id: int, target: int, frameMode: bool)
    | RenderPicture(id: int, ids: seq<int>)
    | EndPicture(id: int, frameMode: bool)
    | SyncSurface(id: int)
    | SyncBuffer(id: int)
    | ExportSurface(id: int, write: bool)
    | AcquireImage(id: int, write: bool)

  /** A registered surface belongs to a live context whose session is open. */
  ghost predicate Anchored(cs: seq<Context>, ss: seq<Surface>) {
    forall s :: 0 <= s < |ss| && ss[s].used && ss[s].registered ==>
      var c := GetContext(cs, ss[s].owner); c >= 0 && cs[c].brokerOpen
  }

  // ---------- what draining a session may change ----------

  predicate SurfaceProgress(x: Surface, y: Surface, id: int) {
    y != x ==>
    && x.used && x.owner == id && y == x.(state := y.state, registered := y.registered) && (y.registered ==> x.registered)
    && (y.state != x.state ==> IsPending(x) && (y.state == Ready || y.state == Error))
  }

  predicate BufferProgress(x: Buffer, y: Buffer) {
    && y == x.(pendingSurface := y.pendingSurface, output := y.output)
    && (y.pendingSurface == x.pendingSurface || y.pendingSurface == INVALID)
  }

  predicate ContextProgress(x: Context, y: Context) {
    && y == x.(pendingCount := y.pendingCount, brokerOpen := y.brokerOpen, brokerEos := y.brokerEos, eos := y.eos)
    && y.pendingCount <= x.pendingCount && (y.brokerOpen ==> x.brokerOpen)
    && (!x.frameSession ==> y.brokerOpen == x.brokerOpen)
  }

  ghost predicate SessionProgress(x: Session, y: Session) {
    && y.number == x.number && y.sent == x.sent && y.jobs == x.jobs && x.deliveries <= y.deliveries && ReceivesMore(x.received, y.received)
    && x.trace <= y.trace && (y.intact ==> x.intact)
  }

  /** What any sequence of calls may do to a slot's sessions: a history only grows until the next session begins. */
  predicate SessionEvolves(x: Session, y: Session) {
    && x.number <= y.number
    && (x.number == y.number ==>
          && x.sent <= y.sent && x.jobs <= y.jobs && x.received <= y.received && x.deliveries <= y.deliveries && x.trace <= y.trace
          && (y.intact ==> x.intact))
  }

  ghost predicate Evolves(hs: seq<Session>, hs': seq<Session>) {
    |hs| == |hs'| && forall c :: 0 <= c < |hs| ==> SessionEvolves(hs[c], hs'[c])
  }

  lemma EvolvesRefl(hs: seq<Session>)
    ensures Evolves(hs, hs)
  {
  }

  lemma EvolvesTrans(hs: seq<Session>, hs': seq<Session>, hs'': seq<Session>)
    requires Evolves(hs, hs') && Evolves(hs', hs'')
    ensures Evolves(hs, hs'')
  {
    forall c | 0 <= c < |hs| ensures SessionEvolves(hs[c], hs''[c]) {
      assert SessionEvolves(hs[c], hs'[c]) && SessionEvolves(hs'[c], hs''[c]);
    }
  }

  /** A session not for one frame that stays open between two states, and the number that tells it from the next one. */
  predicate StaysOpen(z: Context, h: Session, z': Context, h': Session) {
    && (z.used && z.brokerOpen ==> h'.number == h.number)
    && (Lasting(z) ==> Lasting(z'))
  }

  predicate Lasting(z: Context) {
    z.used && z.brokerOpen && !z.frameSession
  }

  ghost predicate AllStayOpen(cs: seq<Context>, hs: seq<Session>, cs': seq<Context>, hs': seq<Session>) {
    |cs| == |hs| == |cs'| == |hs'| && forall c :: 0 <= c < |cs| ==> StaysOpen(cs[c], hs[c], cs'[c], hs'[c])
  }

  /** The same, but for a context that is destroyed. */
  ghost predicate OthersStayOpen(cs: seq<Context>, hs: seq<Session>, cs': seq<Context>, hs': seq<Session>, call: Call) {
    && |cs| == |hs| == |cs'| == |hs'|
    && forall c :: 0 <= c < |cs| ==>
         && (cs[c].used && cs[c].brokerOpen ==> hs'[c].number == hs[c].number)
         && (Lasting(cs[c]) && call != Call.DestroyContext(Id(CONTEXT_KIND, c)) ==> Lasting(cs'[c]))
  }

  ghost predicate Undestroyed(calls: seq<Call>, c: nat) {
    forall k :: 0 <= k < |calls| ==> calls[k] != Call.DestroyContext(Id(CONTEXT_KIND, c))
  }

  /** Every lasting session whose context no call destroys is still open and still the same. */
  ghost predicate RunKeepsOpen(cs: seq<Context>, hs: seq<Session>, cs': seq<Context>, hs': seq<Session>, calls: seq<Call>) {
    && |cs| == |hs| == |cs'| == |hs'|
    && forall c :: 0 <= c < |cs| && Lasting(cs[c]) && Undestroyed(calls, c) ==> Lasting(cs'[c]) && hs'[c].number == hs[c].number
  }

  lemma OneMoreCall(
    cs: seq<Context>, hs: seq<Session>, cs': seq<Context>, hs': seq<Session>, cs'': seq<Context>, hs'': seq<Session>,
    calls: seq<Call>, i: nat)
    requires i < |calls| && RunKeepsOpen(cs, hs, cs', hs', calls[..i]) && OthersStayOpen(cs', hs', cs'', hs'', calls[i])
    ensures RunKeepsOpen(cs, hs, cs'', hs'', calls[..i + 1])
  {
    hide Lasting;
    forall c | 0 <= c < |cs| && Lasting(cs[c]) && Undestroyed(calls[..i + 1], c)
      ensures Lasting(cs''[c]) && hs''[c].number == hs[c].number
    {
      assert calls[..i + 1][i] == calls[i];
      forall k | 0 <= k < i ensures calls[..i][k] != Call.DestroyContext(Id(CONTEXT_KIND, c)) {
        assert calls[..i + 1][k] == calls[k];
      }
      assert Undestroyed(calls[..i], c);
      LastingIsOpen(cs'[c]);
    }
  }

  lemma LastingIsOpen(z: Context)
    requires Lasting(z)
    ensures z.used && z.brokerOpen
  {
  }

  lemma MoreCalls(cs: seq<Context>, hs: seq<Session>, cs': seq<Context>, hs': seq<Session>, calls: seq<Call>, i: nat)
    requires i <= |calls| && RunKeepsOpen(cs, hs, cs', hs', calls[..i])
    ensures RunKeepsOpen(cs, hs, cs', hs', calls)
  {
    hide Lasting;
    forall c | 0 <= c < |cs| && Lasting(cs[c]) && Undestroyed(calls, c) ensures Lasting(cs'[c]) && hs'[c].number == hs[c].number {
      assert Undestroyed(calls[..i], c);
    }
  }

  lemma StayOpenRefl(cs: seq<Context>, hs: seq<Session>)
    requires |cs| == |hs|
    ensures AllStayOpen(cs, hs, cs, hs)
  {
  }

  lemma ProgressStaysOpen(
    cs: seq<Context>, ss: seq<Surface>, bs: seq<Buffer>, hs: seq<Session>,
    cs': seq<Context>, ss': seq<Surface>, bs': seq<Buffer>, hs': seq<Session>)
    requires SomeProgress(cs, ss, bs, hs, cs', ss', bs', hs')
    ensures AllStayOpen(cs, hs, cs', hs')
  {
    hide SurfaceProgress, BufferProgress, ReceivesMore;
  }

  /** Only context `c`, its surfaces and coded buffers changed, and only by completing or failing pending pictures. */
  ghost predicate Progress(
    cs: seq<Context>, ss: seq<Surface>, bs: seq<Buffer>, hs: seq<Session>,
    cs': seq<Context>, ss': seq<Surface>, bs': seq<Buffer>, hs': seq<Session>, c: nat)
  {
    && c < |cs| == |cs'| == |hs| == |hs'| && |ss| == |ss'| && |bs| == |bs'|
    && cs' == cs[c := cs'[c]] && hs' == hs[c := hs'[c]]
    && ContextProgress(cs[c], cs'[c]) && SessionProgress(hs[c], hs'[c])
    && (forall s :: 0 <= s < |ss| ==> SurfaceProgress(ss[s], ss'[s], Id(CONTEXT_KIND, c)))
    && (forall b :: 0 <= b < |bs| ==> BufferProgress(bs[b], bs'[b]))
  }

  /** At most one context drained its session. */
  ghost predicate SomeProgress(
    cs: seq<Context>, ss: seq<Surface>, bs: seq<Buffer>, hs: seq<Session>,
    cs': seq<Context>, ss': seq<Surface>, bs': seq<Buffer>, hs': seq<Session>)
  {
    exists c: nat :: Progress(cs, ss, bs, hs, cs', ss', bs', hs', c)
  }

  lemma ProgressTrans(
    cs: seq<Context>, ss: seq<Surface>, bs: seq<Buffer>, hs: seq<Session>,
    cs': seq<Context>, ss': seq<Surface>, bs': seq<Buffer>, hs': seq<Session>,
    cs'': seq<Context>, ss'': seq<Surface>, bs'': seq<Buffer>, hs'': seq<Session>, c: nat)
    requires Progress(cs, ss, bs, hs, cs', ss', bs', hs', c)
    requires Progress(cs', ss', bs', hs', cs'', ss'', bs'', hs'', c)
    ensures Progress(cs, ss, bs, hs, cs'', ss'', bs'', hs'', c)
  {
    forall s | 0 <= s < |ss| ensures SurfaceProgress(ss[s], ss''[s], Id(CONTEXT_KIND, c)) {
      assert SurfaceProgress(ss[s], ss'[s], Id(CONTEXT_KIND, c)) && SurfaceProgress(ss'[s], ss''[s], Id(CONTEXT_KIND, c));
    }
    forall b | 0 <= b < |bs| ensures BufferProgress(bs[b], bs''[b]) {
      assert BufferProgress(bs[b], bs'[b]) && BufferProgress(bs'[b], bs''[b]);
    }
  }

  lemma SomeProgressAt(
    cs: seq<Context>, ss: seq<Surface>, bs: seq<Buffer>, hs: seq<Session>,
    cs': seq<Context>, ss': seq<Surface>, bs': seq<Buffer>, hs': seq<Session>, b: nat)
    requires SomeProgress(cs, ss, bs, hs, cs', ss', bs', hs') && b < |bs|
    ensures |bs'| == |bs| && BufferProgress(bs[b], bs'[b]) && |ss'| == |ss|
  {
  }

  lemma ProgressEvolves(
    cs: seq<Context>, ss: seq<Surface>, bs: seq<Buffer>, hs: seq<Session>,
    cs': seq<Context>, ss': seq<Surface>, bs': seq<Buffer>, hs': seq<Session>)
    requires SomeProgress(cs, ss, bs, hs, cs', ss', bs', hs') && forall d :: 0 <= d < |hs| ==> Decided(hs[d].received)
    ensures Evolves(hs, hs')
  {
    hide SurfaceProgress, BufferProgress, ContextProgress;
    var c: nat :| Progress(cs, ss, bs, hs, cs', ss', bs', hs', c);
    DecidedGrows(hs[c].received, hs'[c].received);
  }

  lemma ProgressAt(
    cs: seq<Context>, ss: seq<Surface>, bs: seq<Buffer>, hs: seq<Session>,
    cs': seq<Context>, ss': seq<Surface>, bs': seq<Buffer>, hs': seq<Session>, c: nat, s: nat)
    requires Progress(cs, ss, bs, hs, cs', ss', bs', hs', c) && s < |ss|
    ensures cs'[c].used == cs[c].used && ss'[s].used == ss[s].used && ss'[s].owner == ss[s].owner
  {
    assert SurfaceProgress(ss[s], ss'[s], Id(CONTEXT_KIND, c));
  }

  /** Draining leaves sessions calm if it leaves no output in hand. */
  lemma ProgressKeepsCalm(
    cs: seq<Context>, ss: seq<Surface>, bs: seq<Buffer>, hs: seq<Session>,
    cs': seq<Context>, ss': seq<Surface>, bs': seq<Buffer>, hs': seq<Session>, c: nat)
    requires Progress(cs, ss, bs, hs, cs', ss', bs', hs', c) && Decided(hs'[c].received)
    requires forall d :: 0 <= d < |hs| ==> Calm(hs[d])
    ensures forall d :: 0 <= d < |hs'| ==> Calm(hs'[d])
  {
    hide SurfaceProgress, BufferProgress, ContextProgress, Decided;
  }

  /** Draining a session that is not for one frame leaves it open. */
  lemma ProgressStays(
    cs: seq<Context>, ss: seq<Surface>, bs: seq<Buffer>, hs: seq<Session>,
    cs': seq<Context>, ss': seq<Surface>, bs': seq<Buffer>, hs': seq<Session>, c: nat)
    requires Progress(cs, ss, bs, hs, cs', ss', bs', hs', c)
    ensures cs'[c].used == cs[c].used && cs'[c].frameSession == cs[c].frameSession
    ensures !cs[c].frameSession ==> cs'[c].brokerOpen == cs[c].brokerOpen
  {
    hide SurfaceProgress, BufferProgress, SessionProgress;
  }

  /** An event of the end-of-stream protocol alone. */
  lemma TraceProgress(
    cs: seq<Context>, ss: seq<Surface>, bs: seq<Buffer>, hs: seq<Session>, cs': seq<Context>, hs': seq<Session>, c: nat)
    requires c < |cs| == |hs| == |cs'| == |hs'| && cs' == cs[c := cs[c].(eos := cs'[c].eos)]
    requires hs' == hs[c := hs[c].(trace := hs'[c].trace)] && hs[c].trace <= hs'[c].trace
    requires forall d :: 0 <= d < |hs| ==> Calm(hs[d])
    ensures Progress(cs, ss, bs, hs, cs', ss, bs, hs', c)
    ensures forall d :: 0 <= d < |hs'| ==> Calm(hs'[d])
  {
    hide Decided;
  }

  /** Draining keeps registrations anchored unless it closes the session, which first drops them. */
  lemma ProgressKeepsAnchored(
    cs: seq<Context>, ss: seq<Surface>, cs': seq<Context>, ss': seq<Surface>, c: nat)
    requires Anchored(cs, ss) && |ss| == |ss'| && c < |cs| == |cs'| && cs' == cs[c := cs'[c]]
    requires cs'[c].used == cs[c].used && cs'[c].brokerOpen == cs[c].brokerOpen
    requires forall s :: 0 <= s < |ss| ==> SurfaceProgress(ss[s], ss'[s], Id(CONTEXT_KIND, c))
    ensures Anchored(cs', ss')
  {
    forall s | 0 <= s < |ss'| && ss'[s].used && ss'[s].registered
      ensures var d := GetContext(cs', ss'[s].owner); d >= 0 && cs'[d].brokerOpen
    {
      assert SurfaceProgress(ss[s], ss'[s], Id(CONTEXT_KIND, c));
    }
  }

  /** The coded buffer of a completed surface holds an output that fits it and carries the surface's timestamp. */
  predicate Stored(bs: seq<Buffer>, x: Surface) {
    var b := GetBuffer(bs, x.codedBuffer);
    && b >= 0 && bs[b].pendingSurface == INVALID && bs[b].output.Some?
    && 0 < bs[b].output.value.size <= bs[b].capacity && InMicros(bs[b].output.value.ptsNs, x.ptsNs)
  }

  /** Surface `s` is the pending surface of context `c` that was submitted first. */
  ghost predicate Oldest(ss: seq<Surface>, c: nat, s: nat) {
    && s < |ss| && PendingFor(ss[s], Id(CONTEXT_KIND, c))
    && forall t :: 0 <= t < |ss| && PendingFor(ss[t], Id(CONTEXT_KIND, c)) ==> ss[s].submitIndex <= ss[t].submitIndex
  }

  /** What a pass that ends with this status makes of its output. */
  function FateOf(r: Status): Fate {
    if r == Success then Placed else if r == TimedOut then Missed else Discarded
  }

  predicate Holds(y: Buffer, out: int, x: Surface) {
    && y.used && y.pendingSurface == INVALID && y.output.Some? && y.output.value.payload == out
    && 0 < y.output.value.size <= y.capacity && InMicros(y.output.value.ptsNs, x.ptsNs)
  }

  lemma SoundIsLinked(cs: seq<Context>, ss: seq<Surface>, bs: seq<Buffer>, hs: seq<Session>)
    requires Sound(cs, ss, bs, hs)
    ensures Linked(cs, ss, bs)
  {
  }

  lemma SoundParts(cs: seq<Context>, ss: seq<Surface>, bs: seq<Buffer>, hs: seq<Session>, c: nat)
    requires Sound(cs, ss, bs, hs) && c < |cs|
    ensures Woven(cs, ss, bs) && Counted(cs, ss, c) && |hs| == |cs| && Tracked(cs, ss, hs, c)
  {
  }

  lemma NothingPending(cs: seq<Context>, ss: seq<Surface>, bs: seq<Buffer>, hs: seq<Session>, c: nat)
    requires Sound(cs, ss, bs, hs) && c < |cs| && cs[c].used && cs[c].pendingCount == 0
    ensures PendingOf(ss, Id(CONTEXT_KIND, c)) == 0
    ensures forall s :: 0 <= s < |ss| ==> !PendingFor(ss[s], Id(CONTEXT_KIND, c))
  {
    assert Counted(cs, ss, c);
    forall s | 0 <= s < |ss| ensures !PendingFor(ss[s], Id(CONTEXT_KIND, c)) {
      if PendingFor(ss[s], Id(CONTEXT_KIND, c)) {
        PendingOfPositive(ss, s, Id(CONTEXT_KIND, c));
      }
    }
  }

  /** The tests `advc_vaapi_encode_frame_validate` makes; `complete` stands for those on what has been rendered. */
  predicate ValidFrame(f: Frame) {
    f.complete && f.bitrate > 0 && FpsOk(f.fpsMilli) && f.codedBuffer != INVALID
  }

  function Opened(z: Context, frameMode: bool): Context {
    z.(brokerOpen := true, brokerFps := z.frame.fpsMilli, brokerBitrate := z.frame.bitrate, frameSession := frameMode,
       brokerEos := false, eos := FRESH_EOS)
  }

  function QueuedContext(z: Context, pts: nat): Context {
    z.(pendingCount := z.pendingCount + 1, frameIndex := z.frameIndex + 1, lastPtsNs := pts, pictureActive := false,
       target := INVALID)
  }

  function QueuedSurface(x: Surface, b: nat, pts: nat, index: nat): Surface {
    x.(state := Pending, codedBuffer := Id(BUFFER_KIND, b), ptsNs := pts, submitIndex := index)
  }

  function WithJob(h: Session, j: Job): Session {
    h.(jobs := h.jobs + [j])
  }

  /** The broker took the picture and it was put on record. */
  function Submission(h: Session, j: Job): Session {
    h.(sent := h.sent + [j.ptsNs], jobs := h.jobs + [j])
  }

  /** Surface `x` awaits the output of the next frame of context `z`, in slot `c`, into buffer slot `b`. */
  predicate IsQueued(x: Surface, c: nat, b: nat, z: Context) {
    && PendingFor(x, Id(CONTEXT_KIND, c)) && x.codedBuffer == Id(BUFFER_KIND, b)
    && x.submitIndex == z.frameIndex && OnTime(x.ptsNs, z.frameIndex, z.frame.fpsMilli)
  }

  /** Size and backing of a surface stay when a picture is queued from it. */
  predicate SameShape(x: Surface, y: Surface) {
    y.used == x.used && y.width == x.width && y.height == x.height
  }

  /** The active picture of context `c` joined the session as its newest job; nothing else changed hands. */
  ghost predicate Submitted(
    cs: seq<Context>, ss: seq<Surface>, bs: seq<Buffer>, hs: seq<Session>,
    cs': seq<Context>, ss': seq<Surface>, bs': seq<Buffer>, hs': seq<Session>, c: nat)
    requires c < |cs| == |cs'| == |hs| == |hs'|
  {
    var s, b := GetSurface(ss, cs[c].target), GetBuffer(bs, cs[c].frame.codedBuffer);
    && s >= 0 && b >= 0 && |ss'| == |ss| && bs[b].owner == Id(CONTEXT_KIND, c) && bs[b].coded && !Busy(bs[b])
    && ss' == ss[s := ss'[s]] && IsQueued(ss'[s], c, b, cs[c]) && SameShape(ss[s], ss'[s])
    && bs' == bs[b := bs[b].(output := None, pendingSurface := Id(SURFACE_KIND, s))]
    && cs'[c].pendingCount == cs[c].pendingCount + 1 && cs'[c].frameIndex == cs[c].frameIndex + 1
    && cs'[c].brokerOpen && cs'[c].brokerFps == cs[c].frame.fpsMilli
    && hs'[c] == Submission(if cs[c].brokerOpen then hs[c] else NewSession(hs[c].number + 1), Job(s, b, ss'[s].ptsNs, cs[c].frameIndex))
  }

  /** The picture was dropped: every pending link, counter and coded buffer is as it was. */
  ghost predicate Refused(
    cs: seq<Context>, ss: seq<Surface>, bs: seq<Buffer>, cs': seq<Context>, ss': seq<Surface>, bs': seq<Buffer>, c: nat)
    requires c < |cs| == |cs'|
  {
    && bs' == bs && |ss'| == |ss| && cs'[c].pendingCount == cs[c].pendingCount && cs'[c].frameIndex == cs[c].frameIndex
    && (forall t :: 0 <= t < |ss| ==>
          ss'[t] == ss[t] ||
          (t == GetSurface(ss, cs[c].target) && !IsPending(ss[t]) && !IsPending(ss'[t]) && SameShape(ss[t], ss'[t])))
  }

  /** A context that stays live may change, its session staying open if it was. */
  lemma AnchoredUpdate(cs: seq<Context>, ss: seq<Surface>, c: nat, z: Context)
    requires Anchored(cs, ss) && c < |cs| && (cs[c].used ==> z.used) && (cs[c].brokerOpen ==> z.brokerOpen)
    ensures Anchored(cs[c := z], ss)
  {
    forall s | 0 <= s < |ss| && ss[s].used && ss[s].registered
      ensures var d := GetContext(cs[c := z], ss[s].owner); d >= 0 && cs[c := z][d].brokerOpen
    {
      assert GetContext(cs, ss[s].owner) >= 0;
    }
  }

  lemma ProgressRefl(cs: seq<Context>, ss: seq<Surface>, bs: seq<Buffer>, hs: seq<Session>, c: nat)
    requires c < |cs| == |hs|
    ensures Progress(cs, ss, bs, hs, cs, ss, bs, hs, c)
  {
  }

  lemma SomeProgressRefl(cs: seq<Context>, ss: seq<Surface>, bs: seq<Buffer>, hs: seq<Session>)
    requires 0 < |cs| == |hs|
    ensures SomeProgress(cs, ss, bs, hs, cs, ss, bs, hs)
  {
    ProgressRefl(cs, ss, bs, hs, 0);
  }

  lemma CountedPositive(cs: seq<Context>, ss: seq<Surface>, c: nat)
    requires c < |cs| && cs[c].used && Counted(cs, ss, c) && cs[c].pendingCount > 0
    ensures exists s :: 0 <= s < |ss| && PendingFor(ss[s], Id(CONTEXT_KIND, c))
  {
    if forall s :: 0 <= s < |ss| ==> !PendingFor(ss[s], Id(CONTEXT_KIND, c)) {
      PendingOfZero(ss, Id(CONTEXT_KIND, c));
    }
  }

  /** What closing the context `id` does to a surface. */
  predicate Released(x: Surface, y: Surface, id: int) {
    if x.used && x.owner == id
    then y == x.(owner := 0, codedBuffer := INVALID, registered := false, state := y.state) && y.state != Pending &&
         (y.state == x.state || y.state == Error)
    else y == x
  }

  /** What finishing and closing the context `id` does to a surface. */
  predicate LetGo(x: Surface, y: Surface, id: int) {
    if x.used && x.owner == id then y.used && y.owner == 0 && !IsPending(y) && !y.registered else y == x
  }

  lemma BusyIsAwaited(cs: seq<Context>, ss: seq<Surface>, bs: seq<Buffer>, b: nat)
    requires Woven(cs, ss, bs) && b < |bs| && Busy(bs[b])
    ensures var s := GetSurface(ss, bs[b].pendingSurface); s >= 0 && IsPending(ss[s]) && ss[s].owner != 0
  {
    assert Awaited(ss, bs, b);
    var s := GetSurface(ss, bs[b].pendingSurface);
    assert Served(cs, ss, bs, s);
  }

  lemma AnchoredWithout(cs: seq<Context>, ss: seq<Surface>, c: nat)
    requires Anchored(cs, ss) && c < |cs|
    requires forall s :: 0 <= s < |ss| && ss[s].used ==> ss[s].owner != Id(CONTEXT_KIND, c)
    ensures Anchored(cs[c := NO_CONTEXT], ss)
  {
    forall s | 0 <= s < |ss| && ss[s].used && ss[s].registered
      ensures var d := GetContext(cs[c := NO_CONTEXT], ss[s].owner); d >= 0 && cs[c := NO_CONTEXT][d].brokerOpen
    {
      assert GetContext(cs, ss[s].owner) >= 0;
    }
  }

  predicate Destroyable(ss: seq<Surface>, id: int) {
    var s := GetSurface(ss, id);
    s >= 0 && ss[s].state != Pending && !ss[s].registered
  }

  ghost predicate AllDestroyable(ss: seq<Surface>, ids: seq<int>) {
    forall k :: 0 <= k < |ids| ==> Destroyable(ss, ids[k])
  }

  ghost predicate Unrepeated(ids: seq<int>) {
    forall j, k :: 0 <= j < k < |ids| ==> ids[j] != ids[k]
  }

  predicate Renderable(bs: seq<Buffer>, id: int, contextId: int) {
    var b := GetBuffer(bs, id);
    b >= 0 && bs[b].owner == contextId && !bs[b].mapped && !bs[b].coded
  }

  function NewBuffer(contextId: int, coded: bool, total: nat): Buffer {
    NO_BUFFER.(used := true, owner := contextId, coded := coded, capacity := if coded then total else 0, pendingSurface := INVALID)
  }

  function Begun(z: Context, target: int): Context {
    z.(pictureActive := true, target := target, frame := z.frame.(codedBuffer := INVALID, complete := false))
  }

  lemma AnchoredFill(cs: seq<Context>, ss: seq<Surface>, c: nat, z: Context)
    requires Anchored(cs, ss) && c < |cs| && !cs[c].used
    ensures Anchored(cs[c := z], ss)
  {
    forall s | 0 <= s < |ss| && ss[s].used && ss[s].registered
      ensures var d := GetContext(cs[c := z], ss[s].owner); d >= 0 && cs[c := z][d].brokerOpen
    {
      assert GetContext(cs, ss[s].owner) >= 0;
    }
  }

  function NewSurface(width: nat, height: nat): Surface {
    NO_SURFACE.(used := true, width := width, height := height, codedBuffer := INVALID)
  }

  ghost predicate Increasing(ids: seq<int>) {
    forall j, k :: 0 <= j < k < |ids| ==> ids[j] < ids[k]
  }

  /** The surfaces in use are those of `ss` and, in free slots of it, exactly those named by `ids`, each equal to `x`. */
  ghost predicate Made(ss: seq<Surface>, ss': seq<Surface>, ids: seq<int>, x: Surface) {
    && |ss'| == |ss|
    && (forall k :: 0 <= k < |ids| ==> MadeAt(ss, ss', ids[k], x))
    && (forall s :: 0 <= s < |ss| && ss[s].used ==> ss'[s] == ss[s])
    && (forall s :: 0 <= s < |ss| && !ss[s].used && ss'[s].used ==> Id(SURFACE_KIND, s) in ids)
  }

  predicate MadeAt(ss: seq<Surface>, ss': seq<Surface>, id: int, x: Surface)
    requires |ss'| == |ss|
  {
    var s := GetSurface(ss', id);
    s >= 0 && !ss[s].used && ss'[s] == x
  }

  lemma MadeNone(ss: seq<Surface>, x: Surface)
    ensures Made(ss, ss, [], x) && Increasing([])
  {
  }

  lemma MadeStep(ss: seq<Surface>, ss': seq<Surface>, ids: seq<int>, x: Surface, i: nat)
    requires Made(ss, ss', ids, x) && Increasing(ids) && i < |ss| && !ss'[i].used && x.used
    requires forall k :: 0 <= k < |ids| ==> ids[k] < Id(SURFACE_KIND, i)
    ensures Made(ss, ss'[i := x], ids + [Id(SURFACE_KIND, i)], x) && Increasing(ids + [Id(SURFACE_KIND, i)])
  {
    var ids' := ids + [Id(SURFACE_KIND, i)];
    assert ids'[|ids|] in ids';
    forall k | 0 <= k < |ids'| ensures MadeAt(ss, ss'[i := x], ids'[k], x) {
      if k < |ids| { assert MadeAt(ss, ss', ids[k], x); }
    }
    forall s | 0 <= s < |ss| && !ss[s].used && ss'[i := x][s].used ensures Id(SURFACE_KIND, s) in ids' {
      if s != i { assert Id(SURFACE_KIND, s) in ids; }
    }
  }

  lemma MadeClear(ss: seq<Surface>, ss': seq<Surface>, ids: seq<int>, x: Surface, i: nat)
    requires Made(ss, ss', ids, x) && i < |ss| && !ss'[i].used
    ensures Made(ss, ss'[i := NO_SURFACE], ids, x)
  {
    forall k | 0 <= k < |ids| ensures MadeAt(ss, ss'[i := NO_SURFACE], ids[k], x) {
      assert MadeAt(ss, ss', ids[k], x);
    }
  }

  lemma MadeIds(ss: seq<Surface>, ss': seq<Surface>, ids: seq<int>, x: Surface)
    requires Made(ss, ss', ids, x) && Increasing(ids) && !IsPending(x)
    ensures forall k :: 0 <= k < |ids| ==> var s := GetSurface(ss', ids[k]); s >= 0 && !IsPending(ss'[s])
    ensures forall j, k :: 0 <= j < k < |ids| ==> ids[j] != ids[k]
  {
    forall k | 0 <= k < |ids| ensures var s := GetSurface(ss', ids[k]); s >= 0 && !IsPending(ss'[s]) {
      assert MadeAt(ss, ss', ids[k], x);
    }
  }

  lemma MadeUndone(ss: seq<Surface>, ss': seq<Surface>, ss'': seq<Surface>, ids: seq<int>, x: Surface)
    requires Made(ss, ss', ids, x) && |ss''| == |ss|
    requires forall s :: 0 <= s < |ss| ==> ss''[s] == if ss'[s].used && Id(SURFACE_KIND, s) in ids then NO_SURFACE else ss'[s]
    ensures Made(ss, ss'', [], x)
  {
    forall k | 0 <= k < |ids|
      ensures var s := ids[k] - SURFACE_KIND - 1; 0 <= s < |ss| && !ss[s].used
    {
      assert MadeAt(ss, ss', ids[k], x);
    }
  }

  class Runtime {
    var contexts: seq<Context>
    var surfaces: seq<Surface>
    var buffers: seq<Buffer>
    ghost var sessions: seq<Session>

    ghost predicate Core()
      reads this
      ensures Core() ==> |contexts| == CONTEXT_SLOTS && |surfaces| == SURFACE_SLOTS && |buffers| == BUFFER_SLOTS && |sessions| == CONTEXT_SLOTS
    {
      Sound(contexts, surfaces, buffers, sessions) && Anchored(contexts, surfaces)
    }

    /** No session has an output in hand or a picture that is not on record. */
    ghost predicate AllCalm()
      reads this
    {
      forall c :: 0 <= c < |sessions| ==> Calm(sessions[c])
    }

    /** Between public calls nothing is half done, and no context has started its end-of-stream protocol. */
    ghost predicate Valid()
      reads this
    {
      Core() && AllCalm() && forall c :: 0 <= c < |contexts| && contexts[c].used ==> contexts[c].eos == FRESH_EOS
    }

    /** `find_oldest_pending_surface`. */
    method FindOldest(c: nat) returns (oldest: int)
      requires c < |contexts| && contexts[c].used
      ensures -1 <= oldest < |surfaces|
      ensures oldest < 0 ==> forall t :: 0 <= t < |surfaces| ==> !PendingFor(surfaces[t], Id(CONTEXT_KIND, c))
      ensures oldest >= 0 ==> PendingFor(surfaces[oldest], Id(CONTEXT_KIND, c))
      ensures oldest >= 0 ==> forall t :: 0 <= t < |surfaces| && PendingFor(surfaces[t], Id(CONTEXT_KIND, c)) ==>
                                surfaces[oldest].submitIndex <= surfaces[t].submitIndex
    {
      oldest := -1;
      for i := 0 to |surfaces|
        invariant -1 <= oldest < i
        invariant oldest < 0 ==> forall t :: 0 <= t < i ==> !PendingFor(surfaces[t], Id(CONTEXT_KIND, c))
        invariant oldest >= 0 ==> PendingFor(surfaces[oldest], Id(CONTEXT_KIND, c))
        invariant oldest >= 0 ==> forall t :: 0 <= t < i && PendingFor(surfaces[t], Id(CONTEXT_KIND, c)) ==>
                                    surfaces[oldest].submitIndex <= surfaces[t].submitIndex
      {
        if surfaces[i].used && surfaces[i].state == Pending && surfaces[i].owner != 0 &&
           GetContext(contexts, surfaces[i].owner) == c {
          if oldest < 0 || surfaces[i].submitIndex < surfaces[oldest].submitIndex {
            oldest := i;
          }
        }
      }
    }

    /** `mark_context_pending_error`: every picture the context has in flight fails. */
    method MarkPendingError(c: nat)
      requires Core() && c < |contexts| && contexts[c].used
      modifies this
      ensures Core()
      ensures Progress(old(contexts), old(surfaces), old(buffers), old(sessions), contexts, surfaces, buffers, sessions, c)
      ensures contexts == old(contexts)[c := old(contexts)[c].(pendingCount := 0)]
      ensures sessions == old(sessions)[c := old(sessions)[c].(intact := false)]
      ensures forall t :: 0 <= t < |surfaces| ==>
                surfaces[t] == if PendingFor(old(surfaces)[t], Id(CONTEXT_KIND, c)) then old(surfaces)[t].(state := Error)
                               else old(surfaces)[t]
    {
      hide PendingOf, InOrder, Ordered, Served, Awaited, StateOf;
      var id := Id(CONTEXT_KIND, c);
      ghost var ss, bs := surfaces, buffers;
      for i := 0 to |surfaces|
        invariant |surfaces| == |ss| && |buffers| == |bs|
        invariant contexts == old(contexts) && sessions == old(sessions)
        invariant Woven(contexts, surfaces, buffers)
        invariant forall t :: 0 <= t < |ss| ==>
                    surfaces[t] == if t < i && PendingFor(ss[t], id) then ss[t].(state := Error) else ss[t]
        invariant forall b :: 0 <= b < |bs| ==> BufferProgress(bs[b], buffers[b])
      {
        if surfaces[i].used && surfaces[i].state == Pending && surfaces[i].owner != 0 &&
           GetContext(contexts, surfaces[i].owner) == c {
          var b := GetBuffer(buffers, surfaces[i].codedBuffer);
          ServedBuffer(contexts, surfaces, buffers, i);
          var x, y := surfaces[i].(state := Error), buffers[b].(pendingSurface := INVALID);
          UnpairKeepsWoven(contexts, surfaces, buffers, i, b, x, y);
          surfaces := surfaces[i := x];
          buffers := buffers[b := y];
        }
      }
      FailKeepsSound(contexts, ss, bs, sessions, surfaces, buffers, c);
      contexts := contexts[c := contexts[c].(pendingCount := 0)];
      sessions := sessions[c := sessions[c].(intact := false)];
      ProgressKeepsAnchored(old(contexts), ss, contexts, surfaces, c);
    }

    /** An output is stored in the coded buffer of the context's oldest pending picture. */
    method Deliver(c: nat, s: nat, b: nat, out: int, size: nat)
      requires Core() && c < |contexts| && s < |surfaces| && contexts[c].used
      requires PendingFor(surfaces[s], Id(CONTEXT_KIND, c)) && b == GetBuffer(buffers, surfaces[s].codedBuffer)
      requires forall t :: 0 <= t < |surfaces| && PendingFor(surfaces[t], Id(CONTEXT_KIND, c)) ==>
                 surfaces[s].submitIndex <= surfaces[t].submitIndex
      requires 0 < size <= buffers[b].capacity && Holding(sessions[c].received, out)
      modifies this
      ensures Core()
      ensures Progress(old(contexts), old(surfaces), old(buffers), old(sessions), contexts, surfaces, buffers, sessions, c)
      ensures old(contexts)[c].pendingCount > 0
      ensures contexts == old(contexts)[c := old(contexts)[c].(pendingCount := old(contexts)[c].pendingCount - 1)]
      ensures surfaces == old(surfaces)[s := old(surfaces)[s].(state := Ready)]
      ensures buffers == old(buffers)[b := buffers[b]] && Holds(buffers[b], out, surfaces[s])
      ensures sessions == old(sessions)[c := Delivered(old(sessions)[c], b, MediaPts(surfaces[s].ptsNs))]
    {
      hide PendingOf, InOrder, Ordered, StateOf, Woven, Sound;
      DecideLast(sessions[c].received, out, Placed);
      DeliverKeepsSound(contexts, surfaces, buffers, sessions, c, s, b, out, size);
      var pts := MediaPts(surfaces[s].ptsNs);
      sessions := sessions[c := Delivered(sessions[c], b, pts)];
      buffers := buffers[b := buffers[b].(output := Some(Output(out, size, pts)), pendingSurface := INVALID)];
      surfaces := surfaces[s := surfaces[s].(state := Ready)];
      contexts := contexts[c := contexts[c].(pendingCount := contexts[c].pendingCount - 1)];
      ProgressKeepsAnchored(old(contexts), old(surfaces), contexts, surfaces, c);
    }

    /** A frame session is closed as soon as nothing is pending; its registrations go with it. */
    method CloseFrameSession(c: nat)
      requires Core() && c < |contexts| && contexts[c].used && contexts[c].frameSession && contexts[c].pendingCount == 0
      modifies this
      ensures Core()
      ensures Progress(old(contexts), old(surfaces), old(buffers), old(sessions), contexts, surfaces, buffers, sessions, c)
      ensures contexts == old(contexts)[c := old(contexts)[c].(brokerOpen := false)]
      ensures sessions == old(sessions) && buffers == old(buffers)
      ensures forall t :: 0 <= t < |surfaces| ==>
                surfaces[t] == if old(surfaces)[t].used && old(surfaces)[t].owner == Id(CONTEXT_KIND, c)
                               then old(surfaces)[t].(registered := false) else old(surfaces)[t]
    {
      hide PendingOf, InOrder, Ordered, StateOf, Woven, Sound;
      NothingPending(contexts, surfaces, buffers, sessions, c);
      for i := 0 to |surfaces|
        invariant |surfaces| == SURFACE_SLOTS
        invariant contexts == old(contexts) && sessions == old(sessions) && buffers == old(buffers)
        invariant Sound(contexts, surfaces, buffers, sessions)
        invariant forall t :: 0 <= t < |surfaces| ==>
                    surfaces[t] == if t < i && old(surfaces)[t].used && old(surfaces)[t].owner == Id(CONTEXT_KIND, c)
                                   then old(surfaces)[t].(registered := false) else old(surfaces)[t]
      {
        if surfaces[i].used && surfaces[i].owner != 0 && GetContext(contexts, surfaces[i].owner) == c {
          var x := surfaces[i].(registered := false);
          QuietSurfaceKeepsSound(contexts, surfaces, buffers, sessions, i, x);
          surfaces := surfaces[i := x];
        }
      }
      NothingPending(contexts, surfaces, buffers, sessions, c);
      SoundParts(contexts, surfaces, buffers, sessions, c);
      SessionKeepsSound(contexts, surfaces, buffers, sessions, c, contexts[c].(brokerOpen := false), sessions[c]);
      assert sessions == sessions[c := sessions[c]];
      contexts := contexts[c := contexts[c].(brokerOpen := false)];
    }

    /** The oldest picture is completed, and a frame session with nothing left is closed. */
    method Complete(c: nat, s: nat, b: nat, out: int, size: nat)
      requires Core() && c < |contexts| && s < |surfaces| && contexts[c].used
      requires PendingFor(surfaces[s], Id(CONTEXT_KIND, c)) && b == GetBuffer(buffers, surfaces[s].codedBuffer)
      requires forall t :: 0 <= t < |surfaces| && PendingFor(surfaces[t], Id(CONTEXT_KIND, c)) ==>
                 surfaces[s].submitIndex <= surfaces[t].submitIndex
      requires 0 < size <= buffers[b].capacity && Holding(sessions[c].received, out)
      modifies this
      ensures Core()
      ensures Progress(old(contexts), old(surfaces), old(buffers), old(sessions), contexts, surfaces, buffers, sessions, c)
      ensures contexts[c].eos == old(contexts)[c].eos && contexts[c].pendingCount < old(contexts)[c].pendingCount
      ensures sessions == old(sessions)[c := Delivered(old(sessions)[c], b, MediaPts(surfaces[s].ptsNs))]
      ensures surfaces[s].state == Ready && Stored(buffers, surfaces[s]) && Holds(buffers[b], out, surfaces[s])
      ensures forall t :: 0 <= t < |surfaces| && t != s ==> surfaces[t].state == old(surfaces)[t].state
    {
      hide Core, PendingOf, Delivered, Progress, SurfaceProgress, BufferProgress, SessionProgress;
      Deliver(c, s, b, out, size);
      if contexts[c].frameSession && contexts[c].pendingCount == 0 {
        ghost var cs, ss, bs, hs := contexts, surfaces, buffers, sessions;
        CloseFrameSession(c);
        ProgressTrans(old(contexts), old(surfaces), old(buffers), old(sessions), cs, ss, bs, hs,
                      contexts, surfaces, buffers, sessions, c);
      }
    }

    /** `advc_vaapi_encode_broker_receive`: an output that comes is on record at once; it must meet its fate before the next. */
    method Receive(c: nat, reply: Receipt) returns (r: Receipt)
      requires Core() && c < |contexts| && Decided(sessions[c].received)
      modifies this`sessions
      ensures Core() && r == reply
      ensures Progress(contexts, surfaces, buffers, old(sessions), contexts, surfaces, buffers, sessions, c)
      ensures r.Coded? ==>
                && Holding(sessions[c].received, r.payload)
                && sessions == old(sessions)[c := old(sessions)[c].(received := old(sessions)[c].received + [Received(r.payload, Undecided)])]
      ensures !r.Coded? ==> sessions == old(sessions)
    {
      r := reply;
      if r.Coded? {
        ghost var rs := sessions[c].received;
        HoldNext(rs, r.payload);
        KeptSnoc(rs, Received(r.payload, Undecided));
        assert Kept(rs) + [] == Kept(rs);
        hide Kept;
        SetReceived(c, rs + [Received(r.payload, Undecided)]);
      }
    }

    /**
      `advc_vaapi_encode_coded_output_close` on the output in hand: it is missed, or it is discarded, which happens only
      once its pictures have failed or when none is waiting.
     */
    method CloseOutput(c: nat, out: int, ghost fate: Fate)
      requires Core() && c < |contexts| && Holding(sessions[c].received, out)
      requires fate == Missed || (fate == Discarded && (sessions[c].intact ==> contexts[c].pendingCount == 0))
      modifies this`sessions
      ensures Core() && Decided(sessions[c].received)
      ensures Progress(contexts, surfaces, buffers, old(sessions), contexts, surfaces, buffers, sessions, c)
      ensures sessions == old(sessions)[c := old(sessions)[c].(received := Decide(old(sessions)[c].received, fate))]
    {
      ghost var rs := sessions[c].received;
      DecideLast(rs, out, fate);
      KeptDecide(rs, fate);
      assert Kept(rs) + [] == Kept(rs);
      hide Kept;
      SetReceived(c, Decide(rs, fate));
    }

    ghost method SetReceived(c: nat, rs: seq<Received>)
      requires Core() && c < |contexts| && Kept(rs) == Kept(sessions[c].received) && ReceivesMore(sessions[c].received, rs)
      modifies this`sessions
      ensures Core() && sessions == old(sessions)[c := old(sessions)[c].(received := rs)]
      ensures Progress(contexts, surfaces, buffers, old(sessions), contexts, surfaces, buffers, sessions, c)
    {
      hide PendingOf, InOrder, Ordered, StateOf, Woven, Sound, Kept;
      ReceivedKeepsSound(contexts, surfaces, buffers, sessions, c, rs, sessions[c].sent);
      sessions := sessions[c := sessions[c].(received := rs)];
    }

    /** Everything in flight fails, and the output in hand is closed. */
    method FailWith(c: nat, out: int)
      requires Core() && c < |contexts| && contexts[c].used && Holding(sessions[c].received, out)
      modifies this
      ensures Core() && Decided(sessions[c].received)
      ensures Progress(old(contexts), old(surfaces), old(buffers), old(sessions), contexts, surfaces, buffers, sessions, c)
      ensures contexts == old(contexts)[c := old(contexts)[c].(pendingCount := 0)]
      ensures sessions == old(sessions)[c := old(sessions)[c].(intact := false, received := Decide(old(sessions)[c].received, Discarded))]
      ensures forall t :: 0 <= t < |surfaces| && PendingFor(old(surfaces)[t], Id(CONTEXT_KIND, c)) ==> surfaces[t].state == Error
    {
      hide Core, Progress, PendingOf;
      MarkPendingError(c);
      ghost var cs, ss, bs, hs := contexts, surfaces, buffers, sessions;
      CloseOutput(c, out, Discarded);
      ProgressTrans(old(contexts), old(surfaces), old(buffers), old(sessions), cs, ss, bs, hs,
                    contexts, surfaces, buffers, sessions, c);
    }

    /** One pass of the loop of `sync_surface_locked`, once an output has been received. */
    method Absorb(c: nat, s: nat, out: int, size: nat, wait: FenceWait) returns (r: Status)
      requires Core() && c < |contexts| && s < |surfaces| && contexts[c].used
      requires PendingFor(surfaces[s], Id(CONTEXT_KIND, c)) && Holding(sessions[c].received, out)
      modifies this
      ensures Core() && Decided(sessions[c].received)
      ensures Progress(old(contexts), old(surfaces), old(buffers), old(sessions), contexts, surfaces, buffers, sessions, c)
      ensures contexts[c].eos == old(contexts)[c].eos && sessions[c].trace == old(sessions)[c].trace
      ensures r == Success ==> contexts[c].pendingCount < old(contexts)[c].pendingCount && sessions[c].intact == old(sessions)[c].intact
      ensures r == Success ==> surfaces[s].state == Pending || (surfaces[s].state == Ready && Stored(buffers, surfaces[s]))
      ensures r == TimedOut ==> surfaces[s].state == Pending
      ensures r != Success && r != TimedOut ==> surfaces[s].state == Error && contexts[c].pendingCount == 0
      ensures r == TimedOut <==> size > 0 && wait == FenceLate
      ensures sessions[c].received == Decide(old(sessions)[c].received, FateOf(r))
      ensures r == TimedOut ==>
                && contexts == old(contexts) && surfaces == old(surfaces) && buffers == old(buffers)
                && sessions == old(sessions)[c := old(sessions)[c].(received := sessions[c].received)]
      ensures wait == Signalled && size > 0 && (forall b :: 0 <= b < |buffers| && old(buffers)[b].coded ==> size <= old(buffers)[b].capacity) ==>
                r == Success
      ensures r == Success ==>
                exists t, b :: 0 <= t < |surfaces| && b == GetBuffer(old(buffers), old(surfaces)[t].codedBuffer) && Oldest(old(surfaces), c, t) &&
                  b >= 0 && Holds(buffers[b], out, surfaces[t]) &&
                  sessions == old(sessions)[c := Delivered(old(sessions)[c], b, MediaPts(surfaces[t].ptsNs))]
    {
      hide PendingOf, InOrder, Ordered, StateOf, Woven, Sound, Anchored, Stored, SurfaceProgress, BufferProgress, ContextProgress;
      if size == 0 {
        FailWith(c, out);
        return EncodingError;
      }
      var completed := FindOldest(c);
      SoundIsLinked(contexts, surfaces, buffers, sessions);
      PendingIsServed(contexts, surfaces, buffers, completed);
      var b := GetBuffer(buffers, surfaces[completed].codedBuffer);
      if wait == FenceLate {
        CloseOutput(c, out, Missed);
        return TimedOut;
      }
      if wait == FenceBroken {
        FailWith(c, out);
        return EncodingError;
      }
      if size > buffers[b].capacity {
        FailWith(c, out);
        return NotEnoughBuffer;
      }
      DecideLast(sessions[c].received, out, Placed);
      Complete(c, completed, b, out, size);
      return Success;
    }

    method NoteEnd(c: nat)
      requires Core() && c < |contexts| && contexts[c].used
      modifies this
      ensures Core()
      ensures Progress(old(contexts), old(surfaces), old(buffers), old(sessions), contexts, surfaces, buffers, sessions, c)
      ensures contexts == old(contexts)[c := old(contexts)[c].(brokerEos := true)]
      ensures surfaces == old(surfaces) && buffers == old(buffers) && sessions == old(sessions)
    {
      var z := contexts[c].(brokerEos := true);
      SoundParts(contexts, surfaces, buffers, sessions, c);
      hide PendingOf, InOrder, Ordered, StateOf, Woven, Sound;
      ActiveStaysFree(contexts, surfaces, buffers, c, z);
      ContextKeepsSound(contexts, surfaces, buffers, sessions, c, z);
      contexts := contexts[c := z];
      ProgressKeepsAnchored(old(contexts), surfaces, contexts, surfaces, c);
    }

    /** `sync_surface_locked`: receive outputs, completing the oldest picture each time, until this one is done. */
    method SyncLocked(s: nat) returns (r: Status)
      requires Core() && AllCalm() && s < |surfaces| && surfaces[s].used
      modifies this
      ensures Core() && AllCalm()
      ensures !IsPending(old(surfaces)[s]) ==>
                && unchanged(this) && r == if surfaces[s].state == Error then EncodingError else Success
      ensures IsPending(old(surfaces)[s]) ==>
                var c := GetContext(old(contexts), old(surfaces)[s].owner);
                && c >= 0
                && Progress(old(contexts), old(surfaces), old(buffers), old(sessions), contexts, surfaces, buffers, sessions, c)
                && contexts[c].eos == old(contexts)[c].eos && sessions[c].trace == old(sessions)[c].trace
                && (r == Success <==> surfaces[s].state == Ready)
                && (r == TimedOut <==> surfaces[s].state == Pending)
                && (surfaces[s].state == Error ==> contexts[c].pendingCount == 0)
                && (r == Success ==> contexts[c].pendingCount < old(contexts)[c].pendingCount && sessions[c].intact == old(sessions)[c].intact)
                && (r == Success ==> Stored(buffers, surfaces[s]))
    {
      hide PendingOf, InOrder, Ordered, StateOf, Woven, Sound, Anchored, Delivered, Progress, Stored, Decided, Matched;
      if surfaces[s].state != Pending {
        return if surfaces[s].state == Error then EncodingError else Success;
      }
      SoundIsLinked(contexts, surfaces, buffers, sessions);
      PendingIsServed(contexts, surfaces, buffers, s);
      var c := GetContext(contexts, surfaces[s].owner);
      ghost var cs, ss, bs, hs := contexts, surfaces, buffers, sessions;
      ProgressRefl(cs, ss, bs, hs, c);
      while surfaces[s].state == Pending
        invariant Core() && AllCalm() && contexts[c].used && surfaces[s].used && surfaces[s].owner == Id(CONTEXT_KIND, c)
        invariant Progress(cs, ss, bs, hs, contexts, surfaces, buffers, sessions, c)
        invariant contexts[c].eos == cs[c].eos && sessions[c].trace == hs[c].trace && sessions[c].intact == hs[c].intact
        invariant surfaces[s].state == Pending || surfaces[s].state == Ready
        invariant contexts[c].pendingCount <= cs[c].pendingCount
        invariant surfaces[s].state == Ready ==>
                    contexts[c].pendingCount < cs[c].pendingCount && Stored(buffers, surfaces[s])
        decreases contexts[c].pendingCount
      {
        ghost var cs1, ss1, bs1, hs1 := contexts, surfaces, buffers, sessions;
        var reply: Receipt, wait: FenceWait := *, *;
        r := ReceiveOne(c, s, reply, wait);
        ProgressKeepsCalm(cs1, ss1, bs1, hs1, contexts, surfaces, buffers, sessions, c);
        ProgressTrans(cs, ss, bs, hs, cs1, ss1, bs1, hs1, contexts, surfaces, buffers, sessions, c);
        if r != Success { return r; }
      }
      return Success;
    }

    /** One receive request and what comes of it: at most one output is received, and it meets its fate. */
    method ReceiveOne(c: nat, s: nat, reply: Receipt, wait: FenceWait) returns (r: Status)
      requires Core() && c < |contexts| && s < |surfaces| && contexts[c].used && Decided(sessions[c].received)
      requires PendingFor(surfaces[s], Id(CONTEXT_KIND, c))
      modifies this
      ensures Core() && Decided(sessions[c].received)
      ensures Progress(old(contexts), old(surfaces), old(buffers), old(sessions), contexts, surfaces, buffers, sessions, c)
      ensures contexts[c].used && surfaces[s].used && surfaces[s].owner == Id(CONTEXT_KIND, c)
      ensures contexts[c].eos == old(contexts)[c].eos && sessions[c].trace == old(sessions)[c].trace
      ensures r == Success ==> reply.Coded? && contexts[c].pendingCount < old(contexts)[c].pendingCount && sessions[c].intact == old(sessions)[c].intact
      ensures r == Success ==> surfaces[s].state == Pending || (surfaces[s].state == Ready && Stored(buffers, surfaces[s]))
      ensures r == TimedOut ==> surfaces[s].state == Pending
      ensures r != Success && r != TimedOut ==> surfaces[s].state == Error && contexts[c].pendingCount == 0
      ensures sessions[c].received ==
              old(sessions)[c].received + if reply.Coded? then [Received(reply.payload, FateOf(r))] else []
    {
      hide Core, PendingOf, Stored, Progress, Decided, Holds, Oldest, MediaPts, GetBuffer, Delivered, Decide, FateOf;
      ghost var cs, ss, bs, hs := contexts, surfaces, buffers, sessions;
      ProgressRefl(cs, ss, bs, hs, c);
      var got := Receive(c, reply);
      match got {
        case Late => r := TimedOut;
        case Broken =>
          MarkPendingError(c);
          r := EncodingError;
        case Coded(out, size, last) =>
          ghost var cs1, ss1, bs1, hs1 := contexts, surfaces, buffers, sessions;
          if last {
            NoteEnd(c);
            ProgressTrans(cs, ss, bs, hs, cs1, ss1, bs1, hs1, contexts, surfaces, buffers, sessions, c);
            cs1, ss1, bs1, hs1 := contexts, surfaces, buffers, sessions;
          }
          r := Absorb(c, s, out, size, wait);
          ProgressTrans(cs, ss, bs, hs, cs1, ss1, bs1, hs1, contexts, surfaces, buffers, sessions, c);
          DecideNext(hs[c].received, out, FateOf(r));
      }
      ProgressAt(cs, ss, bs, hs, contexts, surfaces, buffers, sessions, c, s);
    }

    // ---------- single-slot updates ----------

    method SetSurface(s: nat, x: Surface)
      requires Core() && s < |surfaces| && !IsPending(surfaces[s]) && !IsPending(x)
      requires x.used && x.owner != 0 ==> GetContext(contexts, x.owner) >= 0
      requires x.used && x.registered ==> var c := GetContext(contexts, x.owner); c >= 0 && contexts[c].brokerOpen
      modifies this`surfaces
      ensures Core() && surfaces == old(surfaces)[s := x]
    {
      hide PendingOf, InOrder, Ordered, StateOf, Woven, Sound;
      QuietSurfaceKeepsSound(contexts, surfaces, buffers, sessions, s, x);
      surfaces := surfaces[s := x];
    }

    method SetBuffer(b: nat, y: Buffer)
      requires Core() && b < |buffers|
      requires (!Busy(buffers[b]) && !Busy(y)) ||
               (buffers[b].used && y.used && y.coded == buffers[b].coded && y.pendingSurface == buffers[b].pendingSurface)
      modifies this`buffers
      ensures Core() && buffers == old(buffers)[b := y]
    {
      hide PendingOf, InOrder, Ordered, StateOf, Woven, Sound;
      QuietBufferKeepsSound(contexts, surfaces, buffers, sessions, b, y);
      buffers := buffers[b := y];
    }

    /** The active picture, if any, is abandoned. */
    method DropPicture(c: nat)
      requires Core() && c < |contexts| && contexts[c].used
      modifies this`contexts
      ensures Core() && contexts == old(contexts)[c := old(contexts)[c].(pictureActive := false, target := INVALID)]
    {
      hide PendingOf, InOrder, Ordered, StateOf, Woven, Sound;
      var z := contexts[c].(pictureActive := false, target := INVALID);
      ContextKeepsSound(contexts, surfaces, buffers, sessions, c, z);
      contexts := contexts[c := z];
      AnchoredUpdate(old(contexts), surfaces, c, z);
    }

    /** The part of `advc_vaapi_encode_end_picture` that opens a broker session when there is none. */
    method OpenSession(c: nat, frameMode: bool, ok: bool)
      requires Core() && c < |contexts| && contexts[c].used && !contexts[c].brokerOpen && FpsOk(contexts[c].frame.fpsMilli)
      modifies this`contexts, this`sessions
      ensures Core()
      ensures ok ==>
                && contexts == old(contexts)[c := Opened(old(contexts)[c], frameMode)]
                && sessions == old(sessions)[c := NewSession(old(sessions)[c].number + 1)]
      ensures !ok ==> contexts == old(contexts) && sessions == old(sessions)
    {
      hide PendingOf, InOrder, Ordered, Woven, Sound;
      if ok {
        ghost var h := NewSession(sessions[c].number + 1);
        var z := Opened(contexts[c], frameMode);
        SoundParts(contexts, surfaces, buffers, sessions, c);
        NoSessionNoPending(contexts, surfaces, buffers, c);
        SessionKeepsSound(contexts, surfaces, buffers, sessions, c, z, h);
        contexts := contexts[c := z];
        sessions := sessions[c := h];
        AnchoredUpdate(old(contexts), surfaces, c, z);
      }
    }

    /** The picture is queued: surface and coded buffer become a pending pair. */
    method Queue(c: nat, s: nat, b: nat, pts: nat)
      requires Core() && c < |contexts| && s < |surfaces| && b < |buffers|
      requires contexts[c].used && contexts[c].brokerOpen && contexts[c].pictureActive
      requires surfaces[s].used && !IsPending(surfaces[s]) && surfaces[s].owner == Id(CONTEXT_KIND, c)
      requires buffers[b].used && buffers[b].coded && !Busy(buffers[b])
      requires OnTime(pts, contexts[c].frameIndex, contexts[c].brokerFps)
      modifies this
      ensures Core()
      ensures contexts == old(contexts)[c := QueuedContext(old(contexts)[c], pts)]
      ensures surfaces == old(surfaces)[s := QueuedSurface(old(surfaces)[s], b, pts, old(contexts)[c].frameIndex)]
      ensures buffers == old(buffers)[b := old(buffers)[b].(output := None, pendingSurface := Id(SURFACE_KIND, s))]
      ensures sessions == old(sessions)[c := WithJob(old(sessions)[c], Job(s, b, pts, old(contexts)[c].frameIndex))]
    {
      hide PendingOf, InOrder, Ordered, StateOf, Woven, Sound, OnTime;
      var x := QueuedSurface(surfaces[s], b, pts, contexts[c].frameIndex);
      var y := buffers[b].(output := None, pendingSurface := Id(SURFACE_KIND, s));
      var z := QueuedContext(contexts[c], pts);
      SubmitKeepsSound(contexts, surfaces, buffers, sessions, c, s, b, x, y, z);
      sessions := sessions[c := WithJob(sessions[c], Job(s, b, pts, contexts[c].frameIndex))];
      contexts := contexts[c := z];
      surfaces := surfaces[s := x];
      buffers := buffers[b := y];
      AnchoredUpdate(old(contexts), old(surfaces), c, z);
    }

    /** The session's outputs can no longer be matched to its pictures. */
    ghost method Soil(c: nat)
      requires Core() && c < |contexts|
      modifies this`sessions
      ensures Core() && sessions == old(sessions)[c := old(sessions)[c].(intact := false)]
    {
      hide PendingOf, InOrder, Ordered, StateOf, Woven, Sound;
      DirtyKeepsSound(contexts, surfaces, buffers, sessions, c, sessions[c].(intact := false));
      sessions := sessions[c := sessions[c].(intact := false)];
    }

    /** The surface is claimed, its input made ready and, if need be, registered with the session. */
    method ReadyInput(c: nat, s: nat) returns (ok: bool)
      requires Core() && c < |contexts| && s < |surfaces| && contexts[c].used && contexts[c].brokerOpen
      requires surfaces[s].used && !IsPending(surfaces[s])
      requires surfaces[s].owner == 0 || surfaces[s].owner == Id(CONTEXT_KIND, c)
      modifies this`surfaces
      ensures Core() && surfaces == old(surfaces)[s := surfaces[s]]
      ensures SameShape(old(surfaces)[s], surfaces[s])
      ensures surfaces[s].used && !IsPending(surfaces[s]) && surfaces[s].owner == Id(CONTEXT_KIND, c)
      ensures ok ==> surfaces[s].registered && !surfaces[s].writeExported
    {
      hide Core, OnTime, PendingOf;
      if surfaces[s].owner == 0 {
        CoreNotRegistered(s);
        SetSurface(s, surfaces[s].(owner := Id(CONTEXT_KIND, c)));
      }
      var prepared, unregistered: bool := *, *;
      if unregistered {
        SetSurface(s, surfaces[s].(registered := false));
      }
      if !prepared { return false; }
      if surfaces[s].writeExported {
        var fenced: bool := *;
        if !fenced {
          SetSurface(s, surfaces[s].(state := Error));
          return false;
        }
        SetSurface(s, surfaces[s].(writeExported := false));
      }
      if !surfaces[s].registered {
        var registered: bool := *;
        if !registered { return false; }
        SetSurface(s, surfaces[s].(registered := true));
      }
      return true;
    }

    /** `advc_vaapi_encode_surface_link_submit`: the broker takes the picture or not; one it took must be put on record. */
    method SubmitInput(c: nat, pts: nat, answer: bool) returns (ok: bool)
      requires Core() && c < |contexts| && Matched(sessions[c])
      modifies this`sessions
      ensures Core() && ok == answer
      ensures sessions == if ok then old(sessions)[c := old(sessions)[c].(sent := old(sessions)[c].sent + [pts])] else old(sessions)
    {
      hide PendingOf, InOrder, Ordered, StateOf, Woven, Sound, Kept;
      ok := answer;
      if ok {
        ReceivedKeepsSound(contexts, surfaces, buffers, sessions, c, sessions[c].received, sessions[c].sent + [pts]);
        sessions := sessions[c := sessions[c].(sent := sessions[c].sent + [pts])];
      }
    }

    /** The rest of `advc_vaapi_encode_end_picture`: ready the input, submit it and record the pair. */
    method Submit(c: nat, s: nat, b: nat, frameMode: bool) returns (r: Status)
      requires Core() && c < |contexts| && s < |surfaces| && b < |buffers|
      requires contexts[c].used && contexts[c].brokerOpen && contexts[c].pictureActive
      requires contexts[c].brokerFps == contexts[c].frame.fpsMilli
      requires surfaces[s].used && !IsPending(surfaces[s])
      requires surfaces[s].owner == 0 || surfaces[s].owner == Id(CONTEXT_KIND, c)
      requires buffers[b].used && buffers[b].coded && !Busy(buffers[b]) && Calm(sessions[c])
      modifies this
      ensures Core() && Calm(sessions[c])
      ensures sessions == old(sessions)[c := sessions[c]] && SessionEvolves(old(sessions)[c], sessions[c])
      ensures sessions[c].number == old(sessions)[c].number
      ensures r == Success ==>
                && contexts == old(contexts)[c := QueuedContext(old(contexts)[c], surfaces[s].ptsNs)]
                && surfaces == old(surfaces)[s := surfaces[s]]
                && IsQueued(surfaces[s], c, b, old(contexts)[c]) && SameShape(old(surfaces)[s], surfaces[s])
                && buffers == old(buffers)[b := old(buffers)[b].(output := None, pendingSurface := Id(SURFACE_KIND, s))]
                && sessions[c] == Submission(old(sessions)[c], Job(s, b, surfaces[s].ptsNs, old(contexts)[c].frameIndex))
      ensures r != Success ==>
                && contexts == old(contexts)[c := old(contexts)[c].(pictureActive := false, target := INVALID)]
                && surfaces == old(surfaces)[s := surfaces[s]] && !IsPending(surfaces[s])
                && SameShape(old(surfaces)[s], surfaces[s]) && buffers == old(buffers)
    {
      hide Core, OnTime, PendingOf;
      var ready := ReadyInput(c, s);
      if !ready {
        DropPicture(c);
        return BrokerFailed;
      }
      var pts := FramePts(contexts[c].frameIndex, contexts[c].frame.fpsMilli);
      FrameTime(contexts[c].frameIndex, contexts[c].frame.fpsMilli);
      var submitted, signalled: bool := *, *;
      if pts != MAX_U64 {
        submitted := SubmitInput(c, pts, submitted);
      }
      if pts == MAX_U64 || !submitted || (frameMode && !signalled) {
        DropPicture(c);
        SetSurface(s, surfaces[s].(state := Error));
        Soil(c);
        return BrokerFailed;
      }
      Queue(c, s, b, pts);
      return Success;
    }

    lemma CoreTargetFree(c: nat)
      requires Core() && c < |contexts| && contexts[c].used && contexts[c].pictureActive
      ensures TargetFree(contexts, surfaces, c)
      ensures forall s :: 0 <= s < |surfaces| && IsPending(surfaces[s]) ==> surfaces[s].owner != 0
    {
      forall s | 0 <= s < |surfaces| && IsPending(surfaces[s]) ensures surfaces[s].owner != 0 {
        assert Served(contexts, surfaces, buffers, s);
      }
    }

    lemma CoreNotRegistered(s: nat)
      requires Core() && s < |surfaces| && surfaces[s].used && surfaces[s].owner == 0
      ensures !surfaces[s].registered
    {
    }

    lemma CoreRegistered(s: nat)
      requires Core() && s < |surfaces| && surfaces[s].used && surfaces[s].registered
      ensures var c := GetContext(contexts, surfaces[s].owner); c >= 0 && contexts[c].brokerOpen
    {
    }

    /** `advc_vaapi_encode_end_picture` once the target and the coded buffer have passed their tests. */
    method EndChecked(c: nat, s: nat, b: nat, frameMode: bool) returns (r: Status)
      requires Core() && c < |contexts| && contexts[c].used && contexts[c].pictureActive && ValidFrame(contexts[c].frame)
      requires s == GetSurface(surfaces, contexts[c].target) && b == GetBuffer(buffers, contexts[c].frame.codedBuffer)
      requires buffers[b].owner == Id(CONTEXT_KIND, c) && buffers[b].coded && !Busy(buffers[b])
      requires !PendingFor(surfaces[s], Id(CONTEXT_KIND, c))
      requires IsPending(surfaces[s]) ==> surfaces[s].owner != 0
      requires Calm(sessions[c])
      modifies this
      ensures Core() && Calm(sessions[c])
      ensures old(contexts)[c].brokerOpen ==>
                && contexts[c].brokerOpen && contexts[c].frameSession == old(contexts)[c].frameSession
                && sessions[c].number == old(sessions)[c].number
      ensures contexts == old(contexts)[c := contexts[c]] && sessions == old(sessions)[c := sessions[c]]
      ensures !contexts[c].pictureActive && contexts[c].target == INVALID && contexts[c].used
      ensures contexts[c].eos == old(contexts)[c].eos || contexts[c].eos == FRESH_EOS
      ensures SessionEvolves(old(sessions)[c], sessions[c])
      ensures r == Success ==> Submitted(old(contexts), old(surfaces), old(buffers), old(sessions), contexts, surfaces, buffers, sessions, c)
      ensures r != Success ==> Refused(old(contexts), old(surfaces), old(buffers), contexts, surfaces, buffers, c)
    {
      hide Core, OnTime, PendingOf;
      if !contexts[c].brokerOpen {
        var isOpen: bool := *;
        OpenSession(c, frameMode, isOpen);
        if !isOpen {
          DropPicture(c);
          return BrokerFailed;
        }
      } else if contexts[c].brokerBitrate != contexts[c].frame.bitrate || contexts[c].brokerFps != contexts[c].frame.fpsMilli {
        DropPicture(c);
        return AttributeNotSupported;
      }
      if surfaces[s].owner != 0 && surfaces[s].owner != Id(CONTEXT_KIND, c) {
        DropPicture(c);
        return SurfaceBusy;
      }
      r := Submit(c, s, b, frameMode);
    }

    /** `advc_vaapi_encode_end_picture`. */
    method EndPicture(contextId: int, frameMode: bool) returns (r: Status)
      requires Valid()
      modifies this
      ensures Valid()
      ensures var c := GetContext(old(contexts), contextId);
              && (c < 0 ==> r == InvalidContext && unchanged(this))
              && (c >= 0 && !old(contexts)[c].pictureActive ==> r == OperationFailed && unchanged(this))
              && (c >= 0 && old(contexts)[c].pictureActive ==>
                    && !contexts[c].pictureActive && contexts[c].target == INVALID
                    && (forall d :: 0 <= d < |contexts| && d != c ==> contexts[d] == old(contexts)[d] && sessions[d] == old(sessions)[d])
                    && (r == Success ==> Submitted(old(contexts), old(surfaces), old(buffers), old(sessions), contexts, surfaces, buffers, sessions, c))
                    && (r != Success ==> Refused(old(contexts), old(surfaces), old(buffers), contexts, surfaces, buffers, c)))
      ensures Evolves(old(sessions), sessions) && AllStayOpen(old(contexts), old(sessions), contexts, sessions)
    {
      hide Core, OnTime, PendingOf, Submitted, SessionEvolves, Calm;
      EvolvesRefl(sessions);
      var c := GetContext(contexts, contextId);
      if c < 0 { return InvalidContext; }
      if !contexts[c].pictureActive { return OperationFailed; }
      CoreTargetFree(c);
      var s := GetSurface(surfaces, contexts[c].target);
      if s < 0 || !ValidFrame(contexts[c].frame) {
        DropPicture(c);
        return if s < 0 then InvalidSurface else InvalidParameter;
      }
      var b := GetBuffer(buffers, contexts[c].frame.codedBuffer);
      if b < 0 || buffers[b].owner != contextId || !buffers[b].coded || buffers[b].mapped || buffers[b].pendingSurface != INVALID {
        DropPicture(c);
        return InvalidBuffer;
      }
      r := EndChecked(c, s, b, frameMode);
    }

    // ---------- end of stream and teardown ----------

    /** The flags of the end-of-stream state follow the trace. */
    method Record(c: nat, ev: EosEvent)
      requires Core() && c < |contexts| && contexts[c].used && contexts[c].brokerOpen
      requires WellFormed(sessions[c].trace) && Follows(sessions[c].trace, ev)
      modifies this`contexts, this`sessions
      ensures Core()
      ensures contexts == old(contexts)[c := old(contexts)[c].(eos := After(old(contexts)[c].eos, ev))]
      ensures sessions == old(sessions)[c := old(sessions)[c].(trace := old(sessions)[c].trace + [ev])]
      ensures WellFormed(sessions[c].trace) && contexts[c].eos == StateOf(sessions[c].trace)
    {
      hide PendingOf, InOrder, Ordered, Woven, Sound;
      SoundParts(contexts, surfaces, buffers, sessions, c);
      ghost var trace := sessions[c].trace + [ev];
      StateStep(sessions[c].trace, ev);
      TraceKeepsSound(contexts, surfaces, buffers, sessions, c, trace);
      sessions := sessions[c := sessions[c].(trace := trace)];
      contexts := contexts[c := contexts[c].(eos := After(contexts[c].eos, ev))];
      AnchoredUpdate(old(contexts), surfaces, c, contexts[c]);
    }

    /** `context_eos_signal`: the broker is told of the end of the stream, for the first time. */
    method SendSignal(c: nat, answer: bool) returns (ok: bool)
      requires Core() && c < |contexts| && contexts[c].used && contexts[c].brokerOpen
      requires WellFormed(sessions[c].trace) && Follows(sessions[c].trace, Signal(answer))
      modifies this`contexts, this`sessions
      ensures Core() && ok == answer
      ensures contexts == old(contexts)[c := old(contexts)[c].(eos := contexts[c].eos)]
      ensures sessions == old(sessions)[c := old(sessions)[c].(trace := [Signal(ok)])] && WellFormed(sessions[c].trace)
    {
      hide Core, PendingOf, StateOf;
      Record(c, Signal(answer));
      ok := answer;
    }

    /** `context_eos_fail_closed`: everything in flight fails. */
    method FailPending(c: nat)
      requires Core() && c < |contexts| && contexts[c].used && contexts[c].brokerOpen
      requires WellFormed(sessions[c].trace) && Follows(sessions[c].trace, FailClosed)
      modifies this
      ensures Core()
      ensures Progress(old(contexts), old(surfaces), old(buffers), old(sessions), contexts, surfaces, buffers, sessions, c)
      ensures sessions[c].trace == old(sessions)[c].trace + [FailClosed] && AtRest(sessions[c].trace)
      ensures sessions[c].received == old(sessions)[c].received && contexts[c].pendingCount == 0
    {
      hide Core, PendingOf, StateOf;
      Record(c, FailClosed);
      MarkPendingError(c);
    }

    /** `fail_once`: the callback is made the first time only. */
    method FailOnce(c: nat)
      requires Core() && c < |contexts| && contexts[c].used && contexts[c].brokerOpen
      requires WellFormed(sessions[c].trace) && sessions[c].trace != []
      requires Last(sessions[c].trace) == FailClosed || Follows(sessions[c].trace, FailClosed)
      modifies this
      ensures Core()
      ensures Progress(old(contexts), old(surfaces), old(buffers), old(sessions), contexts, surfaces, buffers, sessions, c)
      ensures AtRest(sessions[c].trace) && Last(sessions[c].trace) == FailClosed && old(sessions)[c].trace <= sessions[c].trace
      ensures sessions[c].received == old(sessions)[c].received
      ensures Last(old(sessions)[c].trace) == FailClosed ==> unchanged(this)
      ensures Last(old(sessions)[c].trace) != FailClosed ==> contexts[c].pendingCount == 0
    {
      hide Core, PendingOf, SurfaceProgress, BufferProgress;
      CoreState(c);
      ProgressRefl(contexts, surfaces, buffers, sessions, c);
      if !contexts[c].eos.failedClosed {
        FailPending(c);
      }
    }

    /** `context_eos_drain_once`: one drain, on record with its answer. */
    method DrainOnce(c: nat) returns (reply: DrainReply)
      requires Core() && AllCalm() && c < |contexts| && contexts[c].used && contexts[c].brokerOpen && !contexts[c].frameSession
      requires WellFormed(sessions[c].trace) && forall a :: Follows(sessions[c].trace, Drain(a))
      modifies this
      ensures Core() && AllCalm()
      ensures Progress(old(contexts), old(surfaces), old(buffers), old(sessions), contexts, surfaces, buffers, sessions, c)
      ensures sessions[c].trace == old(sessions)[c].trace + [Drain(reply)] && WellFormed(sessions[c].trace)
      ensures reply == More ==> contexts[c].pendingCount < old(contexts)[c].pendingCount
      ensures reply == End ==> contexts[c].pendingCount == 0
    {
      hide Core, PendingOf, StateOf, Progress, Calm;
      ghost var cs, ss, bs, hs := contexts, surfaces, buffers, sessions;
      if contexts[c].pendingCount > 0 {
        reply := DrainPending(c);
      } else {
        var receipt: Receipt := *;
        reply := DrainLast(c, receipt);
      }
      ProgressStays(cs, ss, bs, hs, contexts, surfaces, buffers, sessions, c);
      ghost var cs1, ss1, bs1, hs1 := contexts, surfaces, buffers, sessions;
      Record(c, Drain(reply));
      TraceProgress(cs1, ss1, bs1, hs1, contexts, sessions, c);
      ProgressTrans(cs, ss, bs, hs, cs1, ss1, bs1, hs1, contexts, surfaces, buffers, sessions, c);
    }

    /** The part of `context_eos_drain_once` with pictures in flight: the oldest is completed. */
    method DrainPending(c: nat) returns (reply: DrainReply)
      requires Core() && AllCalm() && c < |contexts| && contexts[c].used && contexts[c].pendingCount > 0
      modifies this
      ensures Core() && AllCalm()
      ensures Progress(old(contexts), old(surfaces), old(buffers), old(sessions), contexts, surfaces, buffers, sessions, c)
      ensures sessions[c].trace == old(sessions)[c].trace
      ensures reply == More ==> contexts[c].pendingCount < old(contexts)[c].pendingCount
      ensures reply == End ==> contexts[c].pendingCount == 0
    {
      hide PendingOf, InOrder, Ordered, StateOf, Woven, Sound, Anchored, Calm;
      var s := FindOldest(c);
      SoundParts(contexts, surfaces, buffers, sessions, c);
      CountedPositive(contexts, surfaces, c);
      var r := SyncLocked(s);
      if r != Success { return Failed; }
      if contexts[c].brokerEos && contexts[c].pendingCount != 0 { return Failed; }
      return if contexts[c].brokerEos then End else More;
    }

    /** The part with none: the only output that may still come is the end of the stream, and it is not kept. */
    method DrainLast(c: nat, receipt: Receipt) returns (reply: DrainReply)
      requires Core() && AllCalm() && c < |contexts| && contexts[c].used && contexts[c].pendingCount == 0
      modifies this
      ensures Core() && AllCalm()
      ensures Progress(old(contexts), old(surfaces), old(buffers), old(sessions), contexts, surfaces, buffers, sessions, c)
      ensures sessions[c].trace == old(sessions)[c].trace && contexts[c].pendingCount == 0
      ensures reply == if receipt.Coded? && receipt.last then End else Failed
      ensures sessions[c].received ==
              old(sessions)[c].received + if receipt.Coded? then [Received(receipt.payload, Discarded)] else []
    {
      hide Core, PendingOf, Progress, Matched, Decided;
      ghost var cs, ss, bs, hs := contexts, surfaces, buffers, sessions;
      var got := Receive(c, receipt);
      if !got.Coded? { return Failed; }
      ghost var cs1, ss1, bs1, hs1 := contexts, surfaces, buffers, sessions;
      if got.last {
        NoteEnd(c);
        ProgressTrans(cs, ss, bs, hs, cs1, ss1, bs1, hs1, contexts, surfaces, buffers, sessions, c);
        cs1, ss1, bs1, hs1 := contexts, surfaces, buffers, sessions;
      }
      CloseOutput(c, got.payload, Discarded);
      assert Decide(hs1[c].received, Discarded) == hs[c].received + [Received(got.payload, Discarded)];
      ProgressTrans(cs, ss, bs, hs, cs1, ss1, bs1, hs1, contexts, surfaces, buffers, sessions, c);
      ProgressKeepsCalm(cs, ss, bs, hs, contexts, surfaces, buffers, sessions, c);
      return if got.last then End else Failed;
    }

    /** `advc_vaapi_encode_eos_finish` with the callbacks of a context. */
    method EosFinish(c: nat) returns (ok: bool)
      requires Core() && AllCalm() && c < |contexts| && contexts[c].used && contexts[c].brokerOpen && !contexts[c].frameSession
      requires AtRest(sessions[c].trace)
      modifies this
      ensures Core() && AllCalm()
      ensures Progress(old(contexts), old(surfaces), old(buffers), old(sessions), contexts, surfaces, buffers, sessions, c)
      ensures AtRest(sessions[c].trace) && sessions[c].trace != [] && old(sessions)[c].trace <= sessions[c].trace
      ensures ok <==> Last(sessions[c].trace) == Drain(End)
      ensures old(sessions)[c].trace != [] ==> unchanged(this)
      ensures old(sessions)[c].trace == [] ==> contexts[c].pendingCount == 0
    {
      hide Core, PendingOf, SurfaceProgress, BufferProgress, ReceivesMore, Decided, Matched;
      CoreState(c);
      ProgressRefl(contexts, surfaces, buffers, sessions, c);
      if contexts[c].eos.failedClosed {
        FailOnce(c);
        return false;
      }
      if contexts[c].eos.eosReceived { return true; }
      assert !contexts[c].eos.signalAttempted;
      ghost var cs, ss, bs, hs := contexts, surfaces, buffers, sessions;
      var answer, clock: bool := *, *;
      var signalled := SendSignal(c, answer);
      TraceProgress(cs, ss, bs, hs, contexts, sessions, c);
      ghost var cs1, ss1, bs1, hs1 := contexts, surfaces, buffers, sessions;
      if !signalled || !clock {
        FailOnce(c);
        ProgressKeepsCalm(cs1, ss1, bs1, hs1, contexts, surfaces, buffers, sessions, c);
        ok := false;
      } else {
        ok := DrainUntilEnd(c);
      }
      ProgressTrans(cs, ss, bs, hs, cs1, ss1, bs1, hs1, contexts, surfaces, buffers, sessions, c);
    }

    /** The loop of `advc_vaapi_encode_eos_finish`, bounded by the deadline or by the pictures left. */
    method DrainUntilEnd(c: nat) returns (ok: bool)
      requires Core() && AllCalm() && c < |contexts| && contexts[c].used && contexts[c].brokerOpen && !contexts[c].frameSession
      requires sessions[c].trace == [Signal(true)] && WellFormed(sessions[c].trace)
      modifies this
      ensures Core() && AllCalm()
      ensures Progress(old(contexts), old(surfaces), old(buffers), old(sessions), contexts, surfaces, buffers, sessions, c)
      ensures AtRest(sessions[c].trace) && sessions[c].trace != []
      ensures ok <==> Last(sessions[c].trace) == Drain(End)
      ensures contexts[c].pendingCount == 0
    {
      hide Core, PendingOf, StateOf, Progress, Calm, WellFormed;
      ghost var cs, ss, bs, hs := contexts, surfaces, buffers, sessions;
      ProgressRefl(cs, ss, bs, hs, c);
      while true
        invariant Core() && AllCalm() && contexts[c].used && contexts[c].brokerOpen && !contexts[c].frameSession
        invariant Progress(cs, ss, bs, hs, contexts, surfaces, buffers, sessions, c)
        invariant WellFormed(sessions[c].trace) && sessions[c].trace != []
        invariant Last(sessions[c].trace) == Signal(true) || Last(sessions[c].trace) == Drain(More)
        decreases contexts[c].pendingCount
      {
        var inTime: bool := *;
        if !inTime {
          ok := false;
          FailAfter(c, cs, ss, bs, hs);
          return;
        }
        ghost var cs1, ss1, bs1, hs1 := contexts, surfaces, buffers, sessions;
        var reply := DrainOnce(c);
        ProgressStays(cs1, ss1, bs1, hs1, contexts, surfaces, buffers, sessions, c);
        ProgressTrans(cs, ss, bs, hs, cs1, ss1, bs1, hs1, contexts, surfaces, buffers, sessions, c);
        if reply == End { return true; }
        if reply == Failed {
          ok := false;
          FailAfter(c, cs, ss, bs, hs);
          return;
        }
      }
    }

    /** The protocol fails, having come this far. */
    method FailAfter(c: nat, ghost cs: seq<Context>, ghost ss: seq<Surface>, ghost bs: seq<Buffer>, ghost hs: seq<Session>)
      requires Core() && AllCalm() && c < |contexts| && contexts[c].used && contexts[c].brokerOpen
      requires Progress(cs, ss, bs, hs, contexts, surfaces, buffers, sessions, c)
      requires WellFormed(sessions[c].trace) && Follows(sessions[c].trace, FailClosed)
      modifies this
      ensures Core() && AllCalm() && contexts[c].pendingCount == 0
      ensures Progress(cs, ss, bs, hs, contexts, surfaces, buffers, sessions, c)
      ensures AtRest(sessions[c].trace) && sessions[c].trace != [] && Last(sessions[c].trace) == FailClosed
    {
      hide Core, PendingOf, StateOf, Progress, Decided, Matched;
      ghost var cs1, ss1, bs1, hs1 := contexts, surfaces, buffers, sessions;
      FailOnce(c);
      ProgressKeepsCalm(cs1, ss1, bs1, hs1, contexts, surfaces, buffers, sessions, c);
      ProgressTrans(cs, ss, bs, hs, cs1, ss1, bs1, hs1, contexts, surfaces, buffers, sessions, c);
    }

    lemma CoreState(c: nat)
      requires Core() && c < |contexts| && contexts[c].used && contexts[c].brokerOpen
      ensures contexts[c].eos == StateOf(sessions[c].trace)
    {
      assert Tracked(contexts, surfaces, sessions, c);
    }

    /** `drain_frame_session_locked`. */
    method DrainFrameSession(c: nat) returns (r: Status)
      requires Core() && AllCalm() && c < |contexts| && contexts[c].used
      modifies this
      ensures Core() && AllCalm()
      ensures Progress(old(contexts), old(surfaces), old(buffers), old(sessions), contexts, surfaces, buffers, sessions, c)
      ensures sessions[c].trace == old(sessions)[c].trace && contexts[c].pendingCount == 0
    {
      hide Core, PendingOf, Progress, Calm, Stored;
      ghost var cs, ss, bs, hs := contexts, surfaces, buffers, sessions;
      ProgressRefl(cs, ss, bs, hs, c);
      var clock: bool := *;
      if !clock {
        MarkAfter(c, cs, ss, bs, hs);
        return OperationFailed;
      }
      while contexts[c].pendingCount > 0
        invariant Core() && AllCalm() && contexts[c].used
        invariant Progress(cs, ss, bs, hs, contexts, surfaces, buffers, sessions, c)
        invariant sessions[c].trace == hs[c].trace
        decreases contexts[c].pendingCount
      {
        ghost var cs1, ss1, bs1, hs1 := contexts, surfaces, buffers, sessions;
        var s := FindOldest(c);
        CorePending(c);
        var inTime: bool := *;
        if !inTime {
          MarkAfter(c, cs, ss, bs, hs);
          return TimedOut;
        }
        r := SyncLocked(s);
        ProgressStays(cs1, ss1, bs1, hs1, contexts, surfaces, buffers, sessions, c);
        ProgressTrans(cs, ss, bs, hs, cs1, ss1, bs1, hs1, contexts, surfaces, buffers, sessions, c);
        if r != Success {
          MarkAfter(c, cs, ss, bs, hs);
          return r;
        }
      }
      return Success;
    }

    lemma CorePending(c: nat)
      requires Core() && c < |contexts| && contexts[c].used && contexts[c].pendingCount > 0
      ensures exists s :: 0 <= s < |surfaces| && PendingFor(surfaces[s], Id(CONTEXT_KIND, c))
    {
      SoundParts(contexts, surfaces, buffers, sessions, c);
      CountedPositive(contexts, surfaces, c);
    }

    /** Everything in flight fails, having come this far. */
    method MarkAfter(c: nat, ghost cs: seq<Context>, ghost ss: seq<Surface>, ghost bs: seq<Buffer>, ghost hs: seq<Session>)
      requires Core() && AllCalm() && c < |contexts| && contexts[c].used
      requires Progress(cs, ss, bs, hs, contexts, surfaces, buffers, sessions, c)
      modifies this
      ensures Core() && AllCalm() && contexts[c].pendingCount == 0 && sessions[c].trace == old(sessions)[c].trace
      ensures Progress(cs, ss, bs, hs, contexts, surfaces, buffers, sessions, c)
    {
      hide Core, PendingOf, Progress, Decided;
      ghost var cs1, ss1, bs1, hs1 := contexts, surfaces, buffers, sessions;
      MarkPendingError(c);
      ProgressTrans(cs, ss, bs, hs, cs1, ss1, bs1, hs1, contexts, surfaces, buffers, sessions, c);
    }

    /** `finish_context_locked`: however the broker behaves, nothing the context submitted is still pending. */
    method FinishContext(c: nat) returns (r: Status)
      requires Valid() && c < |contexts| && contexts[c].used
      modifies this
      ensures Core() && AllCalm()
      ensures Progress(old(contexts), old(surfaces), old(buffers), old(sessions), contexts, surfaces, buffers, sessions, c)
      ensures contexts[c].pendingCount == 0
      ensures old(contexts)[c].brokerOpen && !old(contexts)[c].frameSession ==>
                && AtRest(sessions[c].trace) && sessions[c].trace != []
                && (r == Success <==> Last(sessions[c].trace) == Drain(End))
      ensures old(contexts)[c].brokerOpen && old(contexts)[c].frameSession ==> sessions[c].trace == []
    {
      hide PendingOf, InOrder, Ordered, StateOf, Woven, Sound, Anchored, SurfaceProgress, BufferProgress;
      ProgressRefl(contexts, surfaces, buffers, sessions, c);
      SoundParts(contexts, surfaces, buffers, sessions, c);
      if !contexts[c].brokerOpen {
        NoSessionNoPending(contexts, surfaces, buffers, c);
        return Success;
      }
      FreshMeansUnstarted(sessions[c].trace);
      if contexts[c].frameSession {
        r := DrainFrameSession(c);
        return;
      }
      var ok := EosFinish(c);
      return if ok then Success else BrokerFailed;
    }

    /** `close_context_locked`, which follows a finish: the context lets go of its surfaces and its slot is cleared. */
    method CloseContext(c: nat)
      requires Core() && c < |contexts| && contexts[c].used && contexts[c].pendingCount == 0
      modifies this`contexts, this`surfaces
      ensures Core()
      ensures contexts == old(contexts)[c := NO_CONTEXT]
      ensures forall t :: 0 <= t < |surfaces| ==> Released(old(surfaces)[t], surfaces[t], Id(CONTEXT_KIND, c))
    {
      hide PendingOf, InOrder, Ordered, StateOf, Woven, Sound;
      NothingPending(contexts, surfaces, buffers, sessions, c);
      for i := 0 to |surfaces|
        invariant Core() && contexts == old(contexts)
        invariant forall t :: 0 <= t < |surfaces| ==>
                    if t < i then Released(old(surfaces)[t], surfaces[t], Id(CONTEXT_KIND, c)) else surfaces[t] == old(surfaces)[t]
      {
        if surfaces[i].used && surfaces[i].owner != 0 && GetContext(contexts, surfaces[i].owner) == c {
          var x := surfaces[i];
          if contexts[c].brokerOpen && x.registered {
            var unregistered: bool := *;
            x := x.(registered := false, state := if unregistered then x.state else Error);
          }
          x := x.(owner := 0, codedBuffer := INVALID, state := if x.state == Pending then Error else x.state);
          SetSurface(i, x);
        }
      }
      SlotKeepsSound(contexts, surfaces, buffers, sessions, c, NO_CONTEXT);
      AnchoredWithout(contexts, surfaces, c);
      contexts := contexts[c := NO_CONTEXT];
    }

    /** `advc_vaapi_encode_destroy_context`. */
    method DestroyContext(contextId: int) returns (r: Status)
      requires Valid()
      modifies this
      ensures Valid()
      ensures var c := GetContext(old(contexts), contextId);
              && (c < 0 ==> r == InvalidContext && unchanged(this))
              && (c >= 0 ==>
                    && contexts == old(contexts)[c := NO_CONTEXT]
                    && sessions == old(sessions)[c := sessions[c]] && sessions[c].number == old(sessions)[c].number
                    && (forall t :: 0 <= t < |surfaces| && surfaces[t].used ==> surfaces[t].owner != contextId)
                    && (forall t :: 0 <= t < |surfaces| && old(surfaces)[t].used && old(surfaces)[t].owner == contextId ==>
                          !IsPending(surfaces[t]) && !surfaces[t].registered && surfaces[t].used)
                    && (forall t :: 0 <= t < |surfaces| && (!old(surfaces)[t].used || old(surfaces)[t].owner != contextId) ==>
                          surfaces[t] == old(surfaces)[t])
                    && (forall b :: 0 <= b < |buffers| && Busy(buffers[b]) ==>
                          var t := GetSurface(surfaces, buffers[b].pendingSurface); t >= 0 && old(surfaces)[t].owner != contextId)
                    && (old(contexts)[c].brokerOpen && !old(contexts)[c].frameSession ==>
                          && AtRest(sessions[c].trace) && sessions[c].trace != []
                          && (r == Success <==> Last(sessions[c].trace) == Drain(End))))
      ensures Evolves(old(sessions), sessions)
    {
      hide PendingOf, InOrder, Ordered, StateOf, Woven, Sound, Anchored;
      var c := GetContext(contexts, contextId);
      if c < 0 { return InvalidContext; }
      r := FinishContext(c);
      ghost var ss := surfaces;
      CloseContext(c);
      forall t | 0 <= t < |surfaces| ensures LetGo(old(surfaces)[t], surfaces[t], contextId) {
        assert SurfaceProgress(old(surfaces)[t], ss[t], contextId) && Released(ss[t], surfaces[t], contextId);
      }
      forall b | 0 <= b < |buffers| && Busy(buffers[b])
        ensures var t := GetSurface(surfaces, buffers[b].pendingSurface); t >= 0 && old(surfaces)[t].owner != contextId
      {
        SoundParts(contexts, surfaces, buffers, sessions, c);
        BusyIsAwaited(contexts, surfaces, buffers, b);
        var t := GetSurface(surfaces, buffers[b].pendingSurface);
        assert LetGo(old(surfaces)[t], surfaces[t], contextId);
      }
    }

    // ---------- the other public calls ----------

    constructor ()
      ensures Valid()
      ensures forall c :: 0 <= c < |contexts| ==> contexts[c] == NO_CONTEXT
      ensures forall s :: 0 <= s < |surfaces| ==> surfaces[s] == NO_SURFACE
      ensures forall b :: 0 <= b < |buffers| ==> buffers[b] == NO_BUFFER
      ensures forall c :: 0 <= c < |sessions| ==> sessions[c] == NewSession(0)
    {
      contexts := seq(CONTEXT_SLOTS, _ => NO_CONTEXT);
      surfaces := seq(SURFACE_SLOTS, _ => NO_SURFACE);
      buffers := seq(BUFFER_SLOTS, _ => NO_BUFFER);
      sessions := seq(CONTEXT_SLOTS, _ => NewSession(0));
    }

    /** `advc_vaapi_encode_create_context`; `supported` stands for the tests on the configuration. */
    method CreateContext(width: nat, height: nat, targets: seq<int>, supported: bool) returns (r: Status, contextId: int)
      requires Valid()
      modifies this`contexts
      ensures Valid()
      ensures r == Success ==>
                exists c :: 0 <= c < |contexts| && contextId == Id(CONTEXT_KIND, c) && !old(contexts)[c].used &&
                  contexts == old(contexts)[c := NO_CONTEXT.(used := true, width := width, height := height)]
      ensures r == MaxNumExceeded ==> forall c :: 0 <= c < |contexts| ==> contexts[c].used
      ensures r != Success ==> unchanged(this)
    {
      contextId := INVALID;
      if width < 16 || height < 16 || width % 2 != 0 || height % 2 != 0 { return InvalidParameter, contextId; }
      if !supported { return Unsupported, contextId; }
      for i := 0 to |targets|
        invariant unchanged(this)
      {
        var s := GetSurface(surfaces, targets[i]);
        if s < 0 || surfaces[s].width != width || surfaces[s].height != height { return InvalidSurface, contextId; }
      }
      var c := 0;
      while c < |contexts| && contexts[c].used
        invariant c <= |contexts| && unchanged(this)
        invariant forall d :: 0 <= d < c ==> contexts[d].used
      {
        c := c + 1;
      }
      if c == |contexts| { return MaxNumExceeded, contextId; }
      FillContext(c, NO_CONTEXT.(used := true, width := width, height := height));
      return Success, Id(CONTEXT_KIND, c);
    }

    method FillContext(c: nat, z: Context)
      requires Valid() && c < |contexts| && !contexts[c].used
      requires z.used && !z.pictureActive && !z.brokerOpen && z.pendingCount == 0 && z.eos == FRESH_EOS
      modifies this`contexts
      ensures Valid() && contexts == old(contexts)[c := z]
    {
      CoreUnowned(c);
      hide PendingOf, InOrder, Ordered, StateOf, Woven, Sound;
      SlotKeepsSound(contexts, surfaces, buffers, sessions, c, z);
      AnchoredFill(contexts, surfaces, c, z);
      contexts := contexts[c := z];
    }

    lemma CoreUnowned(c: nat)
      requires Core() && c < |contexts| && !contexts[c].used
      ensures forall s :: 0 <= s < |surfaces| && surfaces[s].used ==> surfaces[s].owner != Id(CONTEXT_KIND, c)
    {
      forall s | 0 <= s < |surfaces| && surfaces[s].used ensures surfaces[s].owner != Id(CONTEXT_KIND, c) {
        if surfaces[s].owner != 0 { assert GetContext(contexts, surfaces[s].owner) >= 0; }
      }
    }

    /** `advc_vaapi_encode_create_surfaces`: all the surfaces asked for, or none. */
    method CreateSurfaces(width: nat, height: nat, count: nat) returns (r: Status, ids: seq<int>)
      requires Valid()
      modifies this`surfaces
      ensures Valid()
      ensures var x := Surface(true, width, height, Idle, 0, INVALID, 0, 0, false, false);
              && (r == Success ==> |ids| == count && Increasing(ids) && Made(old(surfaces), surfaces, ids, x))
              && (r != Success ==> Made(old(surfaces), surfaces, [], x))
      ensures r == Success ==> 0 < count <= 64 && width >= 16 && height >= 16 && width % 2 == height % 2 == 0
    {
      hide Core, Increasing, Made;
      ids := [];
      MadeNone(surfaces, NewSurface(width, height));
      if count == 0 || count > SURFACE_SLOTS || width < 16 || height < 16 || width % 2 != 0 || height % 2 != 0 {
        return Unsupported, ids;
      }
      r := Success;
      var i := 0;
      while i < |surfaces| && |ids| < count && r == Success
        invariant Valid() && i <= |surfaces| == |old(surfaces)| && |ids| <= count && (r != Success ==> |ids| < count)
        invariant Made(old(surfaces), surfaces, ids, NewSurface(width, height)) && Increasing(ids)
        invariant forall k :: 0 <= k < |ids| ==> ids[k] < Id(SURFACE_KIND, i)
        decreases |surfaces| - i
      {
        if !surfaces[i].used {
          var made: bool := *;
          if made {
            MadeStep(old(surfaces), surfaces, ids, NewSurface(width, height), i);
            SetSurface(i, NewSurface(width, height));
            ids := ids + [Id(SURFACE_KIND, i)];
          } else {
            MadeClear(old(surfaces), surfaces, ids, NewSurface(width, height), i);
            SetSurface(i, NO_SURFACE);
            r := Unsupported;
          }
        }
        i := i + 1;
      }
      if |ids| != count {
        if r == Success { r := MaxNumExceeded; }
        ghost var ss := surfaces;
        MadeIds(old(surfaces), surfaces, ids, NewSurface(width, height));
        Rollback(ids);
        MadeUndone(old(surfaces), ss, surfaces, ids, NewSurface(width, height));
      }
    }

    /** Clears the slots of surfaces that have just been made. */
    method Rollback(ids: seq<int>)
      requires Valid()
      requires forall k :: 0 <= k < |ids| ==> var s := GetSurface(surfaces, ids[k]); s >= 0 && !IsPending(surfaces[s])
      requires forall j, k :: 0 <= j < k < |ids| ==> ids[j] != ids[k]
      modifies this`surfaces
      ensures Valid()
      ensures forall s :: 0 <= s < |surfaces| ==>
                surfaces[s] == if old(surfaces)[s].used && Id(SURFACE_KIND, s) in ids then NO_SURFACE else old(surfaces)[s]
    {
      hide Core;
      for i := 0 to |ids|
        invariant Valid()
        invariant forall s :: 0 <= s < |surfaces| ==>
                    surfaces[s] == if old(surfaces)[s].used && Id(SURFACE_KIND, s) in ids[..i] then NO_SURFACE else old(surfaces)[s]
      {
        assert ids[i] !in ids[..i];
        assert ids[..i + 1] == ids[..i] + [ids[i]];
        SetSurface(GetSurface(surfaces, ids[i]), NO_SURFACE);
      }
      assert ids[..|ids|] == ids;
    }

    /**
      `advc_vaapi_encode_destroy_surfaces`: all of them, and only if none is unknown, pending or registered. Each id is
      looked up again as it is cleared, so a repeated one is then missing: the call ends there, on a surface that is
      not there, exactly when every id passed the tests and one occurs twice.
     */
    method DestroySurfaces(ids: seq<int>) returns (r: Status)
      requires Valid()
      modifies this`surfaces
      ensures Valid()
      ensures r == Success <==> AllDestroyable(old(surfaces), ids) && Unrepeated(ids)
      ensures r == MissingSurface <==> AllDestroyable(old(surfaces), ids) && !Unrepeated(ids)
      ensures r == Success ==> forall s :: 0 <= s < |surfaces| ==>
                surfaces[s] == if old(surfaces)[s].used && Id(SURFACE_KIND, s) in ids then NO_SURFACE else old(surfaces)[s]
      ensures forall s :: 0 <= s < |surfaces| && surfaces[s] != old(surfaces)[s] ==>
                surfaces[s] == NO_SURFACE && Id(SURFACE_KIND, s) in ids && AllDestroyable(old(surfaces), ids)
    {
      hide Core, Calm;
      for i := 0 to |ids|
        invariant unchanged(this)
        invariant forall k :: 0 <= k < i ==> Destroyable(surfaces, ids[k])
      {
        var s := GetSurface(surfaces, ids[i]);
        if s < 0 { assert !Destroyable(surfaces, ids[i]); return InvalidSurface; }
        if surfaces[s].state == Pending || surfaces[s].registered { assert !Destroyable(surfaces, ids[i]); return SurfaceBusy; }
      }
      for i := 0 to |ids|
        invariant Valid() && Unrepeated(ids[..i])
        invariant forall s :: 0 <= s < |surfaces| ==>
                    surfaces[s] == if old(surfaces)[s].used && Id(SURFACE_KIND, s) in ids[..i] then NO_SURFACE else old(surfaces)[s]
      {
        assert Destroyable(old(surfaces), ids[i]);
        assert ids[..i + 1] == ids[..i] + [ids[i]];
        var s := GetSurface(surfaces, ids[i]);
        if s < 0 {
          var k :| 0 <= k < i && ids[..i][k] == ids[i];
          assert ids[k] == ids[i];
          return MissingSurface;
        }
        assert ids[i] !in ids[..i];
        SetSurface(s, NO_SURFACE);
      }
      assert ids[..|ids|] == ids;
      return Success;
    }

    /** Naming one surface twice is enough. */
    method DestroyTwice(surfaceId: int) returns (r: Status)
      requires Valid() && Destroyable(surfaces, surfaceId)
      modifies this`surfaces
      ensures r == MissingSurface
    {
      var ids := [surfaceId, surfaceId];
      assert ids[0] == ids[1];
      r := DestroySurfaces(ids);
    }

    /** `advc_vaapi_encode_create_buffer`; `supported` stands for the test on the buffer type. */
    method CreateBuffer(contextId: int, supported: bool, coded: bool, size: nat, count: nat) returns (r: Status, bufferId: int)
      requires Valid()
      modifies this`buffers
      ensures Valid()
      ensures r == Success ==>
                exists b :: 0 <= b < |buffers| && bufferId == Id(BUFFER_KIND, b) && !old(buffers)[b].used &&
                  buffers == old(buffers)[b := Buffer(true, false, contextId, coded, if coded then size * count else 0, INVALID, None)]
      ensures r == Success <==>
              && size > 0 && count > 0 && supported && GetContext(contexts, contextId) >= 0
              && exists b :: 0 <= b < |old(buffers)| && !old(buffers)[b].used
      ensures r != Success ==> unchanged(this)
    {
      hide Core;
      bufferId := INVALID;
      if size == 0 || count == 0 { return InvalidParameter, bufferId; }
      if !supported { return Unsupported, bufferId; }
      if GetContext(contexts, contextId) < 0 { return InvalidContext, bufferId; }
      var b := 0;
      while b < |buffers| && buffers[b].used
        invariant b <= |buffers| && unchanged(this) && forall k :: 0 <= k < b ==> buffers[k].used
      {
        b := b + 1;
      }
      if b == |buffers| { return MaxNumExceeded, bufferId; }
      SetBuffer(b, NewBuffer(contextId, coded, size * count));
      return Success, Id(BUFFER_KIND, b);
    }

    /** `advc_vaapi_encode_destroy_buffer`: refused while mapped or awaited. */
    method DestroyBuffer(bufferId: int) returns (r: Status)
      requires Valid()
      modifies this`buffers
      ensures Valid()
      ensures var b := GetBuffer(old(buffers), bufferId);
              && (r == Success <==> b >= 0 && !old(buffers)[b].mapped && !Busy(old(buffers)[b]))
              && (r == Success ==> buffers == old(buffers)[b := NO_BUFFER])
      ensures r != Success ==> unchanged(this)
    {
      hide Core;
      var b := GetBuffer(buffers, bufferId);
      if b < 0 { return InvalidBuffer; }
      if buffers[b].mapped || buffers[b].pendingSurface != INVALID { return SurfaceBusy; }
      SetBuffer(b, NO_BUFFER);
      return Success;
    }

    /** `advc_vaapi_encode_map_buffer`: a mapped coded buffer awaits nothing and holds an output. */
    method MapBuffer(bufferId: int) returns (r: Status)
      requires Valid()
      modifies this
      ensures Valid()
      ensures GetBuffer(old(buffers), bufferId) < 0 ==> r == InvalidBuffer && unchanged(this)
      ensures r == Success ==>
                var b := GetBuffer(buffers, bufferId);
                && b >= 0 && !old(buffers)[b].mapped && buffers[b].mapped
                && (buffers[b].coded ==> buffers[b].pendingSurface == INVALID && buffers[b].output.Some?)
                && SomeProgress(old(contexts), old(surfaces), old(buffers), old(sessions),
                                contexts, surfaces, buffers[b := buffers[b].(mapped := false)], sessions)
      ensures r != Success ==>
                SomeProgress(old(contexts), old(surfaces), old(buffers), old(sessions), contexts, surfaces, buffers, sessions)
    {
      ProgressRefl(contexts, surfaces, buffers, sessions, 0);
      hide Core, Progress;
      var b := GetBuffer(buffers, bufferId);
      if b < 0 { return InvalidBuffer; }
      if buffers[b].mapped { return OperationFailed; }
      if buffers[b].coded {
        if buffers[b].pendingSurface != INVALID {
          r := SyncAwaited(b);
          if r != Success { return r; }
        }
        if buffers[b].output.None? { return OperationFailed; }
      }
      SomeProgressAt(old(contexts), old(surfaces), old(buffers), old(sessions), contexts, surfaces, buffers, sessions, b);
      ghost var bs := buffers;
      SetBuffer(b, buffers[b].(mapped := true));
      assert buffers[b := buffers[b].(mapped := false)] == bs;
      return Success;
    }

    /** `advc_vaapi_encode_unmap_buffer`. */
    method UnmapBuffer(bufferId: int) returns (r: Status)
      requires Valid()
      modifies this`buffers
      ensures Valid()
      ensures var b := GetBuffer(old(buffers), bufferId);
              && (r == Success <==> b >= 0 && old(buffers)[b].mapped)
              && (r == Success ==> buffers == old(buffers)[b := old(buffers)[b].(mapped := false)])
      ensures r != Success ==> unchanged(this)
    {
      hide Core;
      var b := GetBuffer(buffers, bufferId);
      if b < 0 { return InvalidBuffer; }
      if !buffers[b].mapped { return OperationFailed; }
      SetBuffer(b, buffers[b].(mapped := false));
      return Success;
    }

    /** `advc_vaapi_encode_begin_picture`. */
    method BeginPicture(contextId: int, target: int, frameMode: bool) returns (r: Status)
      requires Valid()
      modifies this`contexts, this`surfaces
      ensures Valid()
      ensures var c, s := GetContext(old(contexts), contextId), GetSurface(old(surfaces), target);
              && (r == Success <==>
                    && c >= 0 && s >= 0 && !old(contexts)[c].pictureActive
                    && old(surfaces)[s].width == old(contexts)[c].width && old(surfaces)[s].height == old(contexts)[c].height
                    && (old(surfaces)[s].state == Idle || old(surfaces)[s].state == Ready)
                    && (old(surfaces)[s].owner == 0 || old(surfaces)[s].owner == contextId)
                    && old(contexts)[c].pendingCount < 4 && (frameMode ==> old(contexts)[c].pendingCount == 0))
              && (r == Success ==>
                    && contexts == old(contexts)[c := old(contexts)[c].(
                         pictureActive := true, target := target,
                         frame := old(contexts)[c].frame.(codedBuffer := INVALID, complete := false))]
                    && surfaces == old(surfaces)[s := old(surfaces)[s].(state := Idle, codedBuffer := INVALID)])
      ensures r != Success ==> unchanged(this)
    {
      var c, s := GetContext(contexts, contextId), GetSurface(surfaces, target);
      if c < 0 { return InvalidContext; }
      if s < 0 || surfaces[s].width != contexts[c].width || surfaces[s].height != contexts[c].height { return InvalidSurface; }
      if surfaces[s].state == Error { return EncodingError; }
      if contexts[c].pictureActive || (frameMode && contexts[c].pendingCount != 0) || contexts[c].pendingCount >= MAX_INFLIGHT ||
         surfaces[s].state == Pending || (surfaces[s].owner != 0 && surfaces[s].owner != contextId) {
        return SurfaceBusy;
      }
      CoreOwner(s);
      hide PendingOf, InOrder, Ordered, StateOf, Woven, Sound;
      SetSurface(s, surfaces[s].(state := Idle, codedBuffer := INVALID));
      var z := Begun(contexts[c], target);
      ContextKeepsSound(contexts, surfaces, buffers, sessions, c, z);
      AnchoredUpdate(contexts, surfaces, c, z);
      contexts := contexts[c := z];
      return Success;
    }

    lemma CoreOwner(s: nat)
      requires Core() && s < |surfaces| && surfaces[s].used
      ensures surfaces[s].owner != 0 ==> GetContext(contexts, surfaces[s].owner) >= 0
      ensures surfaces[s].registered ==> var c := GetContext(contexts, surfaces[s].owner); c >= 0 && contexts[c].brokerOpen
    {
    }

    /** `advc_vaapi_encode_render_picture`; what each buffer does to the frame parameters is left open. */
    method RenderPicture(contextId: int, bufferIds: seq<int>) returns (r: Status)
      requires Valid()
      modifies this`contexts
      ensures Valid()
      ensures var c := GetContext(old(contexts), contextId);
              && (c < 0 || !old(contexts)[c].pictureActive ==> r != Success && unchanged(this))
              && (c >= 0 ==> contexts == old(contexts)[c := old(contexts)[c].(frame := contexts[c].frame)])
              && (r == Success ==> forall k :: 0 <= k < |bufferIds| ==> Renderable(buffers, bufferIds[k], contextId))
    {
      var c := GetContext(contexts, contextId);
      if c < 0 { return InvalidContext; }
      if !contexts[c].pictureActive { return OperationFailed; }
      for i := 0 to |bufferIds|
        invariant Valid() && contexts == old(contexts)[c := old(contexts)[c].(frame := contexts[c].frame)]
        invariant forall k :: 0 <= k < i ==> Renderable(buffers, bufferIds[k], contextId)
      {
        var b := GetBuffer(buffers, bufferIds[i]);
        if b < 0 { return InvalidBuffer; }
        if buffers[b].owner != contextId || buffers[b].mapped || buffers[b].coded { return InvalidParameter; }
        var frame: Frame := *;
        SetFrame(c, frame);
        var consumed: bool := *;
        if !consumed { return Unsupported; }
      }
      return Success;
    }

    method SetFrame(c: nat, f: Frame)
      requires Valid() && c < |contexts| && contexts[c].used
      modifies this`contexts
      ensures Valid() && contexts == old(contexts)[c := old(contexts)[c].(frame := f)]
    {
      var z := contexts[c].(frame := f);
      SoundParts(contexts, surfaces, buffers, sessions, c);
      hide PendingOf, InOrder, Ordered, StateOf, Woven, Sound;
      ActiveStaysFree(contexts, surfaces, buffers, c, z);
      ContextKeepsSound(contexts, surfaces, buffers, sessions, c, z);
      AnchoredUpdate(contexts, surfaces, c, z);
      contexts := contexts[c := z];
    }

    /** `sync_surface_locked` between public calls. */
    method Sync(s: nat) returns (r: Status)
      requires Valid() && s < |surfaces| && surfaces[s].used
      modifies this
      ensures Valid() && SomeProgress(old(contexts), old(surfaces), old(buffers), old(sessions), contexts, surfaces, buffers, sessions)
      ensures SurfaceProgress(old(surfaces)[s], surfaces[s], old(surfaces)[s].owner)
      ensures !IsPending(old(surfaces)[s]) ==>
                unchanged(this) && r == if surfaces[s].state == Error then EncodingError else Success
      ensures IsPending(old(surfaces)[s]) ==>
                && (r == Success <==> surfaces[s].state == Ready) && (r == TimedOut <==> surfaces[s].state == Pending)
                && (r == Success ==> Stored(buffers, surfaces[s]))
    {
      hide Core, Stored, BufferProgress, SessionProgress;
      ProgressRefl(contexts, surfaces, buffers, sessions, 0);
      r := SyncLocked(s);
    }

    /** `advc_vaapi_encode_sync_surface`. */
    method SyncSurface(surfaceId: int) returns (r: Status)
      requires Valid()
      modifies this
      ensures Valid()
      ensures var s := GetSurface(old(surfaces), surfaceId);
              && (s < 0 ==> r == InvalidSurface && unchanged(this))
              && (s >= 0 && r == Success ==> surfaces[s].state == Ready || surfaces[s].state == Idle)
              && (s >= 0 && r == Success && IsPending(old(surfaces)[s]) ==> Stored(buffers, surfaces[s]))
              && (s >= 0 && r == TimedOut ==> IsPending(surfaces[s]))
      ensures SomeProgress(old(contexts), old(surfaces), old(buffers), old(sessions), contexts, surfaces, buffers, sessions)
    {
      hide Core, Stored, BufferProgress, SessionProgress;
      ProgressRefl(contexts, surfaces, buffers, sessions, 0);
      var s := GetSurface(surfaces, surfaceId);
      if s < 0 { return InvalidSurface; }
      r := Sync(s);
    }

    /** `advc_vaapi_encode_sync_buffer`: the surface a busy coded buffer names always exists. */
    method SyncBuffer(bufferId: int) returns (r: Status)
      requires Valid()
      modifies this
      ensures Valid()
      ensures var b := GetBuffer(old(buffers), bufferId);
              && (b < 0 || !old(buffers)[b].coded ==> r == InvalidBuffer && unchanged(this))
              && (b >= 0 && old(buffers)[b].coded && !Busy(old(buffers)[b]) ==> r == Success && unchanged(this))
              && (b >= 0 && old(buffers)[b].coded && r == Success ==> buffers[b].pendingSurface == INVALID)
              && (b >= 0 && old(buffers)[b].coded && Busy(old(buffers)[b]) && r == Success ==> buffers[b].output.Some?)
      ensures SomeProgress(old(contexts), old(surfaces), old(buffers), old(sessions), contexts, surfaces, buffers, sessions)
    {
      ProgressRefl(contexts, surfaces, buffers, sessions, 0);
      hide Progress;
      var b := GetBuffer(buffers, bufferId);
      if b < 0 || !buffers[b].coded { return InvalidBuffer; }
      if buffers[b].pendingSurface == INVALID { return Success; }
      r := SyncAwaited(b);
    }

    method SyncAwaited(b: nat) returns (r: Status)
      requires Valid() && b < |buffers| && Busy(buffers[b])
      modifies this
      ensures Valid() && SomeProgress(old(contexts), old(surfaces), old(buffers), old(sessions), contexts, surfaces, buffers, sessions)
      ensures r == Success ==> buffers[b].pendingSurface == INVALID && buffers[b].output.Some?
    {
      SoundParts(contexts, surfaces, buffers, sessions, 0);
      BusyIsAwaited(contexts, surfaces, buffers, b);
      hide Core, Woven, Tracked, Counted, Progress, SomeProgress;
      var s := GetSurface(surfaces, buffers[b].pendingSurface);
      r := Sync(s);
    }

    /** `advc_vaapi_encode_export_surface` for one access mode; a pending surface is completed first. */
    method ExportSurface(surfaceId: int, write: bool) returns (r: Status)
      requires Valid()
      modifies this
      ensures Valid()
      ensures var s := GetSurface(old(surfaces), surfaceId);
              && (s < 0 ==> r == InvalidSurface && unchanged(this))
              && (s >= 0 && r == Success ==> !IsPending(surfaces[s]))
              && (s >= 0 && r == Success && write ==> surfaces[s].writeExported && surfaces[s].state != Error)
              && (s >= 0 ==>
                    && |surfaces| == |old(surfaces)|
                    && SomeProgress(old(contexts), old(surfaces), old(buffers), old(sessions), contexts,
                                    surfaces[s := surfaces[s].(writeExported := old(surfaces)[s].writeExported)], buffers, sessions))
    {
      SomeProgressRefl(contexts, surfaces, buffers, sessions);
      hide Core, Calm, SomeProgress, Stored;
      var s := GetSurface(surfaces, surfaceId);
      if s < 0 { return InvalidSurface; }
      r := Success;
      if surfaces[s].state == Pending {
        r := Sync(s);
      }
      ghost var ss := surfaces;
      assert surfaces[s].writeExported == old(surfaces)[s].writeExported && surfaces[s].used;
      assert ss[s := ss[s].(writeExported := old(surfaces)[s].writeExported)] == ss;
      if r != Success { return; }
      var exported: bool := *;
      if (write && surfaces[s].state == Error) || !exported { return OperationFailed; }
      if write {
        ExportForWrite(s);
        assert surfaces[s := surfaces[s].(writeExported := old(surfaces)[s].writeExported)] == ss;
      }
      return Success;
    }

    method ExportForWrite(s: nat)
      requires Valid() && s < |surfaces| && surfaces[s].used && !IsPending(surfaces[s])
      modifies this`surfaces
      ensures Valid() && surfaces == old(surfaces)[s := old(surfaces)[s].(writeExported := true)]
    {
      hide Core, Calm;
      CoreOwner(s);
      SetSurface(s, surfaces[s].(writeExported := true));
    }

    /** `image_acquire_surface`: pixels are handed out of a surface that is neither pending nor failed. */
    method AcquireImage(surfaceId: int, write: bool) returns (r: Status)
      requires Valid()
      modifies this
      ensures Valid() && SomeProgress(old(contexts), old(surfaces), old(buffers), old(sessions), contexts, surfaces, buffers, sessions)
      ensures var s := GetSurface(old(surfaces), surfaceId);
              && (s < 0 ==> r == InvalidSurface && unchanged(this))
              && (s >= 0 && write && IsPending(old(surfaces)[s]) ==> r == SurfaceBusy && unchanged(this))
              && (s >= 0 && r == Success ==> s < |surfaces| && (surfaces[s].state == Idle || surfaces[s].state == Ready))
    {
      ProgressRefl(contexts, surfaces, buffers, sessions, 0);
      hide Core, Progress;
      var s := GetSurface(surfaces, surfaceId);
      if s < 0 { return InvalidSurface; }
      if surfaces[s].state == Pending {
        if write { return SurfaceBusy; }
        r := Sync(s);
        if r != Success { return; }
      }
      if surfaces[s].state == Error { return EncodingError; }
      var duplicated: bool := *;
      return if duplicated then Success else OperationFailed;
    }

    // ---------- every sequence of calls ----------

    /**
      Makes the calls in order, each with arbitrary replies from outside, up to one that ends on a missing surface. The
      invariant holds after every one, no session's history is ever rewritten, and a session not for one frame stays
      open, and the same, unless one of the calls destroys its context.
     */
    method Run(calls: seq<Call>)
      requires Valid()
      modifies this
      ensures Valid() && Evolves(old(sessions), sessions)
      ensures RunKeepsOpen(old(contexts), old(sessions), contexts, sessions, calls)
    {
      hide Core, SessionEvolves, Calm, RunKeepsOpen, OthersStayOpen;
      EvolvesRefl(sessions);
      RunStarts(calls);
      for i := 0 to |calls|
        invariant Valid() && Evolves(old(sessions), sessions)
        invariant RunKeepsOpen(old(contexts), old(sessions), contexts, sessions, calls[..i])
      {
        ghost var cs, hs := contexts, sessions;
        var gone := Perform(calls[i]);
        EvolvesTrans(old(sessions), hs, sessions);
        OneMoreCall(old(contexts), old(sessions), cs, hs, contexts, sessions, calls, i);
        if gone {
          MoreCalls(old(contexts), old(sessions), contexts, sessions, calls, i + 1);
          return;
        }
      }
      MoreCalls(old(contexts), old(sessions), contexts, sessions, calls, |calls|);
    }

    lemma RunStarts(calls: seq<Call>)
      requires Core()
      ensures RunKeepsOpen(contexts, sessions, contexts, sessions, calls[..0])
    {
    }

    method Perform(call: Call) returns (gone: bool)
      requires Valid()
      modifies this
      ensures Valid() && Evolves(old(sessions), sessions)
      ensures OthersStayOpen(old(contexts), old(sessions), contexts, sessions, call)
    {
      hide Core, SessionEvolves, SomeProgress, Calm;
      gone := false;
      if call.DestroyContext? {
        Destroy(call.id);
        return;
      }
      gone := PerformOther(call);
      hide StaysOpen;
      StayOpenParts(old(contexts), old(sessions), contexts, sessions, call);
    }

    method Destroy(id: int)
      requires Valid()
      modifies this
      ensures Valid() && Evolves(old(sessions), sessions)
      ensures OthersStayOpen(old(contexts), old(sessions), contexts, sessions, Call.DestroyContext(id))
    {
      hide Core, SessionEvolves, Calm;
      EvolvesRefl(sessions);
      var _ := DestroyContext(id);
    }

    /** Every call but the one that destroys a context. */
    method PerformOther(call: Call) returns (gone: bool)
      requires Valid() && !call.DestroyContext?
      modifies this
      ensures Valid() && Evolves(old(sessions), sessions) && AllStayOpen(old(contexts), old(sessions), contexts, sessions)
    {
      hide Core, SessionEvolves, SomeProgress, Calm, AllStayOpen, Evolves;
      gone := false;
      EvolvesRefl(sessions);
      StayOpenRefl(contexts, sessions);
      match call {
        case CreateContext(width, height, targets, supported) =>
          var _, _ := CreateContext(width, height, targets, supported);
          FilledStaysOpen(old(contexts), contexts, sessions);
        case CreateSurfaces(width, height, count) => var _, _ := CreateSurfaces(width, height, count);
        case DestroySurfaces(ids) =>
          var r := DestroySurfaces(ids);
          gone := r == MissingSurface;
        case CreateBuffer(id, supported, coded, size, count) => var _, _ := CreateBuffer(id, supported, coded, size, count);
        case DestroyBuffer(id) => var _ := DestroyBuffer(id);
        case UnmapBuffer(id) => var _ := UnmapBuffer(id);
        case BeginPicture(id, target, frameMode) =>
          var _ := BeginPicture(id, target, frameMode);
          BegunStaysOpen(old(contexts), contexts, sessions);
        case RenderPicture(id, ids) =>
          var _ := RenderPicture(id, ids);
          BegunStaysOpen(old(contexts), contexts, sessions);
        case EndPicture(id, frameMode) => var _ := EndPicture(id, frameMode);
        case MapBuffer(_) | SyncSurface(_) | SyncBuffer(_) | ExportSurface(_, _) | AcquireImage(_, _) => SyncAndEvolve(call);
      }
    }

    /** The calls that may sync. */
    method SyncAndEvolve(call: Call)
      requires Valid() && (call.MapBuffer? || call.SyncSurface? || call.SyncBuffer? || call.ExportSurface? || call.AcquireImage?)
      modifies this
      ensures Valid() && Evolves(old(sessions), sessions) && AllStayOpen(old(contexts), old(sessions), contexts, sessions)
    {
      hide Core, SessionEvolves, SomeProgress, Matched, AllStayOpen, Evolves, Decided;
      EvolvesRefl(sessions);
      StayOpenRefl(contexts, sessions);
      ghost var ss, bs := surfaces, buffers;
      ghost var s := GetSurface(surfaces, if call.ExportSurface? then call.id else 0);
      match call {
        case MapBuffer(id) =>
          var r := MapBuffer(id);
          bs := buffers;
          if r == Success {
            ghost var b := GetBuffer(buffers, id);
            bs := buffers[b := buffers[b].(mapped := false)];
          }
        case SyncSurface(id) => var _ := SyncSurface(id);
        case SyncBuffer(id) => var _ := SyncBuffer(id);
        case ExportSurface(id, write) => var _ := ExportSurface(id, write);
        case AcquireImage(id, write) => var _ := AcquireImage(id, write);
      }
      if !call.ExportSurface? || s >= 0 {
        ss := if call.ExportSurface? then surfaces[s := surfaces[s].(writeExported := old(surfaces)[s].writeExported)] else surfaces;
        if !call.MapBuffer? { bs := buffers; }
        ProgressEvolves(old(contexts), old(surfaces), old(buffers), old(sessions), contexts, ss, bs, sessions);
        ProgressStaysOpen(old(contexts), old(surfaces), old(buffers), old(sessions), contexts, ss, bs, sessions);
      }
    }
  }

  lemma StayOpenParts(cs: seq<Context>, hs: seq<Session>, cs': seq<Context>, hs': seq<Session>, call: Call)
    requires AllStayOpen(cs, hs, cs', hs')
    ensures OthersStayOpen(cs, hs, cs', hs', call)
  {
    hide Lasting;
    forall c | 0 <= c < |cs|
      ensures (cs[c].used && cs[c].brokerOpen ==> hs'[c].number == hs[c].number) && (Lasting(cs[c]) ==> Lasting(cs'[c]))
    {
      assert StaysOpen(cs[c], hs[c], cs'[c], hs'[c]);
    }
  }

  /** Filling a free slot closes nothing. */
  lemma FilledStaysOpen(cs: seq<Context>, cs': seq<Context>, hs: seq<Session>)
    requires |cs| == |cs'| == |hs| && forall c :: 0 <= c < |cs| && cs[c].used ==> cs'[c] == cs[c]
    ensures AllStayOpen(cs, hs, cs', hs)
  {
  }

  /** Beginning a picture or setting its parameters closes nothing. */
  lemma BegunStaysOpen(cs: seq<Context>, cs': seq<Context>, hs: seq<Session>)
    requires |cs| == |cs'| == |hs|
    requires forall c :: 0 <= c < |cs| && cs[c].used ==> cs'[c].used && cs'[c].brokerOpen == cs[c].brokerOpen && cs'[c].frameSession == cs[c].frameSession
    ensures AllStayOpen(cs, hs, cs', hs)
  {
  }

  lemma ServedBuffer(cs: seq<Context>, ss: seq<Surface>, bs: seq<Buffer>, s: nat)
    requires Woven(cs, ss, bs) && s < |ss| && IsPending(ss[s])
    ensures var b := GetBuffer(bs, ss[s].codedBuffer); b >= 0 && bs[b].coded && bs[b].pendingSurface == Id(SURFACE_KIND, s)
    ensures var c := GetContext(cs, ss[s].owner); c >= 0 && cs[c].brokerOpen
  {
    assert Served(cs, ss, bs, s);
  }
}
