/**
  What a broker session has been asked and has answered, and the order between the two: as long as no picture
  failed, the k-th output that was not lost sits with the k-th submitted picture, so output k reaches picture k
  exactly when none of the outputs up to it was lost.
 */
module EncodeFifo {
  import opened Bits
  import opened SlotIds
  import opened EncodeLinks
  import opened EncodeEos

  /** A submitted picture: its surface and coded-buffer slots, timestamp and frame number. */
  datatype Job = Job(surface: nat, buffer: nat, ptsNs: nat, index: nat)

  /** A delivered output: the coded-buffer slot it went to, the broker's bytes and the timestamp put on them. */
  datatype Delivery = Delivery(buffer: nat, payload: int, ptsNs: nat)

  /**
    What became of an output: not decided yet, placed in a coded buffer, missed because the fence it had to wait for was
    late, or discarded.
   */
  datatype Fate = Undecided | Placed | Missed | Discarded

  /** An output as it came from the broker. */
  datatype Received = Received(payload: int, fate: Fate)

  /**
    The `number`-th session of its slot: the timestamps of the pictures the broker took, the pictures on record, the
    outputs that came, those delivered, and the end-of-stream events. It is intact until a picture fails.
   */
  datatype Session = Session(
    number: nat, sent: seq<nat>, jobs: seq<Job>, received: seq<Received>, deliveries: seq<Delivery>, intact: bool,
    trace: seq<EosEvent>)

  function NewSession(number: nat): Session {
    Session(number, [], [], [], [], true, [])
  }

  /** Every output has met its fate. */
  ghost predicate Decided(rs: seq<Received>) {
    forall k :: 0 <= k < |rs| ==> rs[k].fate != Undecided
  }

  /** The output `out` has just been received, and every other has met its fate. */
  ghost predicate Holding(rs: seq<Received>, out: int) {
    rs != [] && rs[|rs| - 1] == Received(out, Undecided) && Decided(rs[..|rs| - 1])
  }

  /** The last output meets its fate. */
  function Decide(rs: seq<Received>, fate: Fate): seq<Received>
    requires rs != []
  {
    rs[..|rs| - 1] + [rs[|rs| - 1].(fate := fate)]
  }

  /** More outputs came, and fates once met stay. */
  ghost predicate ReceivesMore(rs: seq<Received>, rs': seq<Received>) {
    && |rs| <= |rs'|
    && forall k :: 0 <= k < |rs| ==> rs'[k].payload == rs[k].payload && (rs[k].fate != Undecided ==> rs'[k] == rs[k])
  }

  lemma DecidedGrows(rs: seq<Received>, rs': seq<Received>)
    requires Decided(rs) && ReceivesMore(rs, rs')
    ensures rs <= rs'
  {
  }

  lemma DecideLast(rs: seq<Received>, out: int, fate: Fate)
    requires Holding(rs, out) && fate != Undecided
    ensures Decided(Decide(rs, fate)) && ReceivesMore(rs, Decide(rs, fate))
    ensures Decide(rs, fate) == rs[..|rs| - 1] + [Received(out, fate)]
  {
  }

  lemma DecideNext(rs: seq<Received>, out: int, fate: Fate)
    ensures Decide(rs + [Received(out, Undecided)], fate) == rs + [Received(out, fate)]
  {
  }

  lemma HoldNext(rs: seq<Received>, out: int)
    requires Decided(rs)
    ensures Holding(rs + [Received(out, Undecided)], out) && ReceivesMore(rs, rs + [Received(out, Undecided)])
  {
    assert (rs + [Received(out, Undecided)])[..|rs|] == rs;
  }

  /** Of an intact session: the pictures on record are those the broker took. */
  ghost predicate Matched(h: Session) {
    h.intact ==> |h.sent| == |h.jobs| && forall k :: 0 <= k < |h.jobs| ==> h.jobs[k].ptsNs == h.sent[k]
  }

  /** Nothing is half done. */
  ghost predicate Calm(h: Session) {
    Decided(h.received) && Matched(h)
  }

  /** The outputs that were placed. */
  function Kept(rs: seq<Received>): seq<int> {
    if rs == [] then []
    else Kept(rs[..|rs| - 1]) + (if rs[|rs| - 1].fate == Placed then [rs[|rs| - 1].payload] else [])
  }

  /** How many outputs before the k-th were kept. */
  function Rank(rs: seq<Received>, k: nat): nat
    requires k <= |rs|
  {
    |Kept(rs[..k])|
  }

  /** Jobs carry increasing frame numbers below `limit` and the timestamps those numbers have at the session's rate. */
  ghost predicate Ordered(jobs: seq<Job>, fpsMilli: nat, limit: nat) {
    && (forall k :: 0 <= k < |jobs| ==> Timed(jobs[k], fpsMilli) && jobs[k].index < limit)
    && (forall i, j :: 0 <= i < j < |jobs| ==> jobs[i].index < jobs[j].index)
  }

  predicate Timed(j: Job, fpsMilli: nat) {
    OnTime(j.ptsNs, j.index, fpsMilli)
  }

  predicate Queued(ss: seq<Surface>, j: Job, id: int) {
    && j.surface < |ss| && PendingFor(ss[j.surface], id)
    && ss[j.surface].codedBuffer == Id(BUFFER_KIND, j.buffer)
    && ss[j.surface].submitIndex == j.index && ss[j.surface].ptsNs == j.ptsNs
  }

  /** The k-th kept output went to the k-th job; the rest are exactly the pending surfaces. */
  ghost predicate InOrder(ss: seq<Surface>, h: Session, id: int) {
    h.intact ==>
      && |h.deliveries| == |Kept(h.received)| <= |h.jobs|
      && (forall k :: 0 <= k < |h.deliveries| ==>
            h.deliveries[k] == Delivery(h.jobs[k].buffer, Kept(h.received)[k], MediaPts(h.jobs[k].ptsNs)))
      && (forall k :: |h.deliveries| <= k < |h.jobs| ==> Queued(ss, h.jobs[k], id))
      && (forall s :: 0 <= s < |ss| && PendingFor(ss[s], id) ==> AwaitedBy(h, s))
  }

  ghost predicate AwaitedBy(h: Session, s: nat) {
    exists k :: |h.deliveries| <= k < |h.jobs| && h.jobs[k].surface == s
  }

  ghost predicate Tracked(cs: seq<Context>, ss: seq<Surface>, hs: seq<Session>, c: nat)
    requires c < |cs| == |hs|
  {
    cs[c].used && cs[c].brokerOpen ==>
      && Ordered(hs[c].jobs, cs[c].brokerFps, cs[c].frameIndex)
      && InOrder(ss, hs[c], Id(CONTEXT_KIND, c))
      && cs[c].eos == StateOf(hs[c].trace)
  }

  /** The whole invariant of the slot tables and the session histories. */
  ghost predicate Sound(cs: seq<Context>, ss: seq<Surface>, bs: seq<Buffer>, hs: seq<Session>) {
    && Linked(cs, ss, bs)
    && |hs| == |cs|
    && (forall c :: 0 <= c < |cs| ==> Tracked(cs, ss, hs, c))
  }

  /** Timestamps of one session strictly increase, even as MediaCodec truncates them. */
  lemma TimestampsIncrease(cs: seq<Context>, ss: seq<Surface>, bs: seq<Buffer>, hs: seq<Session>, c: nat, i: nat, j: nat)
    requires Sound(cs, ss, bs, hs) && c < |cs| && cs[c].used && cs[c].brokerOpen
    requires i < j < |hs[c].jobs|
    ensures MediaPts(hs[c].jobs[i].ptsNs) < MediaPts(hs[c].jobs[j].ptsNs)
  {
    assert Tracked(cs, ss, hs, c) && Counted(cs, ss, c);
    var jobs := hs[c].jobs;
    assert Timed(jobs[i], cs[c].brokerFps) && Timed(jobs[j], cs[c].brokerFps);
    MediaTime(jobs[i].ptsNs);
    MediaTime(jobs[j].ptsNs);
    TimesIncrease(jobs[i].index, jobs[j].index, cs[c].brokerFps, jobs[i].ptsNs, jobs[j].ptsNs,
                  MediaPts(jobs[i].ptsNs), MediaPts(jobs[j].ptsNs));
  }

  /** In an intact session the k-th kept output sits with the k-th picture's buffer and timestamp. */
  lemma OutputsMatchPictures(cs: seq<Context>, ss: seq<Surface>, bs: seq<Buffer>, hs: seq<Session>, c: nat, k: nat)
    requires Sound(cs, ss, bs, hs) && c < |cs| && cs[c].used && cs[c].brokerOpen
    requires hs[c].intact && k < |hs[c].deliveries|
    ensures k < |hs[c].jobs|
    ensures |Kept(hs[c].received)| == |hs[c].deliveries| && hs[c].deliveries[k].payload == Kept(hs[c].received)[k]
    ensures hs[c].deliveries[k].buffer == hs[c].jobs[k].buffer
    ensures InMicros(hs[c].deliveries[k].ptsNs, hs[c].jobs[k].ptsNs)
    ensures OnTime(hs[c].jobs[k].ptsNs, hs[c].jobs[k].index, cs[c].brokerFps)
  {
    assert Tracked(cs, ss, hs, c);
    assert Timed(hs[c].jobs[k], cs[c].brokerFps);
    MediaTime(hs[c].jobs[k].ptsNs);
  }

  // ---------- which output reaches which picture ----------

  lemma {:induction false} KeptAt(rs: seq<Received>, k: nat)
    requires k < |rs| && rs[k].fate == Placed
    ensures Rank(rs, k) < |Kept(rs)| && Kept(rs)[Rank(rs, k)] == rs[k].payload
  {
    var n := |rs| - 1;
    if k < n {
      KeptAt(rs[..n], k);
      assert rs[..n][..k] == rs[..k];
    }
  }

  /** Every output that is lost sets the later ones back by one. */
  lemma {:induction false} RankIsIndex(rs: seq<Received>, k: nat)
    requires k <= |rs|
    ensures Rank(rs, k) <= k
    ensures Rank(rs, k) == k <==> forall i :: 0 <= i < k ==> rs[i].fate == Placed
  {
    if k > 0 {
      RankIsIndex(rs, k - 1);
      assert rs[..k][..k - 1] == rs[..k - 1];
    }
  }

  /** Output `k` was stored for picture `j`. */
  predicate Reached(h: Session, k: nat, j: nat)
    requires k < |h.received|
  {
    h.received[k].fate == Placed && Rank(h.received, k) == j
  }

  /**
    In an intact session an output that is placed goes to the picture with as many placed outputs before it, and so
    output `k` reaches picture `k` if and only if none of the outputs 0..k was lost.
   */
  lemma OutputReachesItsPicture(cs: seq<Context>, ss: seq<Surface>, bs: seq<Buffer>, hs: seq<Session>, c: nat, k: nat)
    requires Sound(cs, ss, bs, hs) && c < |cs| && cs[c].used && cs[c].brokerOpen
    requires hs[c].intact && k < |hs[c].received|
    ensures Reached(hs[c], k, k) <==> forall i :: 0 <= i <= k ==> hs[c].received[i].fate == Placed
    ensures forall j :: 0 <= j && Reached(hs[c], k, j) ==>
              && j < |hs[c].deliveries| && j < |hs[c].jobs|
              && hs[c].deliveries[j].buffer == hs[c].jobs[j].buffer && hs[c].deliveries[j].payload == hs[c].received[k].payload
              && InMicros(hs[c].deliveries[j].ptsNs, hs[c].jobs[j].ptsNs)
  {
    hide Kept;
    assert Tracked(cs, ss, hs, c);
    RankIsIndex(hs[c].received, k);
    if hs[c].received[k].fate == Placed {
      KeptAt(hs[c].received, k);
    }
  }

  // ---------- frame conditions ----------

  /** A context's order depends only on its own pending surfaces. */
  lemma InOrderFrame(ss: seq<Surface>, ss': seq<Surface>, h: Session, id: int)
    requires InOrder(ss, h, id) && |ss| == |ss'|
    requires forall s :: 0 <= s < |ss| && (PendingFor(ss[s], id) || PendingFor(ss'[s], id)) ==> ss[s] == ss'[s]
    ensures InOrder(ss', h, id)
  {
    if h.intact {
      forall k | |h.deliveries| <= k < |h.jobs| ensures Queued(ss', h.jobs[k], id) {
        assert Queued(ss, h.jobs[k], id);
      }
      forall s | 0 <= s < |ss'| && PendingFor(ss'[s], id) ensures AwaitedBy(h, s) {
        assert PendingFor(ss[s], id);
      }
    }
  }

  /** Surfaces may change as long as every context keeps its pending surfaces as they were. */
  lemma TrackedFrame(cs: seq<Context>, ss: seq<Surface>, ss': seq<Surface>, hs: seq<Session>, c: nat)
    requires c < |cs| == |hs| && |ss| == |ss'| && Tracked(cs, ss, hs, c)
    requires var id := Id(CONTEXT_KIND, c);
             forall s :: 0 <= s < |ss| && (PendingFor(ss[s], id) || PendingFor(ss'[s], id)) ==> ss[s] == ss'[s]
    ensures Tracked(cs, ss', hs, c)
  {
    if cs[c].used && cs[c].brokerOpen {
      InOrderFrame(ss, ss', hs[c], Id(CONTEXT_KIND, c));
    }
  }

  // ---------- delivery ----------

  /** In an intact session the oldest pending surface is the first undelivered job's. */
  lemma OldestIsNext(ss: seq<Surface>, h: Session, id: int, fpsMilli: nat, limit: nat, s: nat)
    requires InOrder(ss, h, id) && Ordered(h.jobs, fpsMilli, limit) && h.intact
    requires s < |ss| && PendingFor(ss[s], id)
    requires forall t :: 0 <= t < |ss| && PendingFor(ss[t], id) ==> ss[s].submitIndex <= ss[t].submitIndex
    ensures |h.deliveries| < |h.jobs| && h.jobs[|h.deliveries|].surface == s
  {
    assert AwaitedBy(h, s);
    var k :| |h.deliveries| <= k < |h.jobs| && h.jobs[k].surface == s;
    assert Queued(ss, h.jobs[k], id);
    assert Queued(ss, h.jobs[|h.deliveries|], id);
  }

  /** The output in hand goes to a buffer. */
  function Delivered(h: Session, buffer: nat, ptsNs: nat): Session
    requires h.received != []
  {
    h.(received := Decide(h.received, Placed),
       deliveries := h.deliveries + [Delivery(buffer, h.received[|h.received| - 1].payload, ptsNs)])
  }

  lemma KeptSnoc(rs: seq<Received>, r: Received)
    ensures Kept(rs + [r]) == Kept(rs) + (if r.fate == Placed then [r.payload] else [])
  {
    assert (rs + [r])[..|rs|] == rs;
  }

  lemma KeptDecide(rs: seq<Received>, fate: Fate)
    requires rs != [] && rs[|rs| - 1].fate == Undecided
    ensures Kept(Decide(rs, fate)) == Kept(rs) + (if fate == Placed then [rs[|rs| - 1].payload] else [])
  {
    var n := |rs| - 1;
    assert rs == rs[..n] + [rs[n]];
    KeptSnoc(rs[..n], rs[n]);
    KeptSnoc(rs[..n], rs[n].(fate := fate));
    assert Kept(rs[..n]) + [] == Kept(rs[..n]);
  }

  lemma DeliverInOrder(ss: seq<Surface>, h: Session, id: int, fpsMilli: nat, limit: nat, s: nat, b: nat, x: Surface)
    requires InOrder(ss, h, id) && Ordered(h.jobs, fpsMilli, limit)
    requires s < |ss| && PendingFor(ss[s], id) && ss[s].codedBuffer == Id(BUFFER_KIND, b)
    requires forall t :: 0 <= t < |ss| && PendingFor(ss[t], id) ==> ss[s].submitIndex <= ss[t].submitIndex
    requires !IsPending(x) && h.received != [] && h.received[|h.received| - 1].fate == Undecided
    ensures InOrder(ss[s := x], Delivered(h, b, MediaPts(ss[s].ptsNs)), id)
  {
    if h.intact {
      OldestIsNext(ss, h, id, fpsMilli, limit, s);
      KeptDecide(h.received, Placed);
      var n := |h.deliveries|;
      var h' := Delivered(h, b, MediaPts(ss[s].ptsNs));
      var ss' := ss[s := x];
      assert Queued(ss, h.jobs[n], id);
      forall k | n + 1 <= k < |h.jobs| ensures Queued(ss', h.jobs[k], id) {
        assert Queued(ss, h.jobs[k], id);
        assert h.jobs[n].index < h.jobs[k].index;
      }
      forall t | 0 <= t < |ss'| && PendingFor(ss'[t], id) ensures AwaitedBy(h', t) {
        assert AwaitedBy(h, t);
        var k :| n <= k < |h.jobs| && h.jobs[k].surface == t;
        assert k != n;
      }
    }
  }

  /** The oldest pending picture of context `c` is completed into its coded buffer. */
  lemma DeliverKeepsSound(
    cs: seq<Context>, ss: seq<Surface>, bs: seq<Buffer>, hs: seq<Session>, c: nat, s: nat, b: nat, out: int, size: nat)
    requires Sound(cs, ss, bs, hs) && c < |cs| && s < |ss| && cs[c].used
    requires PendingFor(ss[s], Id(CONTEXT_KIND, c)) && b == GetBuffer(bs, ss[s].codedBuffer) && Holding(hs[c].received, out)
    requires forall t :: 0 <= t < |ss| && PendingFor(ss[t], Id(CONTEXT_KIND, c)) ==> ss[s].submitIndex <= ss[t].submitIndex
    ensures cs[c].pendingCount > 0
    ensures Sound(
              cs[c := cs[c].(pendingCount := cs[c].pendingCount - 1)],
              ss[s := ss[s].(state := Ready)],
              bs[b := bs[b].(output := Some(Output(out, size, MediaPts(ss[s].ptsNs))), pendingSurface := INVALID)],
              hs[c := Delivered(hs[c], b, MediaPts(ss[s].ptsNs))])
  {
    hide PendingOf, InOrder, Ordered, Woven, Delivered, GetContext;
    var id := Id(CONTEXT_KIND, c);
    PendingIsServed(cs, ss, bs, s);
    assert Counted(cs, ss, c) && Tracked(cs, ss, hs, c);
    var z := cs[c].(pendingCount := cs[c].pendingCount - 1);
    var x := ss[s].(state := Ready);
    var y := bs[b].(output := Some(Output(out, size, MediaPts(ss[s].ptsNs))), pendingSurface := INVALID);
    var ss', bs', hs' := ss[s := x], bs[b := y], hs[c := Delivered(hs[c], b, MediaPts(ss[s].ptsNs))];
    OwnerIsContext(cs, ss, bs, c, s);
    UnpairKeepsWoven(cs, ss, bs, s, b, x, y);
    PendingOfUpdate(ss, s, x, id);
    ActiveStaysFree(cs, ss', bs', c, z);
    ContextKeepsWoven(cs, ss', bs', c, z);
    DeliverInOrder(ss, hs[c], id, cs[c].brokerFps, cs[c].frameIndex, s, b, x);
    DeliveredKeepsJobs(hs[c], b, MediaPts(ss[s].ptsNs));
    var cs' := cs[c := z];
    forall d | 0 <= d < |cs| ensures Counted(cs', ss', d) && Tracked(cs', ss', hs', d) {
      assert Counted(cs, ss, d) && Tracked(cs, ss, hs, d);
      if d != c {
        PendingOfUpdate(ss, s, x, Id(CONTEXT_KIND, d));
        TrackedFrame(cs, ss, ss', hs, d);
      }
    }
  }

  lemma DeliveredKeepsJobs(h: Session, b: nat, pts: nat)
    requires h.received != []
    ensures var h2 := Delivered(h, b, pts); h2.jobs == h.jobs && h2.trace == h.trace && h2.number == h.number
  {
  }

  lemma OwnerIsContext(cs: seq<Context>, ss: seq<Surface>, bs: seq<Buffer>, c: nat, s: nat)
    requires Woven(cs, ss, bs) && s < |ss| && c < |cs| && IsPending(ss[s]) && ss[s].owner == Id(CONTEXT_KIND, c)
    ensures cs[c].used && cs[c].brokerOpen && GetContext(cs, ss[s].owner) == c
  {
    assert Served(cs, ss, bs, s);
  }

  /** Changing a context's counters does not affect where it draws. */
  lemma ActiveStaysFree(cs: seq<Context>, ss: seq<Surface>, bs: seq<Buffer>, c: nat, z: Context)
    requires Woven(cs, ss, bs) && c < |cs| && cs[c].used && z.target == cs[c].target && (z.pictureActive ==> cs[c].pictureActive)
    ensures z.pictureActive ==> TargetFree(cs[c := z], ss, c)
  {
    if z.pictureActive {
      assert TargetFree(cs, ss, c);
    }
  }

  // ---------- submission ----------

  lemma SubmitInOrder(ss: seq<Surface>, h: Session, id: int, s: nat, b: nat, x: Surface)
    requires InOrder(ss, h, id)
    requires s < |ss| && !IsPending(ss[s]) && PendingFor(x, id) && x.codedBuffer == Id(BUFFER_KIND, b)
    ensures InOrder(ss[s := x], h.(jobs := h.jobs + [Job(s, b, x.ptsNs, x.submitIndex)]), id)
  {
    if h.intact {
      var j := Job(s, b, x.ptsNs, x.submitIndex);
      var h' := h.(jobs := h.jobs + [j]);
      var ss' := ss[s := x];
      forall k | |h'.deliveries| <= k < |h'.jobs| ensures Queued(ss', h'.jobs[k], id) {
        if k < |h.jobs| { assert Queued(ss, h.jobs[k], id); }
      }
      forall t | 0 <= t < |ss'| && PendingFor(ss'[t], id) ensures AwaitedBy(h', t) {
        if t == s {
          assert h'.jobs[|h.jobs|].surface == t;
        } else {
          assert AwaitedBy(h, t);
          var k :| |h.deliveries| <= k < |h.jobs| && h.jobs[k].surface == t;
          assert h'.jobs[k].surface == t;
        }
      }
    }
  }

  /** The active picture of context `c` is queued: surface `s` and coded buffer `b` become a pending pair. */
  lemma SubmitKeepsSound(
    cs: seq<Context>, ss: seq<Surface>, bs: seq<Buffer>, hs: seq<Session>, c: nat, s: nat, b: nat, x: Surface, y: Buffer, z: Context)
    requires Sound(cs, ss, bs, hs) && c < |cs| && s < |ss| && b < |bs|
    requires cs[c].used && cs[c].brokerOpen && cs[c].pictureActive
    requires ss[s].used && !IsPending(ss[s]) && bs[b].used && bs[b].coded && !Busy(bs[b])
    requires x.used && x.state == Pending && x.owner == Id(CONTEXT_KIND, c) && x.codedBuffer == Id(BUFFER_KIND, b)
    requires x.submitIndex == cs[c].frameIndex && OnTime(x.ptsNs, cs[c].frameIndex, cs[c].brokerFps)
    requires y.used && y.coded && y.pendingSurface == Id(SURFACE_KIND, s)
    requires z == cs[c].(pendingCount := cs[c].pendingCount + 1, frameIndex := cs[c].frameIndex + 1, lastPtsNs := z.lastPtsNs,
                         pictureActive := false, target := z.target)
    ensures Sound(cs[c := z], ss[s := x], bs[b := y], hs[c := hs[c].(jobs := hs[c].jobs + [Job(s, b, x.ptsNs, x.submitIndex)])])
  {
    hide PendingOf, InOrder, Woven, GetContext, OnTime;
    var id := Id(CONTEXT_KIND, c);
    assert Counted(cs, ss, c) && Tracked(cs, ss, hs, c);
    var cs', ss' := cs[c := z], ss[s := x];
    var hs' := hs[c := hs[c].(jobs := hs[c].jobs + [Job(s, b, x.ptsNs, x.submitIndex)])];
    PairKeepsWoven(cs, ss, bs, c, s, b, x, y, z);
    PendingOfUpdate(ss, s, x, id);
    SubmitInOrder(ss, hs[c], id, s, b, x);
    forall d | 0 <= d < |cs| ensures Counted(cs', ss', d) && Tracked(cs', ss', hs', d) {
      assert Counted(cs, ss, d) && Tracked(cs, ss, hs, d);
      if d != c {
        PendingOfUpdate(ss, s, x, Id(CONTEXT_KIND, d));
        TrackedFrame(cs, ss, ss', hs, d);
      }
    }
  }

  // ---------- the quiet updates ----------

  lemma QuietSurfaceKeepsSound(cs: seq<Context>, ss: seq<Surface>, bs: seq<Buffer>, hs: seq<Session>, s: nat, x: Surface)
    requires Sound(cs, ss, bs, hs) && s < |ss| && !IsPending(ss[s]) && !IsPending(x)
    requires x.used && x.owner != 0 ==> GetContext(cs, x.owner) >= 0
    ensures Sound(cs, ss[s := x], bs, hs)
  {
    hide PendingOf, InOrder, Ordered, Woven, GetContext;
    QuietSurfaceKeepsWoven(cs, ss, bs, s, x);
    var ss' := ss[s := x];
    forall d | 0 <= d < |cs| ensures Counted(cs, ss', d) && Tracked(cs, ss', hs, d) {
      assert Counted(cs, ss, d) && Tracked(cs, ss, hs, d);
      TrackedFrame(cs, ss, ss', hs, d);
    }
  }

  lemma QuietBufferKeepsSound(cs: seq<Context>, ss: seq<Surface>, bs: seq<Buffer>, hs: seq<Session>, b: nat, y: Buffer)
    requires Sound(cs, ss, bs, hs) && b < |bs|
    requires (!Busy(bs[b]) && !Busy(y)) ||
             (bs[b].used && y.used && y.coded == bs[b].coded && y.pendingSurface == bs[b].pendingSurface)
    ensures Sound(cs, ss, bs[b := y], hs)
  {
    hide PendingOf, InOrder, Ordered, Woven, GetContext;
    if !Busy(bs[b]) && !Busy(y) {
      QuietBufferKeepsWoven(cs, ss, bs, b, y);
    } else {
      SameLinkKeepsWoven(cs, ss, bs, b, y);
    }
  }

  /** A context may change its picture, frame and end-of-stream fields, its session and counters staying as they are. */
  lemma ContextKeepsSound(cs: seq<Context>, ss: seq<Surface>, bs: seq<Buffer>, hs: seq<Session>, c: nat, z: Context)
    requires Sound(cs, ss, bs, hs) && c < |cs| && cs[c].used && z.used
    requires z.frameIndex == cs[c].frameIndex && z.pendingCount == cs[c].pendingCount
    requires z.brokerOpen == cs[c].brokerOpen && z.brokerFps == cs[c].brokerFps && z.eos == cs[c].eos
    requires z.pictureActive ==> z.pendingCount < MAX_INFLIGHT && TargetFree(cs[c := z], ss, c)
    ensures Sound(cs[c := z], ss, bs, hs)
  {
    hide PendingOf, InOrder, Ordered, GetContext;
    assert Counted(cs, ss, c) && Tracked(cs, ss, hs, c);
    if !z.brokerOpen {
      NoSessionNoPending(cs, ss, bs, c);
    }
    hide Woven;
    ContextKeepsWoven(cs, ss, bs, c, z);
    var cs' := cs[c := z];
    forall d | 0 <= d < |cs| ensures Counted(cs', ss, d) && Tracked(cs', ss, hs, d) {
      assert Counted(cs, ss, d) && Tracked(cs, ss, hs, d);
    }
  }

  lemma NoSessionNoPending(cs: seq<Context>, ss: seq<Surface>, bs: seq<Buffer>, c: nat)
    requires Woven(cs, ss, bs) && c < |cs| && !cs[c].brokerOpen
    ensures PendingOf(ss, Id(CONTEXT_KIND, c)) == 0
  {
    forall s | 0 <= s < |ss| ensures !PendingFor(ss[s], Id(CONTEXT_KIND, c)) {
      if IsPending(ss[s]) { assert Served(cs, ss, bs, s); }
    }
    PendingOfZero(ss, Id(CONTEXT_KIND, c));
  }

  /** A context without pending surfaces may open a new session or close its old one. */
  lemma SessionKeepsSound(cs: seq<Context>, ss: seq<Surface>, bs: seq<Buffer>, hs: seq<Session>, c: nat, z: Context, h: Session)
    requires Sound(cs, ss, bs, hs) && c < |cs| && cs[c].used && z.used
    requires PendingOf(ss, Id(CONTEXT_KIND, c)) == 0
    requires z.frameIndex == cs[c].frameIndex && z.pendingCount == 0
    requires z.brokerOpen ==> FpsOk(z.brokerFps) && h == NewSession(h.number) && z.eos == FRESH_EOS
    requires z.pictureActive == cs[c].pictureActive && z.target == cs[c].target
    ensures Sound(cs[c := z], ss, bs, hs[c := h])
  {
    hide PendingOf, GetContext;
    assert Counted(cs, ss, c);
    ActiveStaysFree(cs, ss, bs, c, z);
    hide Woven;
    ContextKeepsWoven(cs, ss, bs, c, z);
    var cs', hs' := cs[c := z], hs[c := h];
    forall d | 0 <= d < |cs| ensures Counted(cs', ss, d) && Tracked(cs', ss, hs', d) {
      assert Counted(cs, ss, d) && Tracked(cs, ss, hs, d);
      if d == c && z.brokerOpen {
        forall s | 0 <= s < |ss| ensures !PendingFor(ss[s], Id(CONTEXT_KIND, c)) {
          if PendingFor(ss[s], Id(CONTEXT_KIND, c)) { PendingOfPositive(ss, s, Id(CONTEXT_KIND, c)); }
        }
      }
    }
  }

  /** A session stops being intact when a picture fails. */
  lemma DirtyKeepsSound(cs: seq<Context>, ss: seq<Surface>, bs: seq<Buffer>, hs: seq<Session>, c: nat, h: Session)
    requires Sound(cs, ss, bs, hs) && c < |cs| && h.jobs == hs[c].jobs && h.trace == hs[c].trace && !h.intact
    ensures Sound(cs, ss, bs, hs[c := h])
  {
    hide PendingOf, GetContext, Woven, Ordered;
    var hs' := hs[c := h];
    forall d | 0 <= d < |cs| ensures Tracked(cs, ss, hs', d) {
      assert Tracked(cs, ss, hs, d);
    }
  }

  /** Outputs come and go, and pictures are offered, without any being placed or put on record. */
  lemma ReceivedKeepsSound(cs: seq<Context>, ss: seq<Surface>, bs: seq<Buffer>, hs: seq<Session>, c: nat, rs: seq<Received>, sent: seq<nat>)
    requires Sound(cs, ss, bs, hs) && c < |cs| && Kept(rs) == Kept(hs[c].received)
    ensures Sound(cs, ss, bs, hs[c := hs[c].(received := rs, sent := sent)])
  {
    hide PendingOf, GetContext, Woven, Ordered, Kept;
    var hs' := hs[c := hs[c].(received := rs, sent := sent)];
    forall d | 0 <= d < |cs| ensures Tracked(cs, ss, hs', d) {
      assert Tracked(cs, ss, hs, d);
      if d == c && cs[c].used && cs[c].brokerOpen {
        ReceivedInOrder(ss, hs[c], Id(CONTEXT_KIND, c), rs, sent);
      }
    }
  }

  lemma ReceivedInOrder(ss: seq<Surface>, h: Session, id: int, rs: seq<Received>, sent: seq<nat>)
    requires InOrder(ss, h, id) && Kept(rs) == Kept(h.received)
    ensures InOrder(ss, h.(received := rs, sent := sent), id)
  {
    hide Kept;
    if h.intact {
      var h' := h.(received := rs, sent := sent);
      forall s | 0 <= s < |ss| && PendingFor(ss[s], id) ensures AwaitedBy(h', s) {
        assert AwaitedBy(h, s);
        var k :| |h.deliveries| <= k < |h.jobs| && h.jobs[k].surface == s;
        assert h'.jobs[k].surface == s;
      }
    }
  }

  /** The end-of-stream state and its trace advance together. */
  lemma TraceKeepsSound(cs: seq<Context>, ss: seq<Surface>, bs: seq<Buffer>, hs: seq<Session>, c: nat, trace: seq<EosEvent>)
    requires Sound(cs, ss, bs, hs) && c < |cs| && cs[c].used
    ensures Sound(cs[c := cs[c].(eos := StateOf(trace))], ss, bs, hs[c := hs[c].(trace := trace)])
  {
    hide PendingOf, GetContext, Ordered, StateOf;
    var z := cs[c].(eos := StateOf(trace));
    assert Counted(cs, ss, c) && Tracked(cs, ss, hs, c);
    if !z.brokerOpen {
      NoSessionNoPending(cs, ss, bs, c);
    }
    ActiveStaysFree(cs, ss, bs, c, z);
    hide Woven;
    ContextKeepsWoven(cs, ss, bs, c, z);
    var cs', hs' := cs[c := z], hs[c := hs[c].(trace := trace)];
    forall d | 0 <= d < |cs| ensures Counted(cs', ss, d) && Tracked(cs', ss, hs', d) {
      assert Counted(cs, ss, d) && Tracked(cs, ss, hs, d);
    }
  }

  // ---------- failing everything a context has in flight ----------

  lemma {:induction false} PendingOfSame(ss: seq<Surface>, ss': seq<Surface>, id: int)
    requires |ss| == |ss'|
    requires forall s :: 0 <= s < |ss| ==> (PendingFor(ss[s], id) <==> PendingFor(ss'[s], id))
    ensures PendingOf(ss, id) == PendingOf(ss', id)
  {
    if ss != [] {
      var n := |ss| - 1;
      assert PendingFor(ss[n], id) <==> PendingFor(ss'[n], id);
      PendingOfSame(ss[..n], ss'[..n], id);
    }
  }

  /** Once none of context `c`'s surfaces is pending any more its counter may be cleared. */
  lemma FailKeepsSound(
    cs: seq<Context>, ss: seq<Surface>, bs: seq<Buffer>, hs: seq<Session>, ss': seq<Surface>, bs': seq<Buffer>, c: nat)
    requires Sound(cs, ss, bs, hs) && c < |cs| && cs[c].used && Woven(cs, ss', bs') && |ss'| == |ss|
    requires forall s :: 0 <= s < |ss| && ss[s] != ss'[s] ==> ss[s].owner == ss'[s].owner == Id(CONTEXT_KIND, c)
    requires forall s :: 0 <= s < |ss| ==> !PendingFor(ss'[s], Id(CONTEXT_KIND, c))
    ensures Sound(cs[c := cs[c].(pendingCount := 0)], ss', bs', hs[c := hs[c].(intact := false)])
  {
    hide PendingOf, GetContext, Ordered, StateOf;
    var z := cs[c].(pendingCount := 0);
    assert Counted(cs, ss, c) && Tracked(cs, ss, hs, c);
    PendingOfZero(ss', Id(CONTEXT_KIND, c));
    ActiveStaysFree(cs, ss', bs', c, z);
    hide Woven;
    ContextKeepsWoven(cs, ss', bs', c, z);
    var cs', hs' := cs[c := z], hs[c := hs[c].(intact := false)];
    forall d | 0 <= d < |cs| ensures Counted(cs', ss', d) && Tracked(cs', ss', hs', d) {
      assert Counted(cs, ss, d) && Tracked(cs, ss, hs, d);
      if d != c {
        PendingOfSame(ss, ss', Id(CONTEXT_KIND, d));
        TrackedFrame(cs, ss, ss', hs, d);
      }
    }
  }

  /** An unowned context slot may be filled or emptied. */
  lemma SlotKeepsSound(cs: seq<Context>, ss: seq<Surface>, bs: seq<Buffer>, hs: seq<Session>, c: nat, z: Context)
    requires Sound(cs, ss, bs, hs) && c < |cs| && !z.pictureActive && !z.brokerOpen && z.pendingCount == 0
    requires forall s :: 0 <= s < |ss| && ss[s].used ==> ss[s].owner != Id(CONTEXT_KIND, c)
    ensures Sound(cs[c := z], ss, bs, hs)
  {
    hide PendingOf, InOrder, Ordered, GetContext;
    PendingOfZero(ss, Id(CONTEXT_KIND, c));
    hide Woven;
    SlotKeepsWoven(cs, ss, bs, c, z);
    var cs' := cs[c := z];
    forall d | 0 <= d < |cs| ensures Counted(cs', ss, d) && Tracked(cs', ss, hs, d) {
      assert Counted(cs, ss, d) && Tracked(cs, ss, hs, d);
    }
  }
}
