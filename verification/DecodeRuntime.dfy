/**
  The decode runtime of src/vaapi_advc/advc_vaapi_decode_runtime.c with the private end-of-stream machine of
  src/vaapi_advc/advc_vaapi_decode_eos.c. Each method is one critical section; broker replies, conversions and
  environment gates are nondeterministic choices or parameters.
 */
module DecodeRuntime {
  import opened Bits
  import opened SlotIds
  import opened DecodeLog
  import opened DecodeState
  import opened DecodePrepare
  import AccessUnit
  import H264Config
  import HevcConfig
  import LeaseLedger

  const MAX_PROGRESS_OUTPUTS: nat := 8
  const QUEUE_ATTEMPTS: nat := 5000

  datatype Status =
    | Success | InvalidContext | InvalidSurface | InvalidParameter | OperationFailed | DecodingError | MaxNumExceeded
    | Unsupported | Again | MissingSurface

  datatype EosResult = Ok | WouldBlock | NeedOutputRelease | Done | NotSignaled | BadArgument | BadContext | Broken

  /** How the broker answers a request that may have to wait. */
  datatype Reply = Accept | Retry | WindowFull | Fatal

  /** The first answers to what ending a picture asks for: its configuration, a destination and its access unit. */
  datatype Replies = Replies(config: Reply, reserve: bool, unit: Reply)

  /** A dequeued output: `end` is its end-of-stream flag, `other` its other flags. */
  datatype Output = Output(bufferId: nat, pts: nat, end: bool, other: bool, empty: bool)

  datatype Dequeue = Got(output: Output) | NotYet | Full | Gone

  /**
    How converting an output turns out: it cannot be used, its buffer serves as it is, or its content is copied and the
    buffer returned by a fenced release, which the broker accepts or refuses.
   */
  datatype Conversion = Unfit | Attach | Repack(released: bool)

  /** What one turn of a drain meets: the dequeue's answer, how the output converts, and whether a release is accepted. */
  datatype Feed = Feed(reply: Dequeue, conv: Conversion, released: bool)

  /** The k-th turn of a loop; when the answers run out there is nothing yet. */
  function FeedAt(feeds: seq<Feed>, k: nat): Feed {
    if k < |feeds| then feeds[k] else Feed(NotYet, Unfit, false)
  }

  /** The terminal token is an output without bytes that carries the end-of-stream flag. */
  predicate IsControl(o: Output) {
    o.empty && o.end
  }

  // ---------- one output and its surface ----------

  predicate Matches(x: Surface, pts: nat, session: int) {
    IsPending(x) && x.pts == pts && x.session == session
  }

  /** `m` is a surface waiting for the output, or -1 if there is none. */
  ghost predicate IsMatch(ss: seq<Surface>, m: int, pts: nat, session: int) {
    if m < 0 then m == -1 && forall s :: 0 <= s < |ss| ==> !Matches(ss[s], pts, session)
    else m < |ss| && Matches(ss[m], pts, session)
  }

  /** A surface with a reserved destination takes only an output that was decoded into it. */
  predicate Converts(x: Surface, o: Output, conv: Conversion) {
    if x.reserved then conv.Attach? && o.bufferId != 0 else conv.Attach? || conv == Repack(true)
  }

  function Converted(x: Surface, o: Output, conv: Conversion): Surface {
    if Converts(x, o, conv)
    then x.(state := Ready, bufferId := if conv.Attach? then o.bufferId else x.bufferId, reserved := false)
    else x.(state := Error)
  }

  /** What converting does to the lease: nothing when the output cannot be used. */
  function ConvertEvents(x: Surface, o: Output, conv: Conversion): seq<LeaseEvent> {
    if o.bufferId == 0 then []
    else if conv.Attach? && Converts(x, o, conv) then [Attached(o.bufferId)]
    else if conv.Repack? && !x.reserved then [FencedRelease(o.bufferId, conv.released)]
    else []
  }

  /** Everything that happens to the lease of one output dequeued before the end of the stream. */
  function Episode(ss: seq<Surface>, m: int, o: Output, conv: Conversion): seq<LeaseEvent>
    requires m < |ss|
  {
    if o.bufferId == 0 then []
    else
      [Leased(o.bufferId)] + (if m >= 0 then ConvertEvents(ss[m], o, conv) else []) +
      (if m >= 0 && Converts(ss[m], o, conv) then [] else [ReleaseTry(o.bufferId)])
  }

  /**
    What becomes of the surface `m` that output `o` belongs to: it holds the output's buffer, or a copy of its content, or
    failed. One with a reserved destination takes only an output that was decoded into it.
   */
  ghost predicate Lands(ss: seq<Surface>, ss': seq<Surface>, m: int, o: Output, conv: Conversion)
    requires m < |ss|
  {
    if m < 0 then ss' == ss
    else if conv.Attach? && (ss[m].reserved ==> o.bufferId != 0) then
      ss' == ss[m := ss[m].(state := Ready, bufferId := o.bufferId, reserved := false)]
    else if conv == Repack(true) && !ss[m].reserved then ss' == ss[m := ss[m].(state := Ready)]
    else ss' == ss[m := ss[m].(state := Error)]
  }

  /** What attaching output `o` to surface `m` writes into the ledger. */
  function Takings(ss: seq<Surface>, c: nat, m: int, life: nat, o: Output, conv: Conversion): seq<LeaseLedger.Entry>
    requires m < |ss|
  {
    if m >= 0 && conv.Attach? && Converts(ss[m], o, conv) then [LeaseLedger.Took(m, c, life, o.bufferId, HoldOf(ss[m]))] else []
  }

  /** The output was leased by session `c` and went through its whole episode, matched to surface `m` or to none. */
  ghost predicate Drains(
    ss: seq<Surface>, hs: seq<History>, l: seq<LeaseLedger.Entry>, ss': seq<Surface>, hs': seq<History>, l': seq<LeaseLedger.Entry>,
    c: nat, m: int, session: int, life: nat, feed: Feed)
    requires feed.reply.Got?
  {
    var o := feed.reply.output;
    && c < |hs| && IsMatch(ss, m, o.pts, session) && hs' == hs[c := WithEvents(hs[c], Episode(ss, m, o, feed.conv))]
    && Lands(ss, ss', m, o, feed.conv)
    && l' == l + Takings(ss, c, m, life, o, feed.conv)
  }

  function Due(id: nat): Debt {
    if id == 0 then Clear else Owing(id)
  }

  lemma ConvertDebt(es: seq<LeaseEvent>, x: Surface, o: Output, conv: Conversion)
    requires DebtOf(es) == Due(o.bufferId)
    ensures DebtOf(es + ConvertEvents(x, o, conv)) ==
            if o.bufferId == 0 || Converts(x, o, conv) then Clear
            else if conv == Repack(false) && !x.reserved then Refused(o.bufferId) else Owing(o.bufferId)
  {
    var events := ConvertEvents(x, o, conv);
    if events == [] {
      assert es + events == es;
    } else {
      DebtSnoc(es, events[0]);
    }
  }

  /** What draining a session may do to a surface: complete or fail it, if it waits in that session. */
  predicate Drained(x: Surface, y: Surface, session: int) {
    y != x ==>
      && IsPending(x) && x.session == session && (y.state == Ready || y.state == Error)
      && y == x.(state := y.state, bufferId := y.bufferId, reserved := y.reserved)
      && (y.reserved ==> x.reserved) && (y.state == Error ==> y.reserved == x.reserved && y.bufferId == x.bufferId)
  }

  ghost predicate AllDrained(ss: seq<Surface>, ss': seq<Surface>, session: int) {
    |ss| == |ss'| && forall s :: 0 <= s < |ss| ==> Drained(ss[s], ss'[s], session)
  }

  lemma DrainedRefl(ss: seq<Surface>, session: int)
    ensures AllDrained(ss, ss, session)
  {
  }

  lemma DrainedTrans(ss: seq<Surface>, ss': seq<Surface>, ss'': seq<Surface>, session: int)
    requires AllDrained(ss, ss', session) && AllDrained(ss', ss'', session)
    ensures AllDrained(ss, ss'', session)
    ensures SomeReady(ss, ss') || SomeReady(ss', ss'') ==> SomeReady(ss, ss'')
  {
    forall s | 0 <= s < |ss| ensures Drained(ss[s], ss''[s], session) {
      assert Drained(ss[s], ss'[s], session) && Drained(ss'[s], ss''[s], session);
    }
    if SomeReady(ss, ss') {
      var s :| 0 <= s < |ss| && IsPending(ss[s]) && ss'[s].state == Ready;
      assert Drained(ss'[s], ss''[s], session);
    }
    if SomeReady(ss', ss'') {
      var s :| 0 <= s < |ss| && IsPending(ss'[s]) && ss''[s].state == Ready;
      assert Drained(ss[s], ss'[s], session);
    }
  }

  lemma DrainedAt(ss: seq<Surface>, ss': seq<Surface>, session: int, s: nat)
    requires AllDrained(ss, ss', session) && s < |ss|
    ensures ss'[s] != ss[s] ==> ss'[s].state != Pending
    ensures ss'[s].used == ss[s].used
  {
    assert Drained(ss[s], ss'[s], session);
  }

  /** Some surface got its picture. */
  ghost predicate SomeReady(ss: seq<Surface>, ss': seq<Surface>) {
    |ss| == |ss'| && exists s :: 0 <= s < |ss| && IsPending(ss[s]) && ss'[s].state == Ready
  }

  /** Exactly the pending surfaces with this session number failed. */
  ghost predicate Marked(ss: seq<Surface>, ss': seq<Surface>, session: int) {
    |ss| == |ss'| && forall s :: 0 <= s < |ss| ==>
      ss'[s] == if IsPending(ss[s]) && ss[s].session == session then ss[s].(state := Error) else ss[s]
  }

  lemma MarkedIsDrained(ss: seq<Surface>, ss': seq<Surface>, session: int)
    requires Marked(ss, ss', session)
    ensures AllDrained(ss, ss', session)
  {
  }

  /** Nothing context `c` owns is pending. */
  ghost predicate Completed(ss: seq<Surface>, c: nat) {
    forall s :: 0 <= s < |ss| && IsPending(ss[s]) ==> ss[s].owner != Id(CONTEXT_KIND, c)
  }

  // ---------- what one step adds to a session's history ----------

  function WithEvents(h: History, es: seq<LeaseEvent>): History {
    h.(events := h.events + es)
  }

  function Offer(h: History, e: Input, ok: bool): History {
    h.(tries := h.tries + [Try(e, ok)], log := if ok then h.log + [e] else h.log)
  }

  /** Session `c` leased outputs and settled every one. */
  ghost predicate LeasesOnly(hs: seq<History>, hs': seq<History>, c: nat) {
    && c < |hs| == |hs'| && hs' == hs[c := hs[c].(events := hs'[c].events)]
    && hs[c].events <= hs'[c].events && (DebtOf(hs[c].events) == Clear ==> DebtOf(hs'[c].events) == Clear)
  }

  lemma LeasesRefl(hs: seq<History>, c: nat)
    requires c < |hs|
    ensures LeasesOnly(hs, hs, c)
  {
  }

  lemma LeasesTrans(hs: seq<History>, hs': seq<History>, hs'': seq<History>, c: nat)
    requires LeasesOnly(hs, hs', c) && LeasesOnly(hs', hs'', c)
    ensures LeasesOnly(hs, hs'', c)
  {
    hide DebtOf;
  }

  lemma NoEvents(hs: seq<History>, c: nat)
    requires c < |hs|
    ensures hs[c := WithEvents(hs[c], [])] == hs
  {
    assert hs[c].events + [] == hs[c].events;
  }

  lemma EpisodeDebt(es: seq<LeaseEvent>, ss: seq<Surface>, m: int, o: Output, conv: Conversion)
    requires m < |ss| && DebtOf(es) == Clear
    ensures DebtOf(es + Episode(ss, m, o, conv)) == Clear
  {
    hide DebtOf, Converts, ConvertEvents;
    var id := o.bufferId;
    if id == 0 {
      assert es + [] == es;
      return;
    }
    DebtSnoc(es, Leased(id));
    var es1 := es + [Leased(id)];
    var moves := if m >= 0 then ConvertEvents(ss[m], o, conv) else [];
    if m >= 0 { ConvertDebt(es1, ss[m], o, conv); } else { assert es1 + moves == es1; }
    if m >= 0 && Converts(ss[m], o, conv) {
      assert es + Episode(ss, m, o, conv) == es1 + moves;
    } else {
      DebtSnoc(es1 + moves, ReleaseTry(id));
      assert es + Episode(ss, m, o, conv) == es1 + moves + [ReleaseTry(id)];
    }
  }

  lemma EpisodeSettles(hs: seq<History>, c: nat, ss: seq<Surface>, m: int, o: Output, conv: Conversion)
    requires c < |hs| && m < |ss|
    ensures LeasesOnly(hs, hs[c := WithEvents(hs[c], Episode(ss, m, o, conv))], c)
  {
    hide DebtOf, Episode;
    if DebtOf(hs[c].events) == Clear {
      EpisodeDebt(hs[c].events, ss, m, o, conv);
    }
  }

  /** Session `c` was offered one input, taken if `ok`; leases it took meanwhile were settled. */
  ghost predicate Offered(hs: seq<History>, hs': seq<History>, c: nat, e: Input, ok: bool) {
    && c < |hs| == |hs'| && hs' == hs[c := Offer(hs[c], e, ok).(events := hs'[c].events)]
    && hs[c].events <= hs'[c].events && (DebtOf(hs[c].events) == Clear ==> DebtOf(hs'[c].events) == Clear)
  }

  lemma OfferedAfter(hs: seq<History>, hs': seq<History>, hs'': seq<History>, c: nat, e: Input, ok: bool)
    requires LeasesOnly(hs, hs', c) && hs'' == hs'[c := Offer(hs'[c], e, ok)]
    ensures Offered(hs, hs'', c, e, ok)
  {
    hide DebtOf;
  }

  /** Only context `c` moved on, and only its end-of-stream state; its session drained. */
  ghost predicate Progressed(cs: seq<Context>, hs: seq<History>, cs': seq<Context>, hs': seq<History>, c: nat) {
    && c < |cs| == |cs'| == |hs| == |hs'| && cs' == cs[c := cs[c].(eos := cs'[c].eos)] && EosAdvances(cs[c].eos, cs'[c].eos)
    && (cs'[c].eos.phase == Open <==> cs[c].eos.phase == Open)
    && hs' == hs[c := hs[c].(events := hs'[c].events, marks := hs'[c].marks)]
    && hs[c].events <= hs'[c].events && hs[c].marks <= hs'[c].marks
    && DebtOf(hs'[c].events) == Clear
  }

  lemma ProgressedRefl(cs: seq<Context>, hs: seq<History>, c: nat)
    requires c < |cs| == |hs| && DebtOf(hs[c].events) == Clear
    ensures Progressed(cs, hs, cs, hs, c)
  {
  }

  lemma ProgressedTrans(
    cs: seq<Context>, hs: seq<History>, cs': seq<Context>, hs': seq<History>, cs'': seq<Context>, hs'': seq<History>, c: nat)
    requires Progressed(cs, hs, cs', hs', c) && Progressed(cs', hs', cs'', hs'', c)
    ensures Progressed(cs, hs, cs'', hs'', c)
  {
    hide DebtOf;
  }

  /** What a turn adds to the turns before it. */
  lemma TurnAfter(
    cs: seq<Context>, ss: seq<Surface>, hs: seq<History>, cs': seq<Context>, ss': seq<Surface>, hs': seq<History>,
    cs'': seq<Context>, ss'': seq<Surface>, hs'': seq<History>, c: nat, session: int)
    requires Progressed(cs, hs, cs', hs', c) && Progressed(cs', hs', cs'', hs'', c)
    requires AllDrained(ss, ss', session) && AllDrained(ss', ss'', session)
    ensures Progressed(cs, hs, cs'', hs'', c) && AllDrained(ss, ss'', session)
    ensures SomeReady(ss, ss') || SomeReady(ss', ss'') ==> SomeReady(ss, ss'')
    ensures cs''[c].used == cs[c].used && cs''[c].pictureActive == cs[c].pictureActive && DebtOf(hs''[c].events) == Clear
    ensures cs''[c].session == cs[c].session
  {
    hide DebtOf, EosAdvances, Drained, SomeReady;
    DrainedTrans(ss, ss', ss'', session);
    ProgressedTrans(cs, hs, cs', hs', cs'', hs'', c);
  }

  lemma ProgressedEvolves(cs: seq<Context>, hs: seq<History>, lives: seq<nat>, cs': seq<Context>, hs': seq<History>, c: nat)
    requires Progressed(cs, hs, cs', hs', c) && |lives| == |cs| && cs[c].used
    ensures Evolves(cs, hs, lives, cs', hs', lives)
  {
    hide DebtOf, EosAdvances;
    OneEvolves(cs, hs, lives, cs', hs', c);
  }

  /** Only context `c` and its session changed; the session's history grew and the context's configuration may have. */
  ghost predicate OthersKept(cs: seq<Context>, hs: seq<History>, cs': seq<Context>, hs': seq<History>, c: nat) {
    && c < |cs| == |cs'| == |hs| == |hs'| && cs' == cs[c := cs'[c]] && hs' == hs[c := hs'[c]]
    && cs'[c] == cs[c].(configured := cs'[c].configured, lastConfig := cs'[c].lastConfig)
    && (cs[c].configured ==> cs'[c].configured) && HistoryGrows(hs[c], hs'[c])
  }

  lemma KeptRefl(cs: seq<Context>, hs: seq<History>, c: nat)
    requires c < |cs| == |hs|
    ensures OthersKept(cs, hs, cs, hs, c)
  {
  }

  lemma KeptTrans(
    cs: seq<Context>, hs: seq<History>, cs': seq<Context>, hs': seq<History>, cs'': seq<Context>, hs'': seq<History>, c: nat)
    requires OthersKept(cs, hs, cs', hs', c) && OthersKept(cs', hs', cs'', hs'', c)
    ensures OthersKept(cs, hs, cs'', hs'', c)
  {
  }

  /** An offer, with what the context remembers of it, keeps the others. */
  lemma OfferKept(cs: seq<Context>, hs: seq<History>, cs': seq<Context>, hs': seq<History>, c: nat, e: Input, ok: bool)
    requires Offered(hs, hs', c, e, ok) && |cs| == |hs| == |cs'| && cs' == cs[c := cs'[c]]
    requires cs'[c] == cs[c].(configured := cs'[c].configured, lastConfig := cs'[c].lastConfig)
    requires cs[c].configured ==> cs'[c].configured
    ensures OthersKept(cs, hs, cs', hs', c)
  {
    hide DebtOf;
  }

  /** No turn is half done, and the end of the stream has been offered exactly if it was requested, and last. */
  ghost predicate RestOk(z: Context, h: History) {
    TurnsDone(h.tries) && (z.used ==> EndsLast(h.tries) && (z.eos.phase == Open <==> NoEnd(h.tries)))
  }

  ghost predicate AllRest(cs: seq<Context>, hs: seq<History>) {
    |cs| == |hs| && forall c :: 0 <= c < |cs| ==> RestOk(cs[c], hs[c])
  }

  /** A refused configuration ends the turn. */
  lemma RefusedTurn(z: Context, h: History, h': History, e: Input)
    requires RestOk(z, h) && z.used && z.eos.phase == Open && h'.tries == h.tries + [Try(e, false)] && !e.EndOfStream?
    ensures RestOk(z, h')
  {
    hide TurnsDone, NoEnd, EndsLast;
    TurnsGrow(h.tries, Try(e, false));
    OfferOther(h.tries, Try(e, false));
  }

  /** When a picture's turn ends with its access unit, no turn is half done. */
  lemma TurnEnds(z: Context, h: History, h': History, h'': History, e: Input, ok: bool)
    requires RestOk(z, h) && z.used && z.eos.phase == Open && h''.tries == h'.tries + [Try(e, ok)] && e.Access?
    requires h'.tries == h.tries || exists bytes :: h'.tries == h.tries + [Try(Config(bytes, e.key), true)]
    ensures RestOk(z, h'')
  {
    hide TurnsDone, NoEnd, EndsLast;
    if h'.tries == h.tries {
      TurnsGrow(h.tries, Try(e, ok));
      OfferOther(h.tries, Try(e, ok));
    } else {
      var bytes :| h'.tries == h.tries + [Try(Config(bytes, e.key), true)];
      TurnsPair(h.tries, Try(Config(bytes, e.key), true), Try(e, ok));
      OfferOther(h.tries, Try(Config(bytes, e.key), true));
      OfferOther(h'.tries, Try(e, ok));
    }
  }

  lemma ProgressedUsed(cs: seq<Context>, hs: seq<History>, cs': seq<Context>, hs': seq<History>, c: nat)
    requires Progressed(cs, hs, cs', hs', c)
    ensures |cs'| == |cs| && cs'[c].used == cs[c].used && cs'[c].session == cs[c].session
  {
    hide DebtOf, EosAdvances;
  }

  /** A session at rest obeys its codec's rules. */
  lemma RulesHold(codec: Codec, h: History)
    requires Fits(codec, h.log) && h.log == Taken(h.tries) && TurnsDone(h.tries)
    ensures LogRules(codec, h.log) && (codec == Hevc ==> StartsLate(h.tries))
  {
    hide Fits, LogRules, TurnsDone, Taken, NoUnitTaken;
    FitsMeansRules(codec, h.log);
    if codec == Hevc {
      forall n | 0 <= n < |h.tries| && h.tries[n].taken && h.tries[n].input.Access? && NoUnitTaken(h.tries[..n]) && !h.tries[n].input.key
        ensures exists i: nat :: i + 1 < n && OwnUnitRefused(h.tries, i) && h.tries[i + 1].input.key
      {
        FirstUnitNotIrap(h.tries, n);
      }
    }
  }

  /** The timestamp is later than every access unit accepted so far. */
  ghost predicate Fresh(log: seq<Input>, pts: nat) {
    forall i :: 0 <= i < |log| && log[i].Access? ==> log[i].pts < pts
  }

  function AfterUnit(z: Context, inband: Option<seq<Byte>>): Context {
    if inband.Some? then z.(configured := true, lastConfig := inband.value)
    else if z.codec == Vp9 then z.(configured := true) else z
  }

  /** The surface waits for the access unit of context `c` at this timestamp. */
  function Waiting(x: Surface, c: nat, session: int, pts: nat): Surface {
    x.(state := Pending, pts := pts, owner := Id(CONTEXT_KIND, c), session := session)
  }

  /** Surface `s` waits for the access unit the session of context `c` accepted last, at timestamp `pts`. */
  ghost predicate Landed(ss: seq<Surface>, log: seq<Input>, c: nat, s: nat, pts: nat) {
    && s < |ss| && IsPending(ss[s]) && ss[s].pts == pts && ss[s].owner == Id(CONTEXT_KIND, c)
    && log != [] && log[|log| - 1].Access? && log[|log| - 1].pts == pts
  }

  /** The access unit accepted last is this one, behind a configuration that came in-band, and `config` is in force. */
  ghost predicate Carries(log: seq<Input>, config: Option<seq<Byte>>, data: seq<Byte>, key: bool) {
    && log != [] && log[|log| - 1].Access? && log[|log| - 1].key == key
    && var inband := log[|log| - 1].inband;
    && log[|log| - 1].data == (if inband.Some? then inband.value + data else data)
    && (config.Some? ==> LastConfig(log) == config) && (inband.Some? ==> inband == config)
  }

  lemma CarriesNow(log: seq<Input>, e: Input, config: Option<seq<Byte>>, data: seq<Byte>)
    requires e.Access? && e.data == (if e.inband.Some? then e.inband.value + data else data) && (e.inband.Some? ==> e.inband == config)
    requires config.Some? ==> LastConfig(log + [e]) == config
    ensures Carries(log + [e], config, data, e.key)
  {
    hide LastConfig;
  }

  /** The access unit accepted last is the picture's own, under its own configuration. */
  ghost predicate CarriesPicture(log: seq<Input>, picture: Picture)
    requires picture.HevcPicture? ==> picture.hevc.Shaped()
  {
    match picture
    case H264Picture(slices, p) => exists u :: IsH264Of(u, slices, p) && Carries(log, Some(u.config), u.data, u.key)
    case HevcPicture(slices, p) =>
      HevcReady(slices, p) && var u := HevcPrepared(slices, p); Carries(log, Some(u.config), u.data, u.key)
    case Vp9Picture(frame, key) => frame.Some? && Carries(log, None, frame.value, key)
  }

  /** How ending a picture turns out: whether it is accepted, the context afterwards, and what its session takes. */
  datatype Ending = Ending(ok: bool, context: Context, inputs: seq<Input>)

  function HevcEnding(z: Context, u: Prepared, pts: nat, replies: Replies): Ending {
    var same := z.configured && z.lastConfig == u.config;
    var sent := same || (u.key && replies.config == Accept);
    var ok := sent && replies.unit == Accept;
    Ending(ok, if sent then z.(configured := true, lastConfig := u.config) else z,
           (if !same && sent then [Config(u.config, u.key)] else []) + (if ok then [Access(pts, u.key, u.data, None)] else []))
  }

  function Vp9Ending(z: Context, frame: seq<Byte>, key: bool, pts: nat, replies: Replies): Ending {
    if (z.configured || key) && replies.unit == Accept
    then Ending(true, z.(configured := true), [Access(pts, key, frame, None)]) else Ending(false, z, [])
  }

  /** For HEVC and VP9 pictures that can be prepared. */
  ghost function PictureEnding(picture: Picture, z: Context, pts: nat, replies: Replies): Option<Ending>
    requires picture.HevcPicture? ==> picture.hevc.Shaped()
  {
    match picture
    case H264Picture(_, _) => None
    case HevcPicture(slices, p) =>
      if z.codec == Hevc && HevcReady(slices, p) then Some(HevcEnding(z, HevcPrepared(slices, p), pts, replies)) else None
    case Vp9Picture(frame, key) =>
      if z.codec == Vp9 && frame.Some? then Some(Vp9Ending(z, frame.value, key, pts, replies)) else None
  }

  /** The broker's answers are known, no destination is reserved and there is a timestamp. */
  predicate Plain(x: Surface, async: bool, replies: Replies, next: nat) {
    !async && !x.reserved && replies.config != Retry && replies.unit != Retry && next <= MAX_I64 - PTS_STEP
  }

  /** The picture on surface `s` ended this way: it waits for its output if it was accepted, and nothing else happened. */
  ghost predicate Ends(
    e: Ending, ss: seq<Surface>, hs: seq<History>, cs': seq<Context>, ss': seq<Surface>, hs': seq<History>, c: nat, s: nat, pts: nat)
  {
    && c < |cs'| == |hs| == |hs'| && s < |ss| && cs'[c] == e.context
    && hs'[c].log == hs[c].log + e.inputs && hs'[c].events == hs[c].events
    && ss' == if e.ok then ss[s := ss[s].(state := Pending, pts := pts, owner := Id(CONTEXT_KIND, c), session := e.context.session)] else ss
  }

  lemma GrowUnits(log: seq<Input>, e: Input)
    ensures forall pts :: Accepted(log, pts) ==> Accepted(log + [e], pts)
    ensures HasUnit(log + [e]) <==> HasUnit(log) || e.Access?
    ensures Ended(log + [e]) <==> Ended(log) || e.EndOfStream?
  {
    var log' := log + [e];
    forall pts | Accepted(log, pts) ensures Accepted(log', pts) {
      AcceptedGrows(log, e, pts);
    }
    assert log'[|log|] == e;
    assert forall i :: 0 <= i < |log| ==> log'[i] == log[i];
  }

  lemma AfterConfig(log: seq<Input>, bytes: seq<Byte>, key: bool, pts: nat)
    requires Fresh(log, pts) && !Ended(log)
    ensures var log' := log + [Config(bytes, key)];
            Fresh(log', pts) && !Ended(log') && LastConfig(log') == Some(bytes) && (HasUnit(log') <==> HasUnit(log))
  {
    GrowUnits(log, Config(bytes, key));
  }

  lemma H264Change(log: seq<Input>, bytes: seq<Byte>, key: bool)
    requires Built(bytes) && (LastConfig(log).Some? && !key ==> SameSequence(LastConfig(log).value, bytes)) && LastConfig(log) != Some(bytes)
    ensures ChangeAllowed(H264, log, bytes, key)
  {
    hide Built, SameSequence;
  }

  lemma HevcChange(log: seq<Input>, bytes: seq<Byte>)
    requires LastConfig(log) != Some(bytes)
    ensures ChangeAllowed(Hevc, log, bytes, true)
  {
  }

  lemma UnitFollows(codec: Codec, log: seq<Input>, pts: nat, key: bool, data: seq<Byte>, inband: Option<seq<Byte>>)
    requires !Ended(log) && Fresh(log, pts)
    requires codec != Vp9 ==> LastConfig(log).Some?
    requires codec == Vp9 && !HasUnit(log) ==> key
    requires inband.Some? ==> codec == H264 && ChangeAllowed(codec, log, inband.value, key) && inband.value <= data
    ensures Follows(codec, log, Access(pts, key, data, inband))
  {
    hide ChangeAllowed;
  }

  lemma LandedNow(ss: seq<Surface>, log: seq<Input>, c: nat, s: nat, pts: nat)
    requires s < |ss| && IsPending(ss[s]) && ss[s].pts == pts && ss[s].owner == Id(CONTEXT_KIND, c)
    requires log != [] && log[|log| - 1].Access? && log[|log| - 1].pts == pts
    ensures Landed(ss, log, c, s, pts)
  {
  }

  lemma NewContextOk(next: nat, z: Context)
    requires z.used ==> z.eos == OPEN_EOS && !z.pictureActive && !z.configured
    ensures ContextOk(next, z, NEW_HISTORY) && (z.used ==> ConfigsOk(z, NEW_HISTORY))
  {
    hide Built, Follows;
  }

  /** A refused offer concerns only the list of offers. */
  lemma RefusalKeeps(next: nat, z: Context, h: History, e: Input)
    requires z.used && ContextOk(next, z, h) && ConfigsOk(z, h)
    ensures ContextOk(next, z, Offer(h, e, false)) && ConfigsOk(z, Offer(h, e, false))
  {
    hide Fits, EosOk, LastConfig, HasUnit, Built, Ended;
    TakenSnoc(h.tries, Try(e, false));
  }

  /** The invariant of one context does not look at its leases. */
  lemma LeasesAside(next: nat, z: Context, h: History, es: seq<LeaseEvent>)
    requires z.used && ContextOk(next, z, h) && ConfigsOk(z, h)
    ensures ContextOk(next, z, h.(events := es)) && ConfigsOk(z, h.(events := es))
  {
    hide Fits, EosOk, LastConfig, HasUnit, Built, Ended, Taken;
  }

  lemma ConfigAccepted(next: nat, z: Context, h: History, bytes: seq<Byte>, key: bool)
    requires z.used && z.codec != Vp9 && z.eos.phase == Open && ContextOk(next, z, h) && ConfigsOk(z, h)
    requires ChangeAllowed(z.codec, h.log, bytes, key)
    ensures var h' := Offer(h, Config(bytes, key), true);
            var z' := z.(configured := true, lastConfig := bytes);
            ContextOk(next, z', h') && ConfigsOk(z', h')
  {
    hide SameSequence, Built, Fits, HasUnit, Accepted, Ended, LastConfig, Taken;
    var e := Config(bytes, key);
    assert z.codec == H264 ==> Built(bytes);
    assert Follows(z.codec, h.log, e);
    hide Follows, ChangeAllowed;
    GrowUnits(h.log, e);
    Snoc(z.codec, h.log, e);
    TakenSnoc(h.tries, Try(e, true));
  }

  lemma UnitAccepted(next: nat, z: Context, h: History, e: Input)
    requires z.used && z.eos.phase == Open && ContextOk(next, z, h) && ConfigsOk(z, h)
    requires e.Access? && e.pts < next && Follows(z.codec, h.log, e)
    ensures var h' := Offer(h, e, true);
            ContextOk(next, AfterUnit(z, e.inband), h') && ConfigsOk(AfterUnit(z, e.inband), h') && Accepted(h'.log, e.pts)
  {
    hide SameSequence, Built, Taken, Fits, LastConfig, HasUnit, Ended, EosOk;
    GrowUnits(h.log, e);
    Snoc(z.codec, h.log, e);
    TakenSnoc(h.tries, Try(e, true));
    assert (h.log + [e])[|h.log|] == e;
  }

  lemma EndAccepted(next: nat, z: Context, h: History, e: Eos)
    requires z.used && !z.pictureActive && ContextOk(next, z, h) && ConfigsOk(z, h)
    requires z.eos.phase == Open || z.eos.phase == SignalPending
    requires e == z.eos.(signalRequested := true, signalQueued := true, phase := Draining)
    ensures var h' := Offer(h, EndOfStream, true); ContextOk(next, z.(eos := e), h') && ConfigsOk(z.(eos := e), h')
  {
    hide Built, Taken, Fits, LastConfig, HasUnit, Ended, ChangeAllowed, SameSequence, Accepted;
    Snoc(z.codec, h.log, EndOfStream);
    GrowUnits(h.log, EndOfStream);
    TakenSnoc(h.tries, Try(EndOfStream, true));
  }

  /** The end-of-stream state moves on with the count of failings. */
  lemma EosStep(next: nat, z: Context, h: History, e: Eos, h': History)
    requires z.used && !z.pictureActive && ContextOk(next, z, h) && ConfigsOk(z, h)
    requires h' == h.(events := h'.events, marks := h'.marks) && EosOk(e, Ended(h.log), h'.marks)
    ensures ContextOk(next, z.(eos := e), h') && ConfigsOk(z.(eos := e), h')
  {
    hide Fits, EosOk, LastConfig, HasUnit, Built, Ended, Taken;
  }

  /** The end-of-stream state after output `o`; `handled`: a surface took it, `released`: its release was accepted. */
  function NextEos(e: Eos, o: Output, handled: bool, released: bool): Eos {
    if o.bufferId == 0 then FailedEos(e)
    else if IsControl(o) then
      if o.other || !released then FailedEos(e)
      else if e.phase != Draining then ControlEos(e).(phase := Failed)
      else CompleteEos(ControlEos(e))
    else if !handled then FailedEos(e)
    else if o.end then CompleteEos(FrameEos(e))
    else FrameEos(e)
  }

  /** The terminal token comes, and its release is accepted. */
  predicate EndsStream(feed: Feed) {
    && feed.reply.Got? && IsControl(feed.reply.output) && feed.reply.output.bufferId != 0 && !feed.reply.output.other
    && feed.released
  }

  /** A frame was taken by a surface only if the code asked for that. */
  predicate Possible(e: Eos, o: Output, handled: bool) {
    handled ==> o.bufferId != 0 && !IsControl(o) && (o.end ==> e.phase == Draining)
  }

  /** One output is counted, as a frame if a surface took it, and the phase moves only to its end. */
  lemma NextEosPhase(e: Eos, o: Output, handled: bool, released: bool)
    requires (e.phase == SignalPending || e.phase == Draining) && Possible(e, o, handled)
    ensures var e' := NextEos(e, o, handled, released);
            && e'.outputs == e.outputs + 1 && e'.frames == e.frames + (if handled then 1 else 0)
            && (e'.phase == Complete <==> o.bufferId != 0 && o.end && e.phase == Draining &&
                                           if IsControl(o) then !o.other && released else handled)
            && (e'.phase == e.phase ==> handled) && (e'.phase != e.phase ==> e'.phase == Complete || e'.phase == Failed)
  {
  }

  /** Whatever is dequeued, the state stays consistent, moves forward, and completes with what remained failed once. */
  lemma NextEosIsConsistent(e: Eos, o: Output, handled: bool, released: bool, ended: bool, marks: nat)
    requires EosOk(e, ended, marks) && (e.phase == SignalPending || e.phase == Draining) && Possible(e, o, handled)
    ensures var e' := NextEos(e, o, handled, released);
            EosOk(e', ended, marks + if e'.phase == Complete then 1 else 0) && EosAdvances(e, e')
  {
  }

  // ---------- lists of surfaces ----------

  /** The free slots below `n`, in order. */
  function FreeBelow(ss: seq<Surface>, n: nat): seq<nat>
    requires n <= |ss|
  {
    if n == 0 then [] else FreeBelow(ss, n - 1) + (if ss[n - 1].used then [] else [n - 1])
  }

  lemma {:induction false} FreeGrows(ss: seq<Surface>, n: nat, m: nat)
    requires n <= m <= |ss|
    ensures FreeBelow(ss, n) <= FreeBelow(ss, m)
    decreases m - n
  {
    if n < m {
      FreeGrows(ss, n, m - 1);
    }
  }

  lemma {:induction false} FreeAreFree(ss: seq<Surface>, n: nat)
    requires n <= |ss|
    ensures forall s :: s in FreeBelow(ss, n) <==> 0 <= s < n && !ss[s].used
  {
    if n > 0 {
      FreeAreFree(ss, n - 1);
    }
  }

  function IdsOf(slots: seq<nat>): seq<int> {
    seq(|slots|, i requires 0 <= i < |slots| => Id(SURFACE_KIND, slots[i]))
  }

  ghost predicate AllKnown(ss: seq<Surface>, ids: seq<int>) {
    forall k :: 0 <= k < |ids| ==> GetSurface(ss, ids[k]) >= 0
  }

  ghost predicate Unrepeated(ids: seq<int>) {
    forall j, k :: 0 <= j < k < |ids| ==> ids[j] != ids[k]
  }

  // ---------- calls ----------

  datatype Call =
    | CreateContext(codec: Codec, width: nat, height: nat, session: int, accepted: bool)
    | DestroyContext(id: int)
    | CreateSurfaces(width: nat, height: nat, count: nat, accepted: bool)
    | DestroySurfaces(ids: seq<int>)
    | BeginPicture(id: int, target: int)
    | ResumePicture(id: int, target: int)
    | EndPicture(id: int, picture: Picture, inbandUpdates: bool, async: bool, replies: Replies)
    | SignalEos(id: int, reply: Reply)
    | ProgressEos(id: int, max: nat, feeds: seq<Feed>)
    | SyncStep(id: int, feed: Feed)
    | QueryStatus(id: int, feeds: seq<Feed>)

  /** No call destroys context `c`. */
  ghost predicate Undestroyed(calls: seq<Call>, c: nat) {
    forall k :: 0 <= k < |calls| ==> calls[k] != Call.DestroyContext(Id(CONTEXT_KIND, c))
  }

  lemma UndestroyedAt(calls: seq<Call>, c: nat, k: nat)
    requires Undestroyed(calls, c) && k < |calls|
    ensures calls[k] != Call.DestroyContext(Id(CONTEXT_KIND, c))
  {
  }

  /** HEVC parameter structures have their fixed array sizes. */
  predicate Sane(call: Call) {
    call.EndPicture? && call.picture.HevcPicture? ==> call.picture.hevc.Shaped()
  }

  function NewContext(codec: Codec, width: nat, height: nat, session: int): Context {
    NO_CONTEXT.(used := true, codec := codec, width := width, height := height, session := session)
  }

  function NewSurface(width: nat, height: nat): Surface {
    NO_SURFACE.(used := true, width := width, height := height)
  }

  predicate MayBegin(z: Context, x: Surface) {
    !z.pictureActive && z.eos.phase == Open && x.width == z.width && x.height == z.height
  }

  /** Both ids are known, the context may begin a picture and the surface is of its size. */
  predicate CanBegin(cs: seq<Context>, ss: seq<Surface>, contextId: int, target: int) {
    var c, s := GetContext(cs, contextId), GetSurface(ss, target);
    && c >= 0 && s >= 0 && !cs[c].pictureActive && cs[c].eos.phase == Open
    && ss[s].width == cs[c].width && ss[s].height == cs[c].height
  }

  /** What emptying surface `s` writes into the ledger. */
  function GivenBack(cs: seq<Context>, ss: seq<Surface>, s: int): seq<LeaseLedger.Entry>
    requires s < |ss|
  {
    if s < 0 || HoldOf(ss[s]).None? || GetContext(cs, ss[s].owner) < 0 then []
    else [LeaseLedger.Returned(s, GetContext(cs, ss[s].owner), HoldOf(ss[s]).value)]
  }

  /** The context draws on the surface, which has been emptied. */
  ghost predicate Begun(cs: seq<Context>, ss: seq<Surface>, cs': seq<Context>, ss': seq<Surface>, contextId: int, target: int) {
    var c, s := GetContext(cs, contextId), GetSurface(ss, target);
    && CanBegin(cs, ss, contextId, target)
    && cs' == cs[c := cs[c].(pictureActive := true, target := target)]
    && ss' == ss[s := Surface(true, ss[s].width, ss[s].height, Idle, 0, 0, 0, 0, false)]
  }

  /** Beginning or ending a picture moves no history. */
  lemma PictureEvolves(cs: seq<Context>, hs: seq<History>, lives: seq<nat>, c: nat, active: bool, target: int)
    requires c < |cs| == |hs| == |lives| && cs[c].used
    ensures Evolves(cs, hs, lives, cs[c := cs[c].(pictureActive := active, target := target)], hs, lives)
  {
    var cs' := cs[c := cs[c].(pictureActive := active, target := target)];
    assert hs == hs[c := hs[c]];
    OneEvolves(cs, hs, lives, cs', hs, c);
  }

  lemma KeptEvolves(cs: seq<Context>, hs: seq<History>, lives: seq<nat>, cs': seq<Context>, hs': seq<History>, c: nat)
    requires OthersKept(cs, hs, cs', hs', c) && |lives| == |cs| && cs[c].used && cs[c].eos.phase == Open
    ensures Evolves(cs, hs, lives, cs', hs', lives)
  {
    SelfMoves(cs[c], hs[c]);
    hide HistoryGrows;
    OneEvolves(cs, hs, lives, cs', hs', c);
  }

  /** A free slot is filled, or a slot is emptied and its life is over. */
  lemma SlotEvolves(cs: seq<Context>, hs: seq<History>, lives: seq<nat>, c: nat, z: Context, h: History)
    requires c < |cs| == |hs| == |lives|
    ensures !cs[c].used ==> Evolves(cs, hs, lives, cs[c := z], hs[c := h], lives)
    ensures Evolves(cs, hs, lives, cs[c := z], hs[c := h], lives[c := lives[c] + 1])
  {
    EvolvesRefl(cs, hs, lives);
  }

  class Runtime {
    var nextPts: nat
    var contexts: seq<Context>
    var surfaces: seq<Surface>
    ghost var histories: seq<History>
    ghost var claimed: map<nat, nat>
    ghost var lives: seq<nat>
    ghost var ledger: seq<LeaseLedger.Entry>

    ghost predicate Core(hole: int)
      reads this
      ensures Core(hole) ==> |contexts| == CONTEXT_SLOTS && |surfaces| == SURFACE_SLOTS && |histories| == CONTEXT_SLOTS
      ensures Core(hole) ==> |lives| == CONTEXT_SLOTS
    {
      Behind(hole, -1)
    }

    /** The session of context `c` has moved on and the context has yet to take note. */
    ghost predicate Behind(hole: int, c: int)
      reads this
      ensures Behind(hole, c) ==> |contexts| == CONTEXT_SLOTS && |surfaces| == SURFACE_SLOTS && |histories| == CONTEXT_SLOTS
      ensures Behind(hole, c) ==> |lives| == CONTEXT_SLOTS
    {
      && Sound(nextPts, contexts, surfaces, histories, claimed, hole, c) && |lives| == CONTEXT_SLOTS
      && Balanced(ledger, contexts, surfaces, histories, lives)
    }

    /** Between calls every lease has been settled. */
    ghost predicate Settled()
      reads this
    {
      forall c :: 0 <= c < |histories| ==> DebtOf(histories[c].events) == Clear
    }

    /** Between calls no turn is half done, and requested ends have been offered. */
    ghost predicate Rested()
      reads this
    {
      AllRest(contexts, histories)
    }

    ghost predicate Valid()
      reads this
    {
      Core(-1) && Settled() && Rested()
    }

    // ---------- reading the invariant ----------

    lemma CoreSurface(s: nat, hole: int)
      requires Core(hole) && s < |surfaces|
      ensures SurfaceOk(nextPts, contexts, histories, claimed, hole, s, surfaces[s])
    {
    }

    lemma CoreContext(c: nat, hole: int)
      requires Core(hole) && c < |contexts| && contexts[c].used
      ensures ContextOk(nextPts, contexts[c], histories[c]) && ConfigsOk(contexts[c], histories[c])
    {
    }

    lemma CoreEos(c: nat, hole: int)
      requires Core(hole) && c < |contexts| && contexts[c].used
      ensures EosOk(contexts[c].eos, Ended(histories[c].log), histories[c].marks)
      ensures contexts[c].pictureActive ==> contexts[c].eos == OPEN_EOS
    {
      hide Fits, Taken, ConfigsOk, SurfaceOk;
      assert ContextOk(nextPts, contexts[c], histories[c]);
    }

    lemma CoreIsSound(hole: int)
      requires Core(hole)
      ensures Sound(nextPts, contexts, surfaces, histories, claimed, hole, -1)
      ensures Balanced(ledger, contexts, surfaces, histories, lives)
    {
    }

    lemma SoundIsCore(hole: int)
      requires Sound(nextPts, contexts, surfaces, histories, claimed, hole, -1) && |lives| == CONTEXT_SLOTS
      requires Balanced(ledger, contexts, surfaces, histories, lives)
      ensures Core(hole)
    {
    }

    lemma CoreClaims(hole: int)
      requires Core(hole)
      ensures forall s :: 0 <= s < |surfaces| && IsPending(surfaces[s]) ==> surfaces[s].pts in claimed && claimed[surfaces[s].pts] == s
    {
      forall s | 0 <= s < |surfaces| && IsPending(surfaces[s]) ensures surfaces[s].pts in claimed && claimed[surfaces[s].pts] == s {
        CoreSurface(s, hole);
      }
    }

    lemma CoreFresh(c: nat)
      requires Core(-1) && c < |contexts| && contexts[c].used
      ensures Fresh(histories[c].log, nextPts) && nextPts % PTS_STEP == 0
    {
      hide Fits, Taken, EosOk, ConfigsOk, SurfaceOk;
      assert ContextOk(nextPts, contexts[c], histories[c]);
    }

    lemma CoreComplete(c: nat)
      requires Core(-1) && c < |contexts| && contexts[c].used && contexts[c].eos.phase == Complete
      ensures Completed(surfaces, c)
    {
      hide Sound;
      forall s | 0 <= s < |surfaces| && IsPending(surfaces[s]) ensures surfaces[s].owner != Id(CONTEXT_KIND, c) {
        if surfaces[s].owner == Id(CONTEXT_KIND, c) {
          CompleteMeansSettled(nextPts, contexts, surfaces, histories, claimed, -1, -1, c, s);
        }
      }
    }

    lemma CoreOpen(c: nat)
      requires Core(-1) && c < |contexts| && contexts[c].used && contexts[c].pictureActive
      ensures contexts[c].eos.phase == Open && !Ended(histories[c].log) && ConfigsOk(contexts[c], histories[c])
    {
      hide Fits, Taken, ConfigsOk, SurfaceOk;
      assert ContextOk(nextPts, contexts[c], histories[c]);
    }

    lemma UnitCarried(c: nat, h: History, e: Input, config: seq<Byte>, unit: seq<Byte>)
      requires Core(-1) && c < |contexts| && contexts[c].used && contexts[c].codec != Vp9
      requires contexts[c].configured && contexts[c].lastConfig == config
      requires histories[c].log == h.log + [e] && e.Access? && (e.inband.Some? ==> e.inband.value == config)
      requires e.data == if e.inband.Some? then e.inband.value + unit else unit
      ensures Carries(histories[c].log, Some(config), unit, e.key)
    {
      hide LastConfig, Sound;
      CoreContext(c, -1);
      CarriesNow(h.log, e, Some(config), unit);
    }

    lemma CoreUnowned(c: nat)
      requires Core(-1) && c < |contexts| && !contexts[c].used
      ensures forall s :: 0 <= s < |surfaces| && surfaces[s].used ==> surfaces[s].owner != Id(CONTEXT_KIND, c)
    {
      forall s | 0 <= s < |surfaces| && surfaces[s].used ensures surfaces[s].owner != Id(CONTEXT_KIND, c) {
        CoreSurface(s, -1);
      }
    }

    // ---------- surfaces ----------

    method SetSurface(s: nat, x: Surface, ghost hole: int)
      requires Core(hole) && s < |surfaces| && SurfaceOk(nextPts, contexts, histories, claimed, hole, s, x)
      requires Agrees(LeaseLedger.SlotAfter(ledger, s), x)
      modifies this`surfaces
      ensures Core(hole) && surfaces == old(surfaces)[s := x]
    {
      hide SurfaceOk, ContextOk, ConfigsOk, Balanced, Agrees;
      SurfaceUpdate(nextPts, contexts, surfaces, histories, claimed, hole, -1, s, x);
      SurfaceKeepsBalance(ledger, contexts, surfaces, histories, lives, s, x);
      surfaces := surfaces[s := x];
    }

    /** The surface changes along with an entry of the ledger that takes no output. */
    method EnterSurface(s: nat, x: Surface, ghost e: LeaseLedger.Entry, ghost hole: int)
      requires Core(hole) && s < |surfaces| && SurfaceOk(nextPts, contexts, histories, claimed, hole, s, x)
      requires e.slot == s && !e.Took?
      requires var v := LeaseLedger.SlotAfter(ledger, s); LeaseLedger.Allowed(v, e) && Agrees(LeaseLedger.Step(v, e), x)
      modifies this`surfaces, this`ledger
      ensures Core(hole) && surfaces == old(surfaces)[s := x] && ledger == old(ledger) + [e]
    {
      hide SurfaceOk, ContextOk, ConfigsOk, Balanced, Agrees, LeaseLedger.Allowed, LeaseLedger.Step;
      SurfaceUpdate(nextPts, contexts, surfaces, histories, claimed, hole, -1, s, x);
      EntryKeepsBalance(ledger, contexts, surfaces, histories, lives, e, x);
      surfaces := surfaces[s := x];
      ledger := ledger + [e];
    }

    /** The surface takes an output of session `c`, and the session's lease with it. */
    method AttachOutput(c: nat, s: nat, x: Surface, id: nat, ghost hole: int)
      requires Core(hole) && c < |contexts| && contexts[c].used && s < |surfaces| && IsPending(surfaces[s])
      requires x == surfaces[s].(state := Ready, bufferId := id, reserved := false)
      modifies this`surfaces, this`histories, this`ledger
      ensures Core(hole) && surfaces == old(surfaces)[s := x]
      ensures histories == old(histories)[c := WithEvents(old(histories)[c], if id == 0 then [] else [Attached(id)])]
      ensures ledger == old(ledger) + [LeaseLedger.Took(s, c, lives[c], id, HoldOf(old(surfaces)[s]))]
    {
      hide Core, ContextOk, ConfigsOk, Balanced, LeaseLedger.SlotAfter, Sound, SurfaceOk, Agrees;
      CoreSurface(s, hole);
      CoreAgrees(s, hole);
      CoreIsSound(hole);
      AttachedIsOk(nextPts, contexts, histories, claimed, hole, s, surfaces[s], id);
      AttachedAgrees(LeaseLedger.SlotAfter(ledger, s), surfaces[s], LeaseLedger.Took(s, c, lives[c], id, HoldOf(surfaces[s])));
      var e := LeaseLedger.Took(s, c, lives[c], id, HoldOf(surfaces[s]));
      SurfaceUpdate(nextPts, contexts, surfaces, histories, claimed, hole, -1, s, x);
      var es := histories[c].events + if id == 0 then [] else [Attached(id)];
      EventsKeepSound(nextPts, contexts, surfaces[s := x], histories, claimed, hole, -1, c, es);
      TakingKeepsBalance(ledger, contexts, surfaces, histories, lives, e, x);
      surfaces := surfaces[s := x];
      histories := histories[c := histories[c].(events := es)];
      ledger := ledger + [e];
      SoundIsCore(hole);
    }

    lemma CoreAgrees(s: nat, hole: int)
      requires Core(hole) && s < |surfaces|
      ensures Agrees(LeaseLedger.SlotAfter(ledger, s), surfaces[s])
    {
      hide Sound, Agrees, LeaseLedger.SlotAfter, LeaseLedger.Honest;
    }

    /**
      `release_surface_output`: what the surface holds, if anything, is given back to its owner; the guard on the owner
      never stops that.
     */
    method ReleaseSurface(s: nat, ghost hole: int) returns (returned: bool)
      requires Core(hole) && s < |surfaces| && surfaces[s].used
      modifies this`surfaces, this`ledger
      ensures Core(hole)
      ensures surfaces == old(surfaces)[s := Surface(true, old(surfaces)[s].width, old(surfaces)[s].height, Idle, 0, 0, 0, 0, false)]
      ensures returned <==> old(surfaces)[s].bufferId != 0
      ensures ledger == old(ledger) +
              if returned then [LeaseLedger.Returned(s, GetContext(contexts, old(surfaces)[s].owner), HoldOf(old(surfaces)[s]).value)] else []
      ensures ledger == old(ledger) + GivenBack(contexts, old(surfaces), s)
    {
      CoreSurface(s, hole);
      CoreAgrees(s, hole);
      hide Core, Sound, LeaseLedger.SlotAfter;
      var x := surfaces[s];
      var y := NewSurface(x.width, x.height);
      var c := GetContext(contexts, x.owner);
      returned := x.bufferId != 0 && x.owner != 0 && c >= 0 && contexts[c].session == x.session;
      if returned {
        EnterSurface(s, y, LeaseLedger.Returned(s, c, HoldOf(x).value), hole);
      } else {
        SetSurface(s, y, hole);
      }
    }

    /** The surface a session's output belongs to: the only one pending at that timestamp. */
    method FindPending(pts: nat, session: int, ghost hole: int) returns (found: int)
      requires Core(hole)
      ensures IsMatch(surfaces, found, pts, session)
      ensures if found < 0 then forall s :: 0 <= s < |surfaces| ==>
                !(surfaces[s].used && surfaces[s].state == Pending && surfaces[s].pts == pts && surfaces[s].session == session)
              else
                found < |surfaces| && surfaces[found].used && surfaces[found].state == Pending && surfaces[found].pts == pts &&
                surfaces[found].session == session
      ensures found >= 0 ==> pts in claimed && claimed[pts] == found
      ensures found >= 0 ==> forall s :: 0 <= s < |surfaces| && IsPending(surfaces[s]) && surfaces[s].pts == pts ==> s == found
    {
      hide Core;
      for i := 0 to |surfaces|
        invariant forall s :: 0 <= s < i ==> !Matches(surfaces[s], pts, session)
      {
        if surfaces[i].used && surfaces[i].state == Pending && surfaces[i].pts == pts && surfaces[i].session == session {
          CoreClaims(hole);
          return i;
        }
      }
      return -1;
    }

    // ---------- leases ----------

    /** Something happened to an output other than being attached; it is a lease event if the output has a nonzero id. */
    ghost method Note(c: nat, e: LeaseEvent, hole: int)
      requires Core(hole) && c < |histories| && contexts[c].used && !e.Attached?
      modifies this`histories
      ensures Core(hole)
      ensures histories == old(histories)[c := WithEvents(old(histories)[c], if e.id == 0 then [] else [e])]
    {
      var es := histories[c].events + if e.id == 0 then [] else [e];
      EventsKeepSound(nextPts, contexts, surfaces, histories, claimed, hole, -1, c, es);
      AttachedSnoc(histories[c].events, e);
      assert histories[c].events + [] == histories[c].events;
      hide Balanced, Sound, AttachedIn;
      ContextKeepsBalance(ledger, contexts, surfaces, histories, lives, c, contexts[c], histories[c].(events := es));
      assert contexts == contexts[c := contexts[c]];
      histories := histories[c := histories[c].(events := es)];
    }

    /** `advc_client_dequeue_output`: an output that comes is leased from the broker. */
    method DequeueOutput(c: nat, reply: Dequeue, ghost hole: int) returns (r: Dequeue)
      requires Core(hole) && c < |contexts| && contexts[c].used
      modifies this`histories
      ensures Core(hole) && r == reply
      ensures histories == if r.Got? && r.output.bufferId != 0
                           then old(histories)[c := WithEvents(old(histories)[c], [Leased(r.output.bufferId)])]
                           else old(histories)
    {
      hide Core;
      NoEvents(histories, c);
      r := reply;
      if r.Got? {
        Note(c, Leased(r.output.bufferId), hole);
      }
    }

    /** `advc_client_release_output`: a release is attempted, whatever the broker answers. */
    method ReleaseOutput(c: nat, id: nat, answer: bool, ghost hole: int) returns (ok: bool)
      requires Core(hole) && c < |contexts| && contexts[c].used
      modifies this`histories
      ensures Core(hole) && ok == answer
      ensures histories == old(histories)[c := WithEvents(old(histories)[c], if id == 0 then [] else [ReleaseTry(id)])]
    {
      hide Core;
      Note(c, ReleaseTry(id), hole);
      ok := answer;
    }

    /**
      `convert_output`: the buffer is attached to the surface, or copied and returned under a fence, or left alone. A
      surface with a reserved destination takes only an output that was decoded into it.
     */
    method ConvertOutput(c: nat, s: nat, o: Output, conv: Conversion, ghost hole: int) returns (ok: bool)
      requires Core(hole) && c < |contexts| && contexts[c].used && s < |surfaces| && IsPending(surfaces[s])
      modifies this`surfaces, this`histories, this`ledger
      ensures Core(hole)
      ensures ok <==> if old(surfaces)[s].reserved then conv.Attach? && o.bufferId != 0 else conv.Attach? || conv == Repack(true)
      ensures surfaces == old(surfaces)[s :=
                if !ok then old(surfaces)[s]
                else if conv.Attach? then old(surfaces)[s].(state := Ready, bufferId := o.bufferId, reserved := false)
                else old(surfaces)[s].(state := Ready)]
      ensures histories == old(histories)[c := WithEvents(old(histories)[c],
                if o.bufferId == 0 then []
                else if ok && conv.Attach? then [Attached(o.bufferId)]
                else if conv.Repack? && !old(surfaces)[s].reserved then [FencedRelease(o.bufferId, conv.released)]
                else [])]
      ensures ledger == old(ledger) +
              if ok && conv.Attach? then [LeaseLedger.Took(s, c, lives[c], o.bufferId, HoldOf(old(surfaces)[s]))] else []
    {
      hide Core, Sound, ContextOk, ConfigsOk, LeaseLedger.SlotAfter;
      NoEvents(histories, c);
      CoreSurface(s, hole);
      CoreAgrees(s, hole);
      var x := surfaces[s];
      if x.reserved {
        if !conv.Attach? || o.bufferId == 0 { return false; }
        AttachOutput(c, s, x.(state := Ready, bufferId := o.bufferId, reserved := false), o.bufferId, hole);
        return true;
      }
      match conv {
        case Unfit => return false;
        case Attach =>
          AttachOutput(c, s, x.(state := Ready, bufferId := o.bufferId), o.bufferId, hole);
          return true;
        case Repack(released) =>
          Note(c, FencedRelease(o.bufferId, released), hole);
          if !released { return false; }
          CoreSurface(s, hole);
          SetSurface(s, x.(state := Ready), hole);
          return true;
      }
    }

    /** A frame is matched and converted; if its conversion fails its surface does too, and the output is left to the caller. */
    method HandleFrame(c: nat, o: Output, conv: Conversion, ghost hole: int) returns (ok: bool, ghost m: int)
      requires Core(hole) && c < |contexts| && contexts[c].used
      modifies this`surfaces, this`ledger, this`histories
      ensures old(ledger) <= ledger
      ensures Core(hole) && AllDrained(old(surfaces), surfaces, old(contexts)[c].session)
      ensures IsMatch(old(surfaces), m, o.pts, contexts[c].session) && (m >= 0 ==> o.pts in claimed && claimed[o.pts] == m)
      ensures ok <==> m >= 0 && Converts(old(surfaces)[m], o, conv)
      ensures surfaces == if m >= 0 then old(surfaces)[m := Converted(old(surfaces)[m], o, conv)] else old(surfaces)
      ensures Lands(old(surfaces), surfaces, m, o, conv)
      ensures histories ==
              old(histories)[c := WithEvents(old(histories)[c], if m >= 0 then ConvertEvents(old(surfaces)[m], o, conv) else [])]
      ensures ledger == old(ledger) + Takings(old(surfaces), c, m, lives[c], o, conv)
      ensures ok ==> SomeReady(old(surfaces), surfaces)
    {
      hide Core, Sound, ContextOk, ConfigsOk;
      NoEvents(histories, c);
      var s := FindPending(o.pts, contexts[c].session, hole);
      m := s;
      if s < 0 { return false, m; }
      ok := ConvertOutput(c, s, o, conv, hole);
      if !ok {
        CoreSurface(s, hole);
        CoreAgrees(s, hole);
        SetSurface(s, surfaces[s].(state := Error), hole);
      }
    }

    // ---------- draining ----------

    /** `drain_one_output` before the end of the stream has been requested: 1 a frame, 0 nothing yet, -1 failure. */
    method DrainOpen(c: nat, reply: Dequeue, conv: Conversion, ghost hole: int) returns (r: int, ghost m: int)
      requires Core(hole) && c < |contexts| && contexts[c].used && contexts[c].eos.phase == Open
      modifies this`surfaces, this`ledger, this`histories
      ensures old(ledger) <= ledger
      ensures Core(hole) && AllDrained(old(surfaces), surfaces, old(contexts)[c].session) && LeasesOnly(old(histories), histories, c)
      ensures !reply.Got? ==> r == (if reply.NotYet? then 0 else -1) && unchanged(this)
      ensures reply.Got? ==>
                var o := reply.output;
                && IsMatch(old(surfaces), m, o.pts, contexts[c].session)
                && (r == if m >= 0 && Converts(old(surfaces)[m], o, conv) then 1 else -1)
                && surfaces == (if m >= 0 then old(surfaces)[m := Converted(old(surfaces)[m], o, conv)] else old(surfaces))
                && Lands(old(surfaces), surfaces, m, o, conv)
                && histories == old(histories)[c := WithEvents(old(histories)[c], Episode(old(surfaces), m, o, conv))]
                && ledger == old(ledger) + Takings(old(surfaces), c, m, lives[c], o, conv)
      ensures r == 1 ==> SomeReady(old(surfaces), surfaces)
    {
      hide Core, Converts, Converted, DebtOf, Drained, Lands;
      m := -1;
      DrainedRefl(surfaces, contexts[c].session);
      LeasesRefl(histories, c);
      var got := DequeueOutput(c, reply, hole);
      if got.NotYet? { return 0, m; }
      if !got.Got? { return -1, m; }
      var o := got.output;
      var ok;
      ok, m := HandleFrame(c, o, conv, hole);
      if !ok && o.bufferId != 0 {
        var answer: bool := *;
        var _ := ReleaseOutput(c, o.bufferId, answer, hole);
      }
      EpisodeSettles(old(histories), c, old(surfaces), m, o, conv);
      assert histories[c].events == old(histories)[c].events + Episode(old(surfaces), m, o, conv);
      return if ok then 1 else -1, m;
    }

    // ---------- the private end-of-stream machine ----------

    /** `private_eos_mark_remaining_pending_failed`: everything still pending in the session fails, and that is counted. */
    method MarkRemaining(c: nat)
      requires Core(-1) && c < |contexts| && contexts[c].used
      modifies this`surfaces, this`histories
      ensures Behind(-1, c) && AllDrained(old(surfaces), surfaces, old(contexts)[c].session)
      ensures Marked(old(surfaces), surfaces, contexts[c].session) && Completed(surfaces, c)
      ensures histories == old(histories)[c := old(histories)[c].(marks := old(histories)[c].marks + 1)]
    {
      hide Core, Sound, ContextOk, ConfigsOk;
      for i := 0 to |surfaces|
        invariant Core(-1) && |surfaces| == SURFACE_SLOTS && histories == old(histories)
        invariant forall s :: 0 <= s < |surfaces| ==>
                    surfaces[s] == if s < i && IsPending(old(surfaces)[s]) && old(surfaces)[s].session == contexts[c].session
                                   then old(surfaces)[s].(state := Error) else old(surfaces)[s]
      {
        if surfaces[i].used && surfaces[i].state == Pending && surfaces[i].session == contexts[c].session {
          CoreSurface(i, -1);
          CoreAgrees(i, -1);
          SetSurface(i, surfaces[i].(state := Error), -1);
        }
      }
      MarkedIsDrained(old(surfaces), surfaces, contexts[c].session);
      forall s | 0 <= s < |surfaces| && IsPending(surfaces[s]) ensures surfaces[s].owner != Id(CONTEXT_KIND, c) {
        CoreSurface(s, -1);
      }
      CountMark(c);
    }

    ghost method CountMark(c: nat)
      requires Core(-1) && c < |contexts| && contexts[c].used && Completed(surfaces, c)
      modifies this`histories
      ensures Behind(-1, c)
      ensures histories == old(histories)[c := old(histories)[c].(marks := old(histories)[c].marks + 1)]
    {
      hide Sound, ContextOk, ConfigsOk;
      var h := histories[c].(marks := histories[c].marks + 1);
      CoreIsSound(-1);
      ContextUpdate(nextPts, contexts, surfaces, histories, claimed, -1, -1, c, contexts[c], h, c);
      ContextKeepsBalance(ledger, contexts, surfaces, histories, lives, c, contexts[c], h);
      assert contexts == contexts[c := contexts[c]];
      histories := histories[c := h];
    }

    /** The context takes note of what its session has done. */
    method Commit(c: nat, z: Context, ghost hole: int, ghost stale: int)
      requires Behind(hole, stale) && (stale == -1 || stale == c)
      requires c < |contexts| && contexts[c].used && z.used && z.session == contexts[c].session
      requires ContextOk(nextPts, z, histories[c]) && ConfigsOk(z, histories[c])
      requires z.eos.phase == Complete ==> Completed(surfaces, c)
      modifies this`contexts
      ensures Core(hole) && contexts == old(contexts)[c := z]
    {
      hide Sound, ContextOk, ConfigsOk;
      ContextUpdate(nextPts, contexts, surfaces, histories, claimed, hole, stale, c, z, histories[c], -1);
      ContextKeepsBalance(ledger, contexts, surfaces, histories, lives, c, z, histories[c]);
      assert histories == histories[c := histories[c]];
      contexts := contexts[c := z];
    }

    /** The end-of-stream state moves on; `h` is the history the context last agreed with. */
    method SetEos(c: nat, e: Eos, ghost h: History, ghost stale: int)
      requires Behind(-1, stale) && (stale == -1 || stale == c)
      requires c < |contexts| && contexts[c].used && !contexts[c].pictureActive
      requires ContextOk(nextPts, contexts[c], h) && ConfigsOk(contexts[c], h)
      requires histories[c] == h.(events := histories[c].events, marks := histories[c].marks)
      requires EosOk(e, Ended(h.log), histories[c].marks)
      requires e.phase == Complete ==> Completed(surfaces, c)
      modifies this`contexts
      ensures Core(-1) && contexts == old(contexts)[c := old(contexts)[c].(eos := e)]
    {
      hide Behind, ContextOk, ConfigsOk, EosOk;
      EosStep(nextPts, contexts[c], h, e, histories[c]);
      Commit(c, contexts[c].(eos := e), -1, stale);
    }

    /** An input has been offered to the session of context `c` and taken or not. */
    ghost method Record(c: nat, e: Input, ok: bool, hole: int)
      requires Core(hole) && c < |contexts| && contexts[c].used && contexts[c].eos.phase != Complete
      modifies this`histories
      ensures if ok then Behind(hole, c) else Core(hole)
      ensures histories == old(histories)[c := Offer(old(histories)[c], e, ok)]
    {
      CoreContext(c, hole);
      CoreIsSound(hole);
      hide Sound, ContextOk, ConfigsOk, Accepted;
      GrowUnits(histories[c].log, e);
      RefusalKeeps(nextPts, contexts[c], histories[c], e);
      var h := Offer(histories[c], e, ok);
      ContextUpdate(nextPts, contexts, surfaces, histories, claimed, hole, -1, c, contexts[c], h, if ok then c else -1);
      ContextKeepsBalance(ledger, contexts, surfaces, histories, lives, c, contexts[c], h);
      assert contexts == contexts[c := contexts[c]];
      histories := histories[c := h];
    }

    /** `advc_vaapi_decode_eos_state_signal` with the runtime's callbacks; `reply` is the broker's answer if it is asked. */
    method SignalLocked(c: nat, reply: Reply) returns (r: EosResult)
      requires Valid() && c < |contexts| && contexts[c].used && !contexts[c].pictureActive
      modifies this`contexts, this`histories
      ensures Valid()
      ensures contexts == old(contexts)[c := old(contexts)[c].(eos := contexts[c].eos)]
      ensures EosAdvances(old(contexts)[c].eos, contexts[c].eos)
      ensures var e, e' := old(contexts)[c].eos, contexts[c].eos;
              && (e.phase == Draining || e.phase == Complete || e.phase == Failed ==> unchanged(this))
              && (e.phase == Open || e.phase == SignalPending ==>
                    && e'.signalRequested && e'.phase != Open && e'.phase != Complete
                    && (e'.phase == Draining <==> r == Ok) && (r == Ok <==> reply == Accept)
                    && (e'.phase == Failed <==> reply == Fatal)
                    && histories == old(histories)[c := Offer(old(histories)[c], EndOfStream, r == Ok)])
    {
      hide Core, Behind, DebtOf, TurnsDone, NoEnd, EndsLast;
      var e := contexts[c].eos;
      if e.phase == Failed { return Broken; }
      if e.phase == Complete { return Done; }
      if e.phase == Draining { return Ok; }
      TurnsGrow(histories[c].tries, Try(EndOfStream, reply == Accept));
      OfferEnd(histories[c].tries, reply == Accept);
      r := TrySignal(c, reply);
    }

    /** The broker is asked to take the end of the stream. */
    method TrySignal(c: nat, reply: Reply) returns (r: EosResult)
      requires Core(-1) && c < |contexts| && contexts[c].used && !contexts[c].pictureActive
      requires contexts[c].eos.phase == Open || contexts[c].eos.phase == SignalPending
      modifies this`contexts, this`histories
      ensures Core(-1) && EosAdvances(old(contexts)[c].eos, contexts[c].eos)
      ensures contexts == old(contexts)[c := old(contexts)[c].(eos := contexts[c].eos)]
      ensures histories == old(histories)[c := Offer(old(histories)[c], EndOfStream, r == Ok)]
      ensures var e' := contexts[c].eos;
              && e'.signalRequested && (e'.phase == Draining <==> r == Ok) && (r == Ok <==> reply == Accept)
              && (e'.phase == Failed <==> reply == Fatal) && e'.phase != Open && e'.phase != Complete
    {
      hide Core, Behind, ContextOk, ConfigsOk, Ended, Offer;
      CoreContext(c, -1);
      CoreEos(c, -1);
      var e := contexts[c].eos.(signalRequested := true, phase := SignalPending);
      ghost var h := histories[c];
      Record(c, EndOfStream, reply == Accept, -1);
      if reply == Accept {
        e := e.(signalQueued := true, phase := Draining);
        EndAccepted(nextPts, contexts[c], h, e);
        Commit(c, contexts[c].(eos := e), -1, c);
        return Ok;
      }
      RefusalKeeps(nextPts, contexts[c], h, EndOfStream);
      CoreIsBehind(-1);
      CoreEos(c, -1);
      if reply == Fatal {
        SetEos(c, e.(phase := Failed), histories[c], -1);
        return Broken;
      }
      SetEos(c, e, histories[c], -1);
      return if reply == Retry then WouldBlock else NeedOutputRelease;
    }

    lemma CoreIsBehind(hole: int)
      requires Core(hole)
      ensures Behind(hole, -1)
    {
    }

    /** `private_eos_release_output`: only an output that is held can be released, and it is held no longer. */
    method ReleaseHeld(c: nat, o: Output, held: bool, answer: bool) returns (ok: bool, stillHeld: bool)
      requires Core(-1) && c < |contexts| && contexts[c].used
      modifies this`histories
      ensures Core(-1) && !stillHeld && ok == (held && answer)
      ensures histories == if held && o.bufferId != 0
                           then old(histories)[c := WithEvents(old(histories)[c], [ReleaseTry(o.bufferId)])] else old(histories)
    {
      hide Core;
      if !held { return false, false; }
      NoEvents(histories, c);
      ok := ReleaseOutput(c, o.bufferId, answer, -1);
      stillHeld := false;
    }

    /** The terminal token: released, never matched to a surface. */
    method TakeControl(c: nat, o: Output, released: bool) returns (held: bool)
      requires Core(-1) && c < |contexts| && contexts[c].used && !contexts[c].pictureActive
      requires contexts[c].eos.phase == SignalPending || contexts[c].eos.phase == Draining
      requires o.bufferId != 0 && IsControl(o) && DebtOf(histories[c].events) == Due(o.bufferId)
      modifies this`contexts, this`surfaces, this`ledger, this`histories
      ensures old(ledger) <= ledger
      ensures Core(-1) && AllDrained(old(surfaces), surfaces, old(contexts)[c].session) && !held
      ensures contexts == old(contexts)[c := old(contexts)[c].(eos := NextEos(old(contexts)[c].eos, o, false, released))]
      ensures Progressed(old(contexts), old(histories), contexts, histories, c)
      ensures if contexts[c].eos.phase == Complete then Marked(old(surfaces), surfaces, contexts[c].session) else surfaces == old(surfaces)
    {
      hide Core, Behind, ContextOk, ConfigsOk, EosOk, Ended, Drained, EosAdvances;
      CoreContext(c, -1);
      CoreEos(c, -1);
      var e := contexts[c].eos;
      ghost var h := histories[c];
      NextEosIsConsistent(e, o, false, released, Ended(h.log), h.marks);
      DrainedRefl(surfaces, contexts[c].session);
      DebtSnoc(h.events, ReleaseTry(o.bufferId));
      var ok;
      ok, held := ReleaseHeld(c, o, true, released);
      CoreIsBehind(-1);
      if o.other || !ok {
        SetEos(c, FailedEos(e), h, -1);
      } else if e.phase != Draining {
        SetEos(c, ControlEos(e).(phase := Failed), h, -1);
      } else {
        MarkRemaining(c);
        SetEos(c, CompleteEos(ControlEos(e)), h, c);
      }
    }

    /** A frame: handed to its surface or, failing that, released. */
    method TakeFrame(c: nat, o: Output, conv: Conversion, released: bool) returns (frame: bool, held: bool)
      requires Core(-1) && c < |contexts| && contexts[c].used && !contexts[c].pictureActive
      requires contexts[c].eos.phase == SignalPending || contexts[c].eos.phase == Draining
      requires o.bufferId != 0 && !IsControl(o) && DebtOf(histories[c].events) == Due(o.bufferId)
      modifies this`contexts, this`surfaces, this`ledger, this`histories
      ensures old(ledger) <= ledger
      ensures Core(-1) && AllDrained(old(surfaces), surfaces, old(contexts)[c].session) && !held
      ensures Possible(old(contexts)[c].eos, o, frame)
      ensures contexts == old(contexts)[c := old(contexts)[c].(eos := NextEos(old(contexts)[c].eos, o, frame, released))]
      ensures Progressed(old(contexts), old(histories), contexts, histories, c)
      ensures frame ==> SomeReady(old(surfaces), surfaces)
    {
      hide Core, Behind, ContextOk, ConfigsOk, EosOk, Ended, Drained, EosAdvances, Converts, Converted, ConvertEvents, DebtOf;
      CoreContext(c, -1);
      CoreEos(c, -1);
      var e := contexts[c].eos;
      ghost var h := histories[c];
      DrainedRefl(surfaces, contexts[c].session);
      frame, held := false, true;
      if !o.end || e.phase == Draining {
        frame := HandleHeld(c, o, conv);
        held := !frame;
      }
      NextEosIsConsistent(e, o, frame, released, Ended(h.log), h.marks);
      if !frame {
        DebtSnoc(histories[c].events, ReleaseTry(o.bufferId));
        var _, stillHeld := ReleaseHeld(c, o, held, released);
        held := stillHeld;
        CoreIsBehind(-1);
        SetEos(c, FailedEos(e), h, -1);
      } else if o.end {
        ghost var ss := surfaces;
        MarkRemaining(c);
        DrainedTrans(old(surfaces), ss, surfaces, contexts[c].session);
        SetEos(c, CompleteEos(FrameEos(e)), h, c);
      } else {
        CoreIsBehind(-1);
        SetEos(c, FrameEos(e), h, -1);
      }
    }

    /** `private_eos_handle_frame` on the held output: it is settled, or still owed with at most one release refused. */
    method HandleHeld(c: nat, o: Output, conv: Conversion) returns (ok: bool)
      requires Core(-1) && c < |contexts| && contexts[c].used && o.bufferId != 0 && DebtOf(histories[c].events) == Due(o.bufferId)
      modifies this`surfaces, this`ledger, this`histories
      ensures old(ledger) <= ledger
      ensures Core(-1) && AllDrained(old(surfaces), surfaces, old(contexts)[c].session) && (ok ==> SomeReady(old(surfaces), surfaces))
      ensures histories == old(histories)[c := old(histories)[c].(events := histories[c].events)]
      ensures old(histories)[c].events <= histories[c].events
      ensures DebtOf(histories[c].events) in if ok then {Clear} else {Owing(o.bufferId), Refused(o.bufferId)}
    {
      hide Core, DebtOf;
      ghost var es := histories[c].events;
      ghost var m;
      ok, m := HandleFrame(c, o, conv, -1);
      if m >= 0 {
        ConvertDebt(es, old(surfaces)[m], o, conv);
      } else {
        assert es + [] == es;
      }
    }

    /** One dequeued output in `advc_vaapi_decode_eos_state_progress`; it stays held only if it has no id. */
    method TakeOutput(c: nat, o: Output, conv: Conversion, released: bool) returns (frame: bool, held: bool)
      requires Core(-1) && c < |contexts| && contexts[c].used && !contexts[c].pictureActive
      requires contexts[c].eos.phase == SignalPending || contexts[c].eos.phase == Draining
      requires DebtOf(histories[c].events) == Due(o.bufferId)
      modifies this`contexts, this`surfaces, this`ledger, this`histories
      ensures old(ledger) <= ledger
      ensures Core(-1) && AllDrained(old(surfaces), surfaces, old(contexts)[c].session) && (held <==> o.bufferId == 0)
      ensures Possible(old(contexts)[c].eos, o, frame) && (frame ==> SomeReady(old(surfaces), surfaces))
      ensures contexts == old(contexts)[c := old(contexts)[c].(eos := NextEos(old(contexts)[c].eos, o, frame, released))]
      ensures Progressed(old(contexts), old(histories), contexts, histories, c)
      ensures IsControl(o) ==> if contexts[c].eos.phase == Complete then Marked(old(surfaces), surfaces, contexts[c].session)
                               else surfaces == old(surfaces)
    {
      hide Core, Behind, ContextOk, ConfigsOk, EosOk, Ended, Drained, EosAdvances, DebtOf, Marked;
      frame := false;
      if o.bufferId == 0 {
        CoreContext(c, -1);
        CoreEos(c, -1);
        CoreIsBehind(-1);
        NextEosIsConsistent(contexts[c].eos, o, false, released, Ended(histories[c].log), histories[c].marks);
        DrainedRefl(surfaces, contexts[c].session);
        SetEos(c, FailedEos(contexts[c].eos), histories[c], -1);
        return false, true;
      }
      if IsControl(o) {
        held := TakeControl(c, o, released);
      } else {
        frame, held := TakeFrame(c, o, conv, released);
      }
    }

    /** `fail_state` with nothing taken. */
    method Break(c: nat)
      requires Core(-1) && c < |contexts| && contexts[c].used && !contexts[c].pictureActive
      requires contexts[c].eos.phase == SignalPending || contexts[c].eos.phase == Draining
      requires DebtOf(histories[c].events) == Clear
      modifies this`contexts
      ensures Core(-1) && contexts == old(contexts)[c := old(contexts)[c].(eos := old(contexts)[c].eos.(phase := Failed))]
      ensures Progressed(old(contexts), histories, contexts, histories, c)
    {
      hide Core, Behind, Fits, ContextOk, ConfigsOk, Ended, DebtOf;
      CoreContext(c, -1);
      CoreEos(c, -1);
      CoreIsBehind(-1);
      SetEos(c, contexts[c].eos.(phase := Failed), histories[c], -1);
    }

    /**
      One turn of the loop of `advc_vaapi_decode_eos_state_progress`: an output is dequeued and taken, or there is none.
      Nothing is held when it begins.
     */
    method Turn(c: nat, reply: Dequeue, conv: Conversion, released: bool) returns (frame: bool, held: bool)
      requires Core(-1) && c < |contexts| && contexts[c].used && !contexts[c].pictureActive
      requires contexts[c].eos.phase == SignalPending || contexts[c].eos.phase == Draining
      requires DebtOf(histories[c].events) == Clear
      modifies this`contexts, this`surfaces, this`ledger, this`histories
      ensures old(ledger) <= ledger
      ensures Core(-1) && AllDrained(old(surfaces), surfaces, old(contexts)[c].session) && (frame ==> SomeReady(old(surfaces), surfaces))
      ensures Progressed(old(contexts), old(histories), contexts, histories, c)
      ensures held <==> reply.Got? && reply.output.bufferId == 0
      ensures reply.NotYet? || reply.Full? ==> unchanged(this) && !frame
      ensures reply.Gone? ==> contexts[c].eos == old(contexts)[c].eos.(phase := Failed) && !frame
      ensures reply.Got? ==>
                && contexts[c].eos == NextEos(old(contexts)[c].eos, reply.output, frame, released)
                && Possible(old(contexts)[c].eos, reply.output, frame)
                && (held ==> contexts[c].eos.phase == Failed)
                && (IsControl(reply.output) ==>
                      if contexts[c].eos.phase == Complete then Marked(old(surfaces), surfaces, contexts[c].session)
                      else surfaces == old(surfaces))
    {
      hide Core, DebtOf, Drained, EosAdvances, Marked;
      DrainedRefl(surfaces, contexts[c].session);
      ghost var hs := histories;
      var got := DequeueOutput(c, reply, -1);
      match got {
        case Got(o) =>
          DebtSnoc(hs[c].events, Leased(o.bufferId));
          frame, held := TakeOutput(c, o, conv, released);
        case Gone =>
          Break(c);
          return false, false;
        case _ =>
          ProgressedRefl(contexts, histories, c);
          return false, false;
      }
    }

    /** `advc_vaapi_decode_eos_state_progress`: at most `max` outputs are taken, each before the next is dequeued. */
    method Progress(c: nat, max: nat, feeds: seq<Feed>) returns (r: EosResult, frames: nat, held: bool, last: Output)
      requires Core(-1) && c < |contexts| && contexts[c].used && DebtOf(histories[c].events) == Clear
      modifies this`contexts, this`surfaces, this`ledger, this`histories
      ensures old(ledger) <= ledger
      ensures Core(-1) && AllDrained(old(surfaces), surfaces, old(contexts)[c].session)
      ensures Progressed(old(contexts), old(histories), contexts, histories, c)
      ensures contexts[c].eos.outputs <= old(contexts)[c].eos.outputs + max
      ensures contexts[c].eos.frames == old(contexts)[c].eos.frames + frames && (frames > 0 ==> SomeReady(old(surfaces), surfaces))
      ensures var e, e' := old(contexts)[c].eos, contexts[c].eos;
              && (max == 0 || max > MAX_PROGRESS_OUTPUTS ==> r == BadArgument && unchanged(this))
              && (e.phase == Open || e.phase == Complete || e.phase == Failed ==> unchanged(this))
              && (e'.phase != e.phase ==> e'.phase == Complete || e'.phase == Failed)
              && (e.phase == SignalPending ==> e'.phase != Complete)
              && (r == Done <==> 0 < max <= MAX_PROGRESS_OUTPUTS && e'.phase == Complete)
              && (r == Broken <==> 0 < max <= MAX_PROGRESS_OUTPUTS && e'.phase == Failed)
              && (r == NotSignaled <==> 0 < max <= MAX_PROGRESS_OUTPUTS && e'.phase == Open)
              && (r == Ok ==> e'.outputs == e.outputs + max) && r != BadContext && frames <= e'.outputs - e.outputs
              && (r == WouldBlock || r == NeedOutputRelease ==> e'.outputs < e.outputs + max)
              && (r == BadArgument <==> max == 0 || max > MAX_PROGRESS_OUTPUTS)
      ensures held ==> contexts[c].eos.phase == Failed && last.bufferId == 0
      ensures 0 < max <= MAX_PROGRESS_OUTPUTS && old(contexts)[c].eos.phase == Draining && EndsStream(FeedAt(feeds, 0)) ==>
                contexts[c].eos.phase == Complete && Marked(old(surfaces), surfaces, contexts[c].session)
    {
      hide Core, DebtOf, Drained, EosAdvances, SomeReady, Progressed;
      frames, held, last := 0, false, Output(0, 0, false, false, false);
      DrainedRefl(surfaces, contexts[c].session);
      ProgressedRefl(contexts, histories, c);
      if max == 0 || max > MAX_PROGRESS_OUTPUTS { return BadArgument, 0, false, last; }
      if contexts[c].eos.phase == Open { return NotSignaled, 0, false, last; }
      if contexts[c].eos.phase == Failed { return Broken, 0, false, last; }
      if contexts[c].eos.phase == Complete { return Done, 0, false, last; }
      CoreEos(c, -1);
      hide EosOk;
      var outputs := 0;
      while outputs < max
        invariant frames <= outputs <= max && !held && old(ledger) <= ledger
        invariant Core(-1) && AllDrained(old(surfaces), surfaces, old(contexts)[c].session)
        invariant Progressed(old(contexts), old(histories), contexts, histories, c)
        invariant contexts[c].used && !contexts[c].pictureActive && DebtOf(histories[c].events) == Clear
        invariant contexts[c].session == old(contexts)[c].session
        invariant contexts[c].eos.phase == old(contexts)[c].eos.phase
        invariant contexts[c].eos.outputs == old(contexts)[c].eos.outputs + outputs
        invariant contexts[c].eos.frames == old(contexts)[c].eos.frames + frames
        invariant frames > 0 ==> SomeReady(old(surfaces), surfaces)
        invariant outputs == 0 ==> contexts == old(contexts) && surfaces == old(surfaces)
        invariant outputs > 0 ==> !(old(contexts)[c].eos.phase == Draining && EndsStream(FeedAt(feeds, 0)))
      {
        assert !held;
        var feed := FeedAt(feeds, outputs);
        ghost var cs, ss, hs := contexts, surfaces, histories;
        var frame;
        frame, held := Turn(c, feed.reply, feed.conv, feed.released);
        TurnAfter(old(contexts), old(surfaces), old(histories), cs, ss, hs, contexts, surfaces, histories, c, old(contexts)[c].session);
        match feed.reply {
          case NotYet => return WouldBlock, frames, held, last;
          case Full => return NeedOutputRelease, frames, held, last;
          case Gone => return Broken, frames, held, last;
          case Got(o) =>
            last := o;
            NextEosPhase(cs[c].eos, o, frame, feed.released);
            outputs := outputs + 1;
            if frame { frames := frames + 1; }
            if contexts[c].eos.phase == Failed { return Broken, frames, held, last; }
            if contexts[c].eos.phase == Complete { return Done, frames, held, last; }
        }
      }
      return Ok, frames, held, last;
    }

    /** `private_eos_progress_locked`: an output the machine left behind is released; it is never a lease. */
    method ProgressLocked(c: nat, max: nat, feeds: seq<Feed>) returns (r: EosResult, frames: nat, held: bool)
      requires Valid() && c < |contexts| && contexts[c].used
      modifies this`contexts, this`surfaces, this`ledger, this`histories
      ensures old(ledger) <= ledger
      ensures !held && Valid() && AllDrained(old(surfaces), surfaces, old(contexts)[c].session)
      ensures Progressed(old(contexts), old(histories), contexts, histories, c)
      ensures contexts[c].eos.outputs <= old(contexts)[c].eos.outputs + max
      ensures contexts[c].eos.frames == old(contexts)[c].eos.frames + frames && (frames > 0 ==> SomeReady(old(surfaces), surfaces))
      ensures var e, e' := old(contexts)[c].eos, contexts[c].eos;
              && (max == 0 || max > MAX_PROGRESS_OUTPUTS ==> r == BadArgument && unchanged(this))
              && (e.phase == Open || e.phase == Complete || e.phase == Failed ==> unchanged(this))
              && (e'.phase != e.phase ==> e'.phase == Complete || e'.phase == Failed)
              && (e.phase == SignalPending ==> e'.phase != Complete)
              && (r == Done <==> 0 < max <= MAX_PROGRESS_OUTPUTS && e'.phase == Complete)
              && (r == Broken <==> 0 < max <= MAX_PROGRESS_OUTPUTS && e'.phase == Failed)
              && (r == NotSignaled <==> 0 < max <= MAX_PROGRESS_OUTPUTS && e'.phase == Open)
              && (r == Ok ==> e'.outputs == e.outputs + max) && r != BadContext && frames <= e'.outputs - e.outputs
              && (r == WouldBlock || r == NeedOutputRelease ==> e'.outputs < e.outputs + max)
              && (r == BadArgument <==> max == 0 || max > MAX_PROGRESS_OUTPUTS)
      ensures 0 < max <= MAX_PROGRESS_OUTPUTS && old(contexts)[c].eos.phase == Draining && EndsStream(FeedAt(feeds, 0)) ==>
                contexts[c].eos.phase == Complete && Marked(old(surfaces), surfaces, contexts[c].session)
    {
      hide Core, DebtOf, EosAdvances, SomeReady, Drained, TurnsDone, NoEnd, EndsLast;
      var last;
      r, frames, held, last := Progress(c, max, feeds);
      if held {
        var answer: bool := *;
        var _, stillHeld := ReleaseHeld(c, last, held, answer);
        held := stillHeld;
      }
    }

    /** `drain_one_output`: 1 a frame, 0 nothing yet, -1 failure. */
    method DrainOne(c: nat, feed: Feed) returns (r: int)
      requires Valid() && c < |contexts| && contexts[c].used
      modifies this`contexts, this`surfaces, this`ledger, this`histories
      ensures old(ledger) <= ledger
      ensures Valid() && AllDrained(old(surfaces), surfaces, old(contexts)[c].session)
      ensures Progressed(old(contexts), old(histories), contexts, histories, c)
      ensures -1 <= r <= 1 && (r == 1 ==> SomeReady(old(surfaces), surfaces))
      ensures var e, e' := old(contexts)[c].eos, contexts[c].eos;
              && (e.phase == Open ==> e' == e && (r == 0 ==> unchanged(this)))
              && (e.phase == Open && feed.reply.Got? ==>
                    exists m :: Drains(old(surfaces), old(histories), old(ledger), surfaces, histories, ledger, c, m, contexts[c].session, lives[c], feed))
              && (e.phase == Complete || e.phase == Failed ==> unchanged(this))
              && (e.phase != Open ==> (r == -1 <==> e'.phase == Failed) && (e'.phase != Failed ==> e'.frames == e.frames + r))
    {
      hide Core, DebtOf, TurnsDone, NoEnd, EndsLast, Drained, SomeReady;
      if contexts[c].eos.phase != Open {
        var result, frames, _ := ProgressLocked(c, 1, [feed]);
        CoreEos(c, -1);
        match result {
          case Ok | Done => return if frames > 0 then 1 else 0;
          case WouldBlock | NeedOutputRelease => return 0;
          case _ => return -1;
        }
      }
      ghost var m;
      r, m := DrainOpen(c, feed.reply, feed.conv, -1);
      if feed.reply.Got? { assert Drains(old(surfaces), old(histories), old(ledger), surfaces, histories, ledger, c, m, contexts[c].session, lives[c], feed); }
    }

    // ---------- queueing ----------

    /**
      `queue_bytes_with_drain` on a session still open: whether the broker took the input, which is then in its log.
      `first` is its first answer.
     */
    method Queue(c: nat, e: Input, first: Reply, ghost hole: int) returns (ok: bool)
      requires Core(hole) && c < |contexts| && contexts[c].used && contexts[c].eos.phase == Open
      modifies this`surfaces, this`ledger, this`histories
      ensures old(ledger) <= ledger
      ensures if ok then Behind(hole, c) else Core(hole)
      ensures AllDrained(old(surfaces), surfaces, old(contexts)[c].session) && Offered(old(histories), histories, c, e, ok)
      ensures first != Retry ==> ok == (first == Accept) && surfaces == old(surfaces) && histories[c].events == old(histories)[c].events
    {
      hide Core, Behind, LeasesOnly, Drained, Offered, Offer;
      DrainedRefl(surfaces, contexts[c].session);
      LeasesRefl(histories, c);
      for attempt := 0 to QUEUE_ATTEMPTS
        invariant Core(hole) && AllDrained(old(surfaces), surfaces, old(contexts)[c].session) && LeasesOnly(old(histories), histories, c)
        invariant attempt == 0 ==> surfaces == old(surfaces) && histories == old(histories)
        invariant attempt > 0 ==> first == Retry
        invariant old(ledger) <= ledger
      {
        var reply: Reply := *;
        if attempt == 0 { reply := first; }
        if reply != Retry {
          Answer(c, e, reply == Accept, old(histories), hole);
          return reply == Accept;
        }
        ghost var ss, hs := surfaces, histories;
        var answer: Dequeue, conv: Conversion := *, *;
        ghost var m;
        var drained;
        drained, m := DrainOpen(c, answer, conv, hole);
        DrainedTrans(old(surfaces), ss, surfaces, contexts[c].session);
        LeasesTrans(old(histories), hs, histories, c);
        if drained < 0 {
          Answer(c, e, false, old(histories), hole);
          return false;
        }
      }
      Answer(c, e, false, old(histories), hole);
      return false;
    }

    /** The offer is over. */
    ghost method Answer(c: nat, e: Input, ok: bool, hs: seq<History>, hole: int)
      requires Core(hole) && c < |contexts| && contexts[c].used && contexts[c].eos.phase == Open && LeasesOnly(hs, histories, c)
      modifies this`histories
      ensures (if ok then Behind(hole, c) else Core(hole)) && Offered(hs, histories, c, e, ok)
      ensures histories[c].events == old(histories)[c].events
    {
      hide Core, Behind, LeasesOnly, Offered;
      Record(c, e, ok, hole);
      OfferedAfter(hs, old(histories), histories, c, e, ok);
    }

    /** A timestamp is taken for the picture on surface `s`; none is left when the clock would leave 63 bits. */
    method TakePts(c: nat, s: nat) returns (r: Option<nat>)
      requires Core(-1) && c < |contexts| && contexts[c].used && s < |surfaces|
      modifies this`nextPts, this`claimed
      ensures Core(-1)
      ensures r.Some? <==> old(nextPts) <= MAX_I64 - PTS_STEP
      ensures r.Some? ==> r.value == old(nextPts) && nextPts == old(nextPts) + PTS_STEP && claimed == old(claimed)[r.value := s]
      ensures r.Some? ==> Issued(r.value, s) && Fresh(histories[c].log, r.value)
      ensures r.None? ==> unchanged(this)
    {
      hide Core, Sound, ContextOk, ConfigsOk;
      if nextPts > MAX_I64 - PTS_STEP { return None; }
      CoreIsSound(-1);
      CoreFresh(c);
      IssueUpdate(nextPts, contexts, surfaces, histories, claimed, s);
      r := Some(nextPts);
      claimed := claimed[nextPts := s];
      nextPts := nextPts + PTS_STEP;
      SoundIsCore(-1);
    }

    /** The timestamp was issued for surface `s`. */
    ghost predicate Issued(pts: nat, s: nat)
      reads this
    {
      pts < nextPts && pts % PTS_STEP == 0 && pts in claimed && claimed[pts] == s
    }

    /** The session is given a configuration of its own, and the context remembers it once it is taken. */
    method SendConfig(c: nat, bytes: seq<Byte>, key: bool, reply: Reply) returns (ok: bool)
      requires Core(-1) && c < |contexts| && contexts[c].used && contexts[c].eos.phase == Open
      requires contexts[c].codec != Vp9 && ChangeAllowed(contexts[c].codec, histories[c].log, bytes, key)
      modifies this`contexts, this`surfaces, this`ledger, this`histories
      ensures old(ledger) <= ledger
      ensures Core(-1) && AllDrained(old(surfaces), surfaces, old(contexts)[c].session)
      ensures Offered(old(histories), histories, c, Config(bytes, key), ok)
      ensures contexts == if ok then old(contexts)[c := old(contexts)[c].(configured := true, lastConfig := bytes)] else old(contexts)
      ensures reply != Retry ==>
                ok == (reply == Accept) && surfaces == old(surfaces) && histories[c].events == old(histories)[c].events
    {
      hide Core, Behind, ChangeAllowed, ContextOk, ConfigsOk, DebtOf;
      CoreContext(c, -1);
      ghost var h := histories[c];
      ok := Queue(c, Config(bytes, key), reply, -1);
      if ok {
        ConfigAccepted(nextPts, contexts[c], h, bytes, key);
        LeasesAside(nextPts, contexts[c].(configured := true, lastConfig := bytes), Offer(h, Config(bytes, key), true), histories[c].events);
        Commit(c, contexts[c].(configured := true, lastConfig := bytes), -1, c);
      }
    }

    /** `reserve_surface_linear`. */
    method Reserve(c: nat, s: nat, pts: nat, async: bool, answer: bool) returns (ok: bool, reserved: bool)
      requires Core(-1) && c < |contexts| && contexts[c].used && contexts[c].eos.phase == Open
      requires s < |surfaces| && surfaces[s].used && Issued(pts, s)
      modifies this`surfaces, this`ledger
      ensures old(ledger) <= ledger
      ensures Core(if reserved then s else -1) && surfaces == old(surfaces)[s := surfaces[s]]
      ensures (ok <==> !async || answer) && (reserved <==> async && answer)
      ensures !reserved ==> surfaces == old(surfaces)
      ensures reserved ==> surfaces[s].used && surfaces[s].reserved
    {
      hide Core, Sound, ContextOk, ConfigsOk, Accepted;
      if !async { return true, false; }
      if !answer { return false, false; }
      var id: nat := *;
      var x := surfaces[s].(bufferId := id, reserved := true, pts := pts, owner := Id(CONTEXT_KIND, c), session := contexts[c].session);
      CoreSurface(s, -1);
      CoreAgrees(s, -1);
      CoreIsSound(-1);
      HoleUpdate(nextPts, contexts, surfaces, histories, claimed, -1, -1, s);
      SoundIsCore(s);
      EnterSurface(s, x, LeaseLedger.Booked(s, c, id, HoldOf(surfaces[s])), s);
      return true, true;
    }

    /** The access unit is offered to the session; once it is taken the surface waits for its output. */
    method SendUnit(
      c: nat, s: nat, pts: nat, key: bool, data: seq<Byte>, inband: Option<seq<Byte>>, async: bool, reserve: bool, reply: Reply)
      returns (ok: bool)
      requires Core(-1) && c < |contexts| && contexts[c].used && contexts[c].eos.phase == Open
      requires s < |surfaces| && surfaces[s].used && Issued(pts, s)
      requires Follows(contexts[c].codec, histories[c].log, Access(pts, key, data, inband))
      modifies this`contexts, this`surfaces, this`ledger, this`histories
      ensures old(ledger) <= ledger
      ensures Core(-1) && Offered(old(histories), histories, c, Access(pts, key, data, inband), ok)
      ensures contexts == if ok then old(contexts)[c := AfterUnit(old(contexts)[c], inband)] else old(contexts)
      ensures ok ==> IsPending(surfaces[s]) && surfaces[s].pts == pts && surfaces[s].owner == Id(CONTEXT_KIND, c)
      ensures forall t :: 0 <= t < |surfaces| && t != s ==> Drained(old(surfaces)[t], surfaces[t], old(contexts)[c].session)
      ensures async && !reserve ==> !ok
      ensures (async ==> reserve) && reply != Retry ==> ok == (reply == Accept)
      ensures (async ==> reserve) && !ok ==> !surfaces[s].reserved
      ensures !async && reply != Retry && !old(surfaces)[s].reserved ==>
                && histories[c].events == old(histories)[c].events
                && surfaces == if ok then old(surfaces)[s := Waiting(old(surfaces)[s], c, contexts[c].session, pts)] else old(surfaces)
    {
      hide Core, Behind, Follows, Drained, Sound, ContextOk, ConfigsOk, DebtOf, Accepted;
      DrainedRefl(surfaces, contexts[c].session);
      var e := Access(pts, key, data, inband);
      var reserved;
      ok, reserved := Reserve(c, s, pts, async, reserve);
      LeasesRefl(histories, c);
      if !ok {
        Record(c, e, false, -1);
        return false;
      }
      ghost var hole := if reserved then s else -1;
      ghost var ss, h := surfaces, histories[c];
      CoreContext(c, hole);
      ok := Queue(c, e, reply, hole);
      DrainedAt(ss, surfaces, contexts[c].session, s);
      if ok {
        UnitAccepted(nextPts, contexts[c], h, e);
        LeasesAside(nextPts, AfterUnit(contexts[c], inband), Offer(h, e, true), histories[c].events);
        Commit(c, AfterUnit(contexts[c], inband), hole, c);
        Land(c, s, pts, hole);
        return true;
      }
      if surfaces[s].reserved {
        var _ := ReleaseSurface(s, hole);
      }
      Unhole(s, hole);
    }

    /** The surface becomes pending for the access unit just accepted. */
    method Land(c: nat, s: nat, pts: nat, ghost hole: int)
      requires Core(hole) && c < |contexts| && contexts[c].used && contexts[c].eos.phase == Open && (hole == s || hole == -1)
      requires s < |surfaces| && surfaces[s].used && Issued(pts, s) && Accepted(histories[c].log, pts)
      modifies this`surfaces, this`ledger
      ensures old(ledger) <= ledger
      ensures Core(-1) && surfaces == old(surfaces)[s := Waiting(old(surfaces)[s], c, contexts[c].session, pts)]
    {
      hide Core, Sound, ContextOk, ConfigsOk, Accepted;
      CoreSurface(s, hole);
      CoreAgrees(s, hole);
      EnterSurface(s, Waiting(surfaces[s], c, contexts[c].session, pts), LeaseLedger.Queued(s, c), hole);
      Unhole(s, hole);
    }

    lemma Unhole(s: nat, hole: int)
      requires Core(hole) && (hole == s || hole == -1) && s < |surfaces|
      requires hole == s ==> IsPending(surfaces[s]) ==> var c := GetContext(contexts, surfaces[s].owner); c >= 0 && Accepted(histories[c].log, surfaces[s].pts)
      ensures Core(-1)
    {
      CoreSurface(s, hole);
      HoleUpdate(nextPts, contexts, surfaces, histories, claimed, hole, -1, -1);
    }

    // ---------- pictures ----------

    /** The context's picture fields change. */
    method SetPicture(c: nat, active: bool, target: int)
      requires Core(-1) && c < |contexts| && contexts[c].used && (active ==> contexts[c].eos.phase == Open)
      modifies this`contexts
      ensures Core(-1) && contexts == old(contexts)[c := old(contexts)[c].(pictureActive := active, target := target)]
    {
      var z := contexts[c].(pictureActive := active, target := target);
      CoreContext(c, -1);
      if z.eos.phase == Complete { CoreComplete(c); }
      assert ContextOk(nextPts, z, histories[c]) && ConfigsOk(z, histories[c]);
      hide Sound, ContextOk, ConfigsOk;
      Commit(c, z, -1, -1);
    }

    /** A picture's turn begins with its configuration; if that is refused the turn is over. */
    method Announce(c: nat, config: seq<Byte>, key: bool, pts: nat, reply: Reply) returns (ok: bool)
      requires Valid() && c < |contexts| && contexts[c].used && contexts[c].eos.phase == Open && contexts[c].codec != Vp9
      requires ChangeAllowed(contexts[c].codec, histories[c].log, config, key)
      requires Fresh(histories[c].log, pts) && !Ended(histories[c].log)
      modifies this`contexts, this`surfaces, this`ledger, this`histories
      ensures old(ledger) <= ledger
      ensures Core(-1) && Settled() && (!ok ==> Valid())
      ensures OthersKept(old(contexts), old(histories), contexts, histories, c)
      ensures contexts == if ok then old(contexts)[c := old(contexts)[c].(configured := true, lastConfig := config)] else old(contexts)
      ensures |surfaces| == |old(surfaces)| && forall s :: 0 <= s < |surfaces| ==> surfaces[s].used == old(surfaces)[s].used
      ensures ok ==> histories[c].tries == old(histories)[c].tries + [Try(Config(config, key), true)]
      ensures ok ==> Fresh(histories[c].log, pts) && !Ended(histories[c].log) && LastConfig(histories[c].log) == Some(config)
      ensures reply != Retry ==>
                && ok == (reply == Accept) && surfaces == old(surfaces) && histories[c].events == old(histories)[c].events
                && histories[c].log == if ok then old(histories)[c].log + [Config(config, key)] else old(histories)[c].log
    {
      hide Core, HasUnit, Ended, LastConfig, ChangeAllowed, Fresh, DebtOf, OthersKept, TurnsDone, NoEnd, EndsLast, Drained;
      ok := SendConfig(c, config, key, reply);
      forall s | 0 <= s < |surfaces| ensures surfaces[s].used == old(surfaces)[s].used {
        DrainedAt(old(surfaces), surfaces, contexts[c].session, s);
      }
      OfferKept(old(contexts), old(histories), contexts, histories, c, Config(config, key), ok);
      if ok {
        AfterConfig(old(histories)[c].log, config, key, pts);
      } else {
        RefusedTurn(contexts[c], old(histories)[c], histories[c], Config(config, key));
      }
    }

    /** The H.264 part of `advc_vaapi_decode_end_picture`, once the picture has been prepared. */
    method EndH264(
      c: nat, s: nat, config: seq<Byte>, unit: seq<Byte>, key: bool, inbandUpdates: bool, async: bool, replies: Replies)
      returns (ok: bool)
      requires Valid() && c < |contexts| && contexts[c].used && contexts[c].pictureActive && contexts[c].codec == H264
      requires s < |surfaces| && surfaces[s].used && Built(config)
      modifies this`nextPts, this`claimed, this`contexts, this`surfaces, this`ledger, this`histories
      ensures old(ledger) <= ledger
      ensures Valid()
      ensures OthersKept(old(contexts), old(histories), contexts, histories, c)
      ensures ok ==> Landed(surfaces, histories[c].log, c, s, old(nextPts))
      ensures ok ==> Carries(histories[c].log, Some(config), unit, key)
      ensures nextPts <= old(nextPts) + PTS_STEP
    {
      hide Core, Built, SameSequence, Fits, Sound, EosOk, HasUnit, Ended, LastConfig, Follows, ChangeAllowed, Fresh;
      hide DebtOf, Drained, Landed, OthersKept, Carries, TurnsDone, NoEnd, EndsLast;
      CoreOpen(c);
      KeptRefl(contexts, histories, c);
      ghost var log := histories[c].log;
      var changed := !contexts[c].configured || contexts[c].lastConfig != config;
      if contexts[c].configured && !key && changed {
        var allowed := MayChange(contexts[c].lastConfig, config);
        if !allowed { return false; }
      }
      var pts := TakePts(c, s);
      if pts.None? { return false; }
      var data, inband := unit, None;
      if changed {
        H264Change(log, config, key);
        if contexts[c].configured && inbandUpdates {
          if |unit| + |config| > MAX_INPUT_BYTES { return false; }
          data, inband := config + unit, Some(config);
        } else {
          ok := Announce(c, config, key, pts.value, replies.config);
          if !ok { return false; }
        }
      }
      UnitFollows(H264, histories[c].log, pts.value, key, data, inband);
      ok := FinishH264(c, s, pts.value, key, unit, config, inband, async, replies, old(contexts), old(histories));
    }

    /** The access unit goes out alone under a configuration in force, or behind one of its own. */
    method FinishH264(
      c: nat, s: nat, pts: nat, key: bool, unit: seq<Byte>, config: seq<Byte>, inband: Option<seq<Byte>>, async: bool,
      replies: Replies, ghost cs: seq<Context>, ghost hs: seq<History>)
      returns (ok: bool)
      requires Core(-1) && Settled() && c < |contexts| && contexts[c].used && contexts[c].eos.phase == Open && contexts[c].codec == H264
      requires s < |surfaces| && surfaces[s].used && Issued(pts, s)
      requires inband == Some(config) || (inband == None && contexts[c].configured && contexts[c].lastConfig == config)
      requires Follows(H264, histories[c].log, Access(pts, key, if inband.Some? then config + unit else unit, inband))
      requires OthersKept(cs, hs, contexts, histories, c) && AllRest(cs, hs)
      requires histories[c].tries == hs[c].tries ||
               exists bytes :: histories[c].tries == hs[c].tries + [Try(Config(bytes, key), true)]
      modifies this`contexts, this`surfaces, this`ledger, this`histories
      ensures old(ledger) <= ledger
      ensures Valid() && OthersKept(cs, hs, contexts, histories, c)
      ensures ok ==> Landed(surfaces, histories[c].log, c, s, pts) && Carries(histories[c].log, Some(config), unit, key)
    {
      hide Core, Follows, Landed, OthersKept, Carries, TurnsDone, NoEnd, EndsLast, DebtOf, HistoryGrows;
      ghost var h := histories[c];
      var data := if inband.Some? then config + unit else unit;
      ok := Finish(c, s, pts, key, data, inband, async, replies, cs, hs);
      if ok { UnitCarried(c, h, Access(pts, key, data, inband), config, unit); }
    }

    /** The last step of ending a picture: its access unit, after a configuration that was just taken or without one. */
    method Finish(
      c: nat, s: nat, pts: nat, key: bool, data: seq<Byte>, inband: Option<seq<Byte>>, async: bool, replies: Replies,
      ghost cs: seq<Context>, ghost hs: seq<History>)
      returns (ok: bool)
      requires Core(-1) && Settled() && c < |contexts| && contexts[c].used && contexts[c].eos.phase == Open
      requires s < |surfaces| && surfaces[s].used && Issued(pts, s)
      requires Follows(contexts[c].codec, histories[c].log, Access(pts, key, data, inband))
      requires OthersKept(cs, hs, contexts, histories, c) && AllRest(cs, hs)
      requires histories[c].tries == hs[c].tries ||
               exists bytes :: histories[c].tries == hs[c].tries + [Try(Config(bytes, key), true)]
      modifies this`contexts, this`surfaces, this`ledger, this`histories
      ensures old(ledger) <= ledger
      ensures Valid() && OthersKept(cs, hs, contexts, histories, c)
      ensures Offered(old(histories), histories, c, Access(pts, key, data, inband), ok)
      ensures contexts == if ok then old(contexts)[c := AfterUnit(old(contexts)[c], inband)] else old(contexts)
      ensures ok ==> Landed(surfaces, histories[c].log, c, s, pts)
      ensures async && !replies.reserve ==> !ok
      ensures (async ==> replies.reserve) && replies.unit != Retry ==> ok == (replies.unit == Accept)
      ensures !async && replies.unit != Retry && !old(surfaces)[s].reserved ==>
                && histories[c].events == old(histories)[c].events
                && surfaces == if ok then old(surfaces)[s := Waiting(old(surfaces)[s], c, contexts[c].session, pts)] else old(surfaces)
    {
      hide Core, Follows, Drained, Landed, HistoryGrows, TurnsDone, NoEnd, EndsLast, DebtOf;
      ghost var e := Access(pts, key, data, inband);
      ok := SendUnit(c, s, pts, key, data, inband, async, replies.reserve, replies.unit);
      OfferKept(old(contexts), old(histories), contexts, histories, c, e, ok);
      KeptTrans(cs, hs, old(contexts), old(histories), contexts, histories, c);
      TurnEnds(contexts[c], hs[c], old(histories)[c], histories[c], e, ok);
      if ok { LandedNow(surfaces, histories[c].log, c, s, pts); }
    }

    /** `end_hevc_picture_locked`, once the picture has been prepared. */
    method EndHevc(c: nat, s: nat, config: seq<Byte>, data: seq<Byte>, key: bool, async: bool, replies: Replies) returns (ok: bool)
      requires Valid() && c < |contexts| && contexts[c].used && contexts[c].pictureActive && contexts[c].codec == Hevc
      requires s < |surfaces| && surfaces[s].used
      modifies this`nextPts, this`claimed, this`contexts, this`surfaces, this`ledger, this`histories
      ensures old(ledger) <= ledger
      ensures Valid()
      ensures OthersKept(old(contexts), old(histories), contexts, histories, c)
      ensures ok ==> Landed(surfaces, histories[c].log, c, s, old(nextPts)) && Carries(histories[c].log, Some(config), data, key)
      ensures !key && !(old(contexts)[c].configured && old(contexts)[c].lastConfig == config) ==> !ok && unchanged(this)
      ensures nextPts <= old(nextPts) + PTS_STEP
      ensures Plain(old(surfaces)[s], async, replies, old(nextPts)) ==>
                var e := HevcEnding(old(contexts)[c], Prepared(config, data, key), old(nextPts), replies);
                ok == e.ok && Ends(e, old(surfaces), old(histories), contexts, surfaces, histories, c, s, old(nextPts))
    {
      hide Core, Fits, Sound, EosOk, HasUnit, Ended, LastConfig, Follows, ChangeAllowed, Fresh;
      hide DebtOf, Drained, Landed, OthersKept, Carries, TurnsDone, NoEnd, EndsLast;
      CoreOpen(c);
      KeptRefl(contexts, histories, c);
      ghost var log := histories[c].log;
      var changed := !contexts[c].configured || contexts[c].lastConfig != config;
      if changed && !key { return false; }
      var pts := TakePts(c, s);
      if pts.None? { return false; }
      if changed {
        HevcChange(log, config);
        ok := Announce(c, config, key, pts.value, replies.config);
        if !ok { return false; }
      }
      UnitFollows(Hevc, histories[c].log, pts.value, key, data, None);
      ghost var h := histories[c];
      ok := Finish(c, s, pts.value, key, data, None, async, replies, old(contexts), old(histories));
      if ok { UnitCarried(c, h, Access(pts.value, key, data, None), config, data); }
    }

    /** `end_vp9_picture_locked`. */
    method EndVp9(c: nat, s: nat, frame: Option<seq<Byte>>, key: bool, async: bool, replies: Replies) returns (ok: bool)
      requires Valid() && c < |contexts| && contexts[c].used && contexts[c].pictureActive && contexts[c].codec == Vp9
      requires s < |surfaces| && surfaces[s].used
      modifies this`nextPts, this`claimed, this`contexts, this`surfaces, this`ledger, this`histories
      ensures old(ledger) <= ledger
      ensures Valid()
      ensures OthersKept(old(contexts), old(histories), contexts, histories, c)
      ensures ok ==> Landed(surfaces, histories[c].log, c, s, old(nextPts))
      ensures ok ==> frame.Some? && Carries(histories[c].log, None, frame.value, key)
      ensures !(frame.Some? && (old(contexts)[c].configured || key)) ==> !ok && unchanged(this)
      ensures nextPts <= old(nextPts) + PTS_STEP
      ensures frame.Some? && Plain(old(surfaces)[s], async, replies, old(nextPts)) ==>
                var e := Vp9Ending(old(contexts)[c], frame.value, key, old(nextPts), replies);
                ok == e.ok && Ends(e, old(surfaces), old(histories), contexts, surfaces, histories, c, s, old(nextPts))
    {
      hide Core, Fits, Sound, EosOk, HasUnit, Ended, LastConfig, Follows, ChangeAllowed, Fresh;
      hide DebtOf, Drained, Landed, OthersKept, TurnsDone, NoEnd, EndsLast;
      KeptRefl(contexts, histories, c);
      if frame.None? { return false; }
      CoreOpen(c);
      if !contexts[c].configured && !key { return false; }
      var pts := TakePts(c, s);
      if pts.None? { return false; }
      UnitFollows(Vp9, histories[c].log, pts.value, key, frame.value, None);
      ok := Finish(c, s, pts.value, key, frame.value, None, async, replies, old(contexts), old(histories));
    }

    /** The picture is prepared and ended by the rules of its codec. */
    method EndByCodec(c: nat, s: nat, picture: Picture, inbandUpdates: bool, async: bool, replies: Replies) returns (ok: bool)
      requires Valid() && (picture.HevcPicture? ==> picture.hevc.Shaped())
      requires c < |contexts| && contexts[c].used && contexts[c].pictureActive && s < |surfaces| && surfaces[s].used
      modifies this`nextPts, this`claimed, this`contexts, this`surfaces, this`ledger, this`histories
      ensures old(ledger) <= ledger
      ensures Valid()
      ensures OthersKept(old(contexts), old(histories), contexts, histories, c)
      ensures ok ==> Landed(surfaces, histories[c].log, c, s, old(nextPts)) && CarriesPicture(histories[c].log, picture)
      ensures nextPts <= old(nextPts) + PTS_STEP
      ensures var e := PictureEnding(picture, old(contexts)[c], old(nextPts), replies);
              Plain(old(surfaces)[s], async, replies, old(nextPts)) && e.Some? ==>
                ok == e.value.ok && Ends(e.value, old(surfaces), old(histories), contexts, surfaces, histories, c, s, old(nextPts))
    {
      hide Core, Sound, DebtOf, TurnsDone, NoEnd, EndsLast, Landed, OthersKept, Built, Ends, HevcEnding, Vp9Ending, HevcReady, HevcPrepared, Carries, IsH264Of;
      hide AccessUnit.Normalized, AccessUnit.H264Accepts, AccessUnit.HevcAccepts;
      hide H264Config.Supported, H264Config.CodecConfig, HevcConfig.Supported, HevcConfig.CodecConfig;
      KeptRefl(contexts, histories, c);
      match picture {
        case H264Picture(slices, p) =>
          if contexts[c].codec != H264 { return false; }
          var prepared := PrepareH264(slices, p);
          if prepared.None? { return false; }
          ok := EndH264(c, s, prepared.value.config, prepared.value.data, prepared.value.key, inbandUpdates, async, replies);
        case HevcPicture(slices, p) =>
          if contexts[c].codec != Hevc { return false; }
          var prepared := PrepareHevc(slices, p);
          if prepared.None? { return false; }
          ok := EndHevc(c, s, prepared.value.config, prepared.value.data, prepared.value.key, async, replies);
        case Vp9Picture(frame, key) =>
          if contexts[c].codec != Vp9 { return false; }
          ok := EndVp9(c, s, frame, key, async, replies);
      }
    }

    /** `advc_vaapi_decode_end_picture`: whatever happens, the picture is over. */
    method EndPicture(contextId: int, picture: Picture, inbandUpdates: bool, async: bool, replies: Replies) returns (r: Status)
      requires Valid() && (picture.HevcPicture? ==> picture.hevc.Shaped())
      modifies this`nextPts, this`claimed, this`contexts, this`surfaces, this`ledger, this`histories
      ensures old(ledger) <= ledger
      ensures Valid() && Evolves(old(contexts), old(histories), old(lives), contexts, histories, lives)
      ensures var c := GetContext(old(contexts), contextId);
              && (c < 0 ==> r == InvalidContext && unchanged(this))
              && (c >= 0 && !old(contexts)[c].pictureActive ==> r == OperationFailed && unchanged(this))
              && (c >= 0 && old(contexts)[c].pictureActive ==>
                    && !contexts[c].pictureActive && contexts[c].eos == OPEN_EOS
                    && (forall d :: 0 <= d < |contexts| && d != c ==> contexts[d] == old(contexts)[d] && histories[d] == old(histories)[d])
                    && (r == Success ==>
                          var s := GetSurface(old(surfaces), old(contexts)[c].target);
                          s >= 0 && Landed(surfaces, histories[c].log, c, s, old(nextPts)) && CarriesPicture(histories[c].log, picture)))
      ensures nextPts <= old(nextPts) + PTS_STEP
      ensures var c := GetContext(old(contexts), contextId);
              c >= 0 && old(contexts)[c].pictureActive ==>
                var s, e := GetSurface(old(surfaces), old(contexts)[c].target), PictureEnding(picture, old(contexts)[c], old(nextPts), replies);
                s >= 0 && Plain(old(surfaces)[s], async, replies, old(nextPts)) && e.Some? ==>
                  && (r == Success <==> e.value.ok)
                  && Ends(e.value.(context := e.value.context.(pictureActive := false, target := INVALID)), old(surfaces), old(histories),
                          contexts, surfaces, histories, c, s, old(nextPts))
    {
      hide Core, Sound, DebtOf, TurnsDone, NoEnd, EndsLast, Landed, Evolves, HistoryGrows, PictureEnding, CarriesPicture;
      EvolvesRefl(contexts, histories, lives);
      var c := GetContext(contexts, contextId);
      if c < 0 { return InvalidContext; }
      if !contexts[c].pictureActive { return OperationFailed; }
      CoreEos(c, -1);
      var s := GetSurface(surfaces, contexts[c].target);
      var ok := false;
      KeptRefl(contexts, histories, c);
      if s >= 0 {
        ok := EndByCodec(c, s, picture, inbandUpdates, async, replies);
      }
      KeptEvolves(old(contexts), old(histories), lives, contexts, histories, c);
      ghost var cs := contexts;
      SetPicture(c, false, INVALID);
      PictureEvolves(cs, histories, lives, c, false, INVALID);
      EvolvesTrans(old(contexts), old(histories), lives, cs, histories, lives, contexts, histories, lives);
      return if ok then Success else DecodingError;
    }

    // ---------- public calls ----------

    constructor ()
      ensures Valid() && nextPts == PTS_STEP
      ensures contexts == seq(CONTEXT_SLOTS, _ => NO_CONTEXT) && surfaces == seq(SURFACE_SLOTS, _ => NO_SURFACE)
      ensures histories == seq(CONTEXT_SLOTS, _ => NEW_HISTORY)
    {
      nextPts := PTS_STEP;
      contexts := seq(CONTEXT_SLOTS, _ => NO_CONTEXT);
      surfaces := seq(SURFACE_SLOTS, _ => NO_SURFACE);
      histories := seq(CONTEXT_SLOTS, _ => NEW_HISTORY);
      claimed := map[];
      lives := seq(CONTEXT_SLOTS, _ => 0);
      ledger := [];
    }

    /** `advc_vaapi_decode_create_context`; `session` is whatever number the broker gave, `accepted` the tests before it. */
    method CreateContext(codec: Codec, width: nat, height: nat, session: int, accepted: bool) returns (r: Status, contextId: int)
      requires Valid()
      modifies this`contexts, this`histories, this`lives
      ensures Valid() && Evolves(old(contexts), old(histories), old(lives), contexts, histories, lives) && lives == old(lives)
      ensures r == Success ==>
                exists c :: 0 <= c < |contexts| && contextId == Id(CONTEXT_KIND, c) && !old(contexts)[c].used &&
                  (forall d :: 0 <= d < c ==> old(contexts)[d].used) && contexts == old(contexts)[c := Context(true, codec, session, width, height, false, INVALID, false, [], OPEN_EOS)] &&
                  histories == old(histories)[c := NEW_HISTORY]
      ensures r != Success ==> unchanged(this)
      ensures r == Success <==> accepted && exists c :: 0 <= c < |contexts| && !old(contexts)[c].used
    {
      hide Core, Evolves, DebtOf, TurnsDone, NoEnd, EndsLast;
      EvolvesRefl(contexts, histories, lives);
      contextId := INVALID;
      if !accepted { return OperationFailed, contextId; }
      var c := 0;
      while c < |contexts| && contexts[c].used
        invariant c <= |contexts| && unchanged(this)
        invariant forall d :: 0 <= d < c ==> contexts[d].used
      {
        c := c + 1;
      }
      if c == |contexts| { return MaxNumExceeded, contextId; }
      CoreUnowned(c);
      FillSlot(c, NewContext(codec, width, height, session));
      SlotEvolves(old(contexts), old(histories), old(lives), c, contexts[c], NEW_HISTORY);
      return Success, Id(CONTEXT_KIND, c);
    }

    /** A context slot nothing belongs to is filled, or emptied and its next life begun, with a new history. */
    method FillSlot(c: nat, z: Context)
      requires Valid() && c < |contexts| && (z.used ==> z.eos == OPEN_EOS && !z.pictureActive && !z.configured)
      requires forall s :: 0 <= s < |surfaces| && surfaces[s].used ==> surfaces[s].owner != Id(CONTEXT_KIND, c)
      modifies this`contexts, this`histories, this`lives
      ensures Valid() && contexts == old(contexts)[c := z] && histories == old(histories)[c := NEW_HISTORY]
      ensures lives == if old(contexts)[c].used then old(lives)[c := old(lives)[c] + 1] else old(lives)
    {
      hide Core, Sound, ContextOk, ConfigsOk, Balanced;
      NewContextOk(nextPts, z);
      CoreIsSound(-1);
      SlotUpdate(nextPts, contexts, surfaces, histories, claimed, -1, c, z, NEW_HISTORY);
      if contexts[c].used {
        EmptyingKeepsBalance(ledger, contexts, surfaces, histories, lives, c, z);
        lives := lives[c := lives[c] + 1];
      } else {
        FillingKeepsBalance(ledger, contexts, surfaces, histories, lives, c, z);
      }
      contexts := contexts[c := z];
      histories := histories[c := NEW_HISTORY];
      SoundIsCore(-1);
    }

    /** `advc_vaapi_decode_destroy_context`: its surfaces are released and forget it. */
    method DestroyContext(contextId: int) returns (r: Status)
      requires Valid()
      modifies this`contexts, this`surfaces, this`ledger, this`histories, this`lives
      ensures old(ledger) <= ledger
      ensures Valid() && Evolves(old(contexts), old(histories), old(lives), contexts, histories, lives)
      ensures var c := GetContext(old(contexts), contextId);
              && (c < 0 ==> r == InvalidContext && unchanged(this))
              && (c >= 0 ==>
                    && r == Success && contexts == old(contexts)[c := NO_CONTEXT]
                    && lives == old(lives)[c := old(lives)[c] + 1]
                    && (forall j :: |old(ledger)| <= j < |ledger| ==> ledger[j].Returned? && ledger[j].to == c)
                    && (forall s :: 0 <= s < |surfaces| && old(surfaces)[s].used && old(surfaces)[s].owner == contextId ==>
                          surfaces[s].used && surfaces[s].state == Idle && surfaces[s].owner == 0 && surfaces[s].bufferId == 0)
                    && (forall s :: 0 <= s < |surfaces| && !(old(surfaces)[s].used && old(surfaces)[s].owner == contextId) ==>
                          surfaces[s] == old(surfaces)[s]))
    {
      hide Core, Sound, Evolves, DebtOf, TurnsDone, NoEnd, EndsLast;
      EvolvesRefl(contexts, histories, lives);
      var c := GetContext(contexts, contextId);
      if c < 0 { return InvalidContext; }
      for i := 0 to |surfaces|
        invariant Valid() && |surfaces| == |old(surfaces)| && contexts == old(contexts) && histories == old(histories) && lives == old(lives)
        invariant old(ledger) <= ledger && forall j :: |old(ledger)| <= j < |ledger| ==> ledger[j].Returned? && ledger[j].to == c
        invariant forall s :: 0 <= s < |surfaces| ==>
                    surfaces[s] == if s < i && old(surfaces)[s].used && old(surfaces)[s].owner == contextId
                                   then NewSurface(old(surfaces)[s].width, old(surfaces)[s].height)
                                   else old(surfaces)[s]
      {
        if surfaces[i].used && surfaces[i].owner == contextId {
          var _ := ReleaseSurface(i, -1);
        }
      }
      FillSlot(c, NO_CONTEXT);
      SlotEvolves(old(contexts), old(histories), old(lives), c, NO_CONTEXT, NEW_HISTORY);
      return Success;
    }

    /**
      `advc_vaapi_decode_create_surfaces`: the first free slots, as many as asked for, or none; `accepted` stands for the
      tests on the format, the size limits and the attributes.
     */
    method CreateSurfaces(width: nat, height: nat, count: nat, accepted: bool) returns (r: Status, ids: seq<int>)
      requires Valid()
      modifies this`surfaces
      ensures Valid()
      ensures var free, asked := FreeBelow(old(surfaces), |old(surfaces)|), accepted && 0 < count <= SURFACE_SLOTS && width > 0 && height > 0;
              && (r == Success <==> asked && count <= |free|)
              && (r == MaxNumExceeded <==> asked && count > |free|)
              && (r != Success ==> surfaces == old(surfaces))
              && (r == Success ==>
                    && ids == IdsOf(free[..count]) && |surfaces| == |old(surfaces)|
                    && forall s :: 0 <= s < |surfaces| ==>
                         surfaces[s] == if s in free[..count] then Surface(true, width, height, Idle, 0, 0, 0, 0, false) else old(surfaces)[s])
    {
      hide Core, DebtOf, TurnsDone, NoEnd, EndsLast, FreeBelow;
      ids := [];
      if !accepted || count == 0 || count > SURFACE_SLOTS || width == 0 || height == 0 { return Unsupported, ids; }
      CoreUnused();
      FreeAreFree(surfaces, |surfaces|);
      var slots := Allocate(width, height, count);
      if |slots| != count {
        forall k | 0 <= k < |slots| ensures slots[k] < |surfaces| {
          assert slots[k] in slots;
        }
        Rollback(slots);
        assert surfaces == old(surfaces);
        return MaxNumExceeded, ids;
      }
      return Success, IdsOf(slots);
    }

    /** Fills free slots in order, up to `count` of them. */
    method Allocate(width: nat, height: nat, count: nat) returns (slots: seq<nat>)
      requires Valid()
      modifies this`surfaces
      ensures Valid() && |surfaces| == |old(surfaces)| && |slots| <= count
      ensures slots <= FreeBelow(old(surfaces), |old(surfaces)|)
      ensures |slots| < count ==> slots == FreeBelow(old(surfaces), |old(surfaces)|)
      ensures forall s :: 0 <= s < |surfaces| ==> surfaces[s] == if s in slots then NewSurface(width, height) else old(surfaces)[s]
    {
      hide Core, Sound, DebtOf, TurnsDone, NoEnd, EndsLast;
      slots := [];
      var i := 0;
      while i < |surfaces| && |slots| < count
        invariant Valid() && i <= |surfaces| == |old(surfaces)| && |slots| <= count && slots == FreeBelow(old(surfaces), i)
        invariant forall s :: 0 <= s < |surfaces| ==> surfaces[s] == if s in slots then NewSurface(width, height) else old(surfaces)[s]
      {
        FreeAreFree(old(surfaces), i);
        if !surfaces[i].used {
          CoreAgrees(i, -1);
          SetSurface(i, NewSurface(width, height), -1);
          slots := slots + [i];
        }
        i := i + 1;
      }
      FreeGrows(old(surfaces), i, |old(surfaces)|);
    }

    /** Clears the slots that have just been filled. */
    method Rollback(slots: seq<nat>)
      requires Valid() && forall k :: 0 <= k < |slots| ==> slots[k] < |surfaces| && surfaces[slots[k]].bufferId == 0
      modifies this`surfaces
      ensures Valid() && |surfaces| == |old(surfaces)|
      ensures forall s :: 0 <= s < |surfaces| ==> surfaces[s] == if s in slots then NO_SURFACE else old(surfaces)[s]
    {
      hide Core, Sound, DebtOf, TurnsDone, NoEnd, EndsLast;
      for k := 0 to |slots|
        invariant Valid() && |surfaces| == |old(surfaces)|
        invariant forall s :: 0 <= s < |surfaces| ==> surfaces[s] == if s in slots[..k] then NO_SURFACE else old(surfaces)[s]
      {
        assert slots[..k + 1] == slots[..k] + [slots[k]];
        CoreAgrees(slots[k], -1);
        SetSurface(slots[k], NO_SURFACE, -1);
      }
      assert slots[..|slots|] == slots;
    }

    lemma CoreUnused()
      requires Core(-1)
      ensures forall s :: 0 <= s < |surfaces| && !surfaces[s].used ==> surfaces[s] == NO_SURFACE
    {
      forall s | 0 <= s < |surfaces| && !surfaces[s].used ensures surfaces[s] == NO_SURFACE {
        CoreSurface(s, -1);
      }
    }

    /**
      `advc_vaapi_decode_destroy_surfaces`: allowed in any state, once every id is known. A repeated id names a surface
      that is gone by its second turn, and the source then looks inside a lookup that found nothing; the call ends there.
     */
    method DestroySurfaces(ids: seq<int>) returns (r: Status)
      requires Valid()
      modifies this`surfaces, this`ledger
      ensures old(ledger) <= ledger
      ensures Valid()
      ensures forall j :: |old(ledger)| <= j < |ledger| ==> ledger[j].Returned?
      ensures r == Success <==> AllKnown(old(surfaces), ids) && Unrepeated(ids)
      ensures r == MissingSurface <==> AllKnown(old(surfaces), ids) && !Unrepeated(ids)
      ensures r == InvalidSurface <==> !AllKnown(old(surfaces), ids)
      ensures r == InvalidSurface ==> unchanged(this)
      ensures r == Success ==> forall s :: 0 <= s < |surfaces| ==>
                surfaces[s] == if old(surfaces)[s].used && Id(SURFACE_KIND, s) in ids then NO_SURFACE else old(surfaces)[s]
      ensures forall s :: 0 <= s < |surfaces| && surfaces[s] != old(surfaces)[s] ==>
                surfaces[s] == NO_SURFACE && Id(SURFACE_KIND, s) in ids
    {
      hide Core, Sound, DebtOf, TurnsDone, NoEnd, EndsLast;
      for i := 0 to |ids|
        invariant unchanged(this)
        invariant forall k :: 0 <= k < i ==> GetSurface(surfaces, ids[k]) >= 0
      {
        var s := GetSurface(surfaces, ids[i]);
        if s < 0 { return InvalidSurface; }
      }
      for i := 0 to |ids|
        invariant Valid() && Unrepeated(ids[..i]) && old(ledger) <= ledger
        invariant forall j :: |old(ledger)| <= j < |ledger| ==> ledger[j].Returned?
        invariant forall s :: 0 <= s < |surfaces| ==>
                    surfaces[s] == if old(surfaces)[s].used && Id(SURFACE_KIND, s) in ids[..i] then NO_SURFACE else old(surfaces)[s]
      {
        assert GetSurface(old(surfaces), ids[i]) >= 0;
        assert ids[..i + 1] == ids[..i] + [ids[i]];
        var s := GetSurface(surfaces, ids[i]);
        if s < 0 {
          var k :| 0 <= k < i && ids[..i][k] == ids[i];
          assert ids[k] == ids[i];
          return MissingSurface;
        }
        assert ids[i] !in ids[..i];
        ClearSurface(s);
      }
      assert ids[..|ids|] == ids;
      return Success;
    }

    /** What the surface holds is given back and its slot is free. */
    method ClearSurface(s: nat)
      requires Valid() && s < |surfaces| && surfaces[s].used
      modifies this`surfaces, this`ledger
      ensures Valid() && surfaces == old(surfaces)[s := NO_SURFACE] && old(ledger) <= ledger
      ensures forall j :: |old(ledger)| <= j < |ledger| ==> ledger[j].Returned?
    {
      hide Core, Sound, DebtOf, TurnsDone, NoEnd, EndsLast;
      var _ := ReleaseSurface(s, -1);
      CoreAgrees(s, -1);
      SetSurface(s, NO_SURFACE, -1);
    }

    /** Naming one surface twice is enough. */
    method DestroyTwice(surfaceId: int) returns (r: Status)
      requires Valid() && GetSurface(surfaces, surfaceId) >= 0
      modifies this`surfaces, this`ledger
      ensures old(ledger) <= ledger
      ensures r == MissingSurface
    {
      var ids := [surfaceId, surfaceId];
      assert ids[0] == ids[1];
      r := DestroySurfaces(ids);
    }

    /** The first critical section of `advc_vaapi_decode_begin_picture`; `Again` sends the caller to wait for the surface. */
    method BeginPicture(contextId: int, target: int) returns (r: Status)
      requires Valid()
      modifies this`contexts, this`surfaces, this`ledger
      ensures old(ledger) <= ledger
      ensures Valid() && Evolves(old(contexts), old(histories), old(lives), contexts, histories, lives)
      ensures r != Success ==> unchanged(this)
      ensures var c, s := GetContext(old(contexts), contextId), GetSurface(old(surfaces), target);
              && (r == Success || r == Again || r == DecodingError <==> CanBegin(old(contexts), old(surfaces), contextId, target))
              && (r == Again ==> old(surfaces)[s].state == Pending) && (r == DecodingError ==> old(surfaces)[s].state == Error)
              && (r == Success ==> old(surfaces)[s].state == Idle || old(surfaces)[s].state == Ready)
      ensures r == Success ==> Begun(old(contexts), old(surfaces), contexts, surfaces, contextId, target)
      ensures ledger == old(ledger) +
              (if r == Success then GivenBack(old(contexts), old(surfaces), GetSurface(old(surfaces), target)) else [])
    {
      hide Core, Sound, Evolves, DebtOf, TurnsDone, NoEnd, EndsLast;
      EvolvesRefl(contexts, histories, lives);
      var c, s := GetContext(contexts, contextId), GetSurface(surfaces, target);
      if c < 0 { return InvalidContext; }
      if s < 0 { return InvalidSurface; }
      if !MayBegin(contexts[c], surfaces[s]) { return OperationFailed; }
      if surfaces[s].state == Pending { return Again; }
      if surfaces[s].state == Error { return DecodingError; }
      var _ := ReleaseSurface(s, -1);
      SetPicture(c, true, target);
      PictureEvolves(old(contexts), histories, lives, c, true, target);
      return Success;
    }

    /** The second critical section, after the wait: everything is looked up and tested again. */
    method ResumePicture(contextId: int, target: int) returns (r: Status)
      requires Valid()
      modifies this`contexts, this`surfaces, this`ledger
      ensures old(ledger) <= ledger
      ensures Valid() && Evolves(old(contexts), old(histories), old(lives), contexts, histories, lives)
      ensures r != Success ==> unchanged(this)
      ensures r == Success <==>
              CanBegin(old(contexts), old(surfaces), contextId, target) && old(surfaces)[GetSurface(old(surfaces), target)].state != Error
      ensures r == Success ==> Begun(old(contexts), old(surfaces), contexts, surfaces, contextId, target)
      ensures ledger == old(ledger) +
              (if r == Success then GivenBack(old(contexts), old(surfaces), GetSurface(old(surfaces), target)) else [])
    {
      hide Core, Sound, Evolves, DebtOf, TurnsDone, NoEnd, EndsLast;
      EvolvesRefl(contexts, histories, lives);
      var c, s := GetContext(contexts, contextId), GetSurface(surfaces, target);
      if c < 0 { return InvalidContext; }
      if s < 0 { return InvalidSurface; }
      if !MayBegin(contexts[c], surfaces[s]) { return OperationFailed; }
      if surfaces[s].state == Error { return DecodingError; }
      var _ := ReleaseSurface(s, -1);
      SetPicture(c, true, target);
      PictureEvolves(old(contexts), histories, lives, c, true, target);
      return Success;
    }

    /** `advc_vaapi_decode_signal_eos_private`: refused while a picture is open. */
    method SignalEos(contextId: int, reply: Reply) returns (r: EosResult)
      requires Valid()
      modifies this`contexts, this`histories
      ensures Valid() && Evolves(old(contexts), old(histories), old(lives), contexts, histories, lives)
      ensures var c := GetContext(old(contexts), contextId);
              && (c < 0 ==> r == BadContext && unchanged(this))
              && (c >= 0 && old(contexts)[c].pictureActive ==> r == BadArgument && unchanged(this))
              && (c >= 0 && !old(contexts)[c].pictureActive ==>
                    && contexts[c].eos.phase != Open && contexts == old(contexts)[c := old(contexts)[c].(eos := contexts[c].eos)]
                    && (old(contexts)[c].eos.phase in {Open, SignalPending} ==> (contexts[c].eos.phase == Draining <==> reply == Accept)))
              && (c >= 0 && Ended(old(histories)[c].log) ==> histories[c].log == old(histories)[c].log)
    {
      hide Core, Sound, Evolves, DebtOf, TurnsDone, NoEnd, EndsLast, Ended, EosOk, EosAdvances;
      EvolvesRefl(contexts, histories, lives);
      var c := GetContext(contexts, contextId);
      if c < 0 { return BadContext; }
      if contexts[c].pictureActive { return BadArgument; }
      SignalFollows(c);
      r := SignalLocked(c, reply);
      assert histories == old(histories)[c := histories[c]] && HistoryGrows(old(histories)[c], histories[c]);
      OneEvolves(old(contexts), old(histories), lives, contexts, histories, c);
    }

    lemma SignalFollows(c: nat)
      requires Core(-1) && c < |contexts| && contexts[c].used
      ensures Ended(histories[c].log) ==> contexts[c].eos.phase != Open && contexts[c].eos.phase != SignalPending
    {
      hide Core;
      CoreEos(c, -1);
    }

    /** `advc_vaapi_decode_progress_eos_private`. */
    method ProgressEos(contextId: int, max: nat, feeds: seq<Feed>) returns (r: EosResult)
      requires Valid()
      modifies this`contexts, this`surfaces, this`ledger, this`histories
      ensures old(ledger) <= ledger
      ensures Valid() && Evolves(old(contexts), old(histories), old(lives), contexts, histories, lives)
      ensures |contexts| == |old(contexts)|
      ensures var c := GetContext(old(contexts), contextId);
              && (c >= 0 ==> AllDrained(old(surfaces), surfaces, old(contexts)[c].session))
              && (c < 0 ==> r == BadContext && unchanged(this))
              && (c >= 0 ==> contexts == old(contexts)[c := old(contexts)[c].(eos := contexts[c].eos)])
              && (c >= 0 && old(contexts)[c].eos.phase in {Open, Complete, Failed} ==> unchanged(this))
              && (c >= 0 && r == Done ==> contexts[c].eos.phase == Complete && Completed(surfaces, c))
              && (c >= 0 && r == Broken ==> contexts[c].eos.phase == Failed)
              && (c >= 0 && 0 < max <= MAX_PROGRESS_OUTPUTS && old(contexts)[c].eos.phase == Draining && EndsStream(FeedAt(feeds, 0)) ==>
                    r == Done && Marked(old(surfaces), surfaces, old(contexts)[c].session))
              && (c >= 0 ==> contexts[c].eos.outputs <= old(contexts)[c].eos.outputs + max)
    {
      hide Core, Sound, Evolves, DebtOf, TurnsDone, NoEnd, EndsLast, EosAdvances, AllDrained, SomeReady;
      EvolvesRefl(contexts, histories, lives);
      var c := GetContext(contexts, contextId);
      if c < 0 { return BadContext; }
      var frames, held;
      r, frames, held := ProgressLocked(c, max, feeds);
      ProgressedEvolves(old(contexts), old(histories), lives, contexts, histories, c);
      ProgressedUsed(old(contexts), old(histories), contexts, histories, c);
      if contexts[c].eos.phase == Complete { CoreComplete(c); }
    }

    /** One turn of the loop of `advc_vaapi_decode_sync_surface`, which lets go of the mutex between turns. */
    method SyncStep(surfaceId: int, feed: Feed) returns (r: Status)
      requires Valid()
      modifies this`contexts, this`surfaces, this`ledger, this`histories
      ensures old(ledger) <= ledger
      ensures Valid() && Evolves(old(contexts), old(histories), old(lives), contexts, histories, lives)
      ensures var s := GetSurface(old(surfaces), surfaceId);
              && (s >= 0 && old(surfaces)[s].state == Pending ==> AllDrained(old(surfaces), surfaces, old(surfaces)[s].session))
              && (s < 0 ==> r == InvalidSurface)
              && (s >= 0 && old(surfaces)[s].state == Ready ==> r == Success)
              && (s >= 0 && old(surfaces)[s].state == Error ==> r == DecodingError)
              && (s >= 0 && old(surfaces)[s].state == Idle ==> r == OperationFailed)
              && (s >= 0 && old(surfaces)[s].state == Pending ==>
                    && r == Again
                    && var c := GetContext(old(contexts), old(surfaces)[s].owner);
                       && c >= 0 && Progressed(old(contexts), old(histories), contexts, histories, c)
                       && (old(contexts)[c].eos.phase == Open ==> contexts == old(contexts))
                       && (old(contexts)[c].eos.phase == Open && feed.reply.Got? ==>
                             exists m :: Drains(old(surfaces), old(histories), old(ledger), surfaces, histories, ledger, c, m, old(contexts)[c].session, lives[c], feed)))
              && (s < 0 || old(surfaces)[s].state != Pending ==> unchanged(this))
    {
      hide Core, Sound, Evolves, DebtOf, TurnsDone, NoEnd, EndsLast, EosAdvances, AllDrained, SomeReady, Drains;
      EvolvesRefl(contexts, histories, lives);
      var s := GetSurface(surfaces, surfaceId);
      if s < 0 { return InvalidSurface; }
      if surfaces[s].state == Error { return DecodingError; }
      if surfaces[s].state == Ready { return Success; }
      var c := GetContext(contexts, surfaces[s].owner);
      CoreSurface(s, -1);
      if surfaces[s].state == Idle || c < 0 { return OperationFailed; }
      var _ := DrainOne(c, feed);
      ProgressedEvolves(old(contexts), old(histories), lives, contexts, histories, c);
      return Again;
    }

    /** `advc_vaapi_decode_query_surface_status`: drains as long as frames come and this surface is not among them. */
    method QueryStatus(surfaceId: int, feeds: seq<Feed>) returns (r: Status, ready: bool)
      requires Valid()
      modifies this`contexts, this`surfaces, this`ledger, this`histories
      ensures old(ledger) <= ledger
      ensures Valid() && Evolves(old(contexts), old(histories), old(lives), contexts, histories, lives)
      ensures var s := GetSurface(old(surfaces), surfaceId);
              && (s >= 0 && old(surfaces)[s].state == Pending ==> AllDrained(old(surfaces), surfaces, old(surfaces)[s].session))
              && (s < 0 ==> r == InvalidSurface && unchanged(this))
              && (s >= 0 && old(surfaces)[s].state != Pending ==> unchanged(this))
              && (s >= 0 && r == Success ==> surfaces[s].state != Error && (ready <==> surfaces[s].state != Pending))
              && (s >= 0 && r != Success ==> r == DecodingError && surfaces[s].state == Error)
              && (s >= 0 && old(surfaces)[s].state == Pending ==>
                    var c := GetContext(old(contexts), old(surfaces)[s].owner);
                    c >= 0 && Progressed(old(contexts), old(histories), contexts, histories, c))
    {
      hide Core, Sound, Evolves, DebtOf, TurnsDone, NoEnd, EndsLast, Progressed, Drained, SomeReady;
      EvolvesRefl(contexts, histories, lives);
      ready := false;
      var s := GetSurface(surfaces, surfaceId);
      if s < 0 { return InvalidSurface, false; }
      var c := GetContext(contexts, surfaces[s].owner);
      CoreSurface(s, -1);
      if surfaces[s].state == Pending && c >= 0 {
        ProgressedRefl(contexts, histories, c);
        DrainedRefl(surfaces, contexts[c].session);
        assert contexts[c].session == surfaces[s].session;
        var count := 0;
        while count < SURFACE_SLOTS && surfaces[s].state == Pending
          invariant count <= SURFACE_SLOTS && Valid() && |contexts| == |old(contexts)| && contexts[c].used && old(ledger) <= ledger
          invariant contexts[c].session == old(contexts)[c].session
          invariant AllDrained(old(surfaces), surfaces, old(contexts)[c].session) && Progressed(old(contexts), old(histories), contexts, histories, c)
        {
          ghost var cs, ss, hs := contexts, surfaces, histories;
          var drained := DrainOne(c, FeedAt(feeds, count));
          ProgressedTrans(old(contexts), old(histories), cs, hs, contexts, histories, c);
          ProgressedUsed(cs, hs, contexts, histories, c);
          DrainedTrans(old(surfaces), ss, surfaces, contexts[c].session);
          if drained <= 0 { break; }
          count := count + 1;
        }
        ProgressedEvolves(old(contexts), old(histories), lives, contexts, histories, c);
      }
      if surfaces[s].state == Error { return DecodingError, false; }
      return Success, surfaces[s].state != Pending;
    }

    // ---------- runs ----------

    /** What every session's log and list of offers look like. */
    ghost predicate LawfulLogs()
      reads this
      requires |contexts| == |histories|
    {
      forall c :: 0 <= c < |contexts| && contexts[c].used ==>
        && LogRules(contexts[c].codec, histories[c].log)
        && (contexts[c].codec == Hevc ==> StartsLate(histories[c].tries))
        && EndsLast(histories[c].tries) && (contexts[c].eos.phase == Open <==> NoEnd(histories[c].tries))
        && (contexts[c].pictureActive ==> contexts[c].eos == OPEN_EOS && !Ended(histories[c].log))
        && (contexts[c].eos.phase == Complete ==> Completed(surfaces, c))
    }

    /** What every pending surface waits for: an access unit its context's broker took, at a timestamp of its own. */
    ghost predicate LawfulSurfaces()
      reads this
      requires |contexts| == |histories|
    {
      && (forall s, t :: 0 <= s < |surfaces| && 0 <= t < |surfaces| && IsPending(surfaces[s]) && IsPending(surfaces[t]) ==>
            surfaces[s].pts == surfaces[t].pts ==> s == t)
      && (forall s :: 0 <= s < |surfaces| && IsPending(surfaces[s]) ==>
            var c := GetContext(contexts, surfaces[s].owner); c >= 0 && Accepted(histories[c].log, surfaces[s].pts))
    }

    /** Every lease attached is held by the surface that took it, which has an owner to return it to, or has ended. */
    ghost predicate LeasesKept()
      reads this
    {
      && LeaseLedger.Honest(ledger) && Conserved(ledger, surfaces, histories, lives)
      && (forall s :: 0 <= s < |surfaces| && surfaces[s].used && surfaces[s].bufferId != 0 ==>
            var c := GetContext(contexts, surfaces[s].owner); c >= 0 && contexts[c].session == surfaces[s].session)
    }

    lemma LeasesAreKept()
      requires Core(-1)
      ensures LeasesKept()
    {
      forall s | 0 <= s < |surfaces| && surfaces[s].used && surfaces[s].bufferId != 0
        ensures var c := GetContext(contexts, surfaces[s].owner); c >= 0 && contexts[c].session == surfaces[s].session
      {
        CoreSurface(s, -1);
      }
      hide Sound, Conserved, LeaseLedger.Honest;
      BalancedIsConserved(ledger, contexts, surfaces, histories, lives);
    }

    /** With a session number of its own, a context's outputs go only to surfaces it owns. */
    lemma OutputsStayWithOwner(c: nat, pts: nat, s: nat)
      requires Core(-1) && c < |contexts| && s < |surfaces| && Matches(surfaces[s], pts, contexts[c].session)
      requires forall d :: 0 <= d < |contexts| && d != c && contexts[d].used ==> contexts[d].session != contexts[c].session
      ensures surfaces[s].owner == Id(CONTEXT_KIND, c)
      ensures LeaseLedger.SlotAfter(ledger, s).keeper == Some(c)
    {
      CoreSurface(s, -1);
      CoreAgrees(s, -1);
    }

    lemma ValidIsLawful()
      requires Valid()
      ensures LawfulLogs() && LawfulSurfaces() && LeasesKept()
    {
      LeasesAreKept();
      hide LogRules, StartsLate, DebtOf, Sound, TurnsDone, NoEnd, EndsLast, Ended, Accepted, Completed, Fits, Taken, EosOk, Conserved;
      forall c | 0 <= c < |contexts| && contexts[c].used
        ensures LogRules(contexts[c].codec, histories[c].log) && (contexts[c].codec == Hevc ==> StartsLate(histories[c].tries))
        ensures EndsLast(histories[c].tries) && (contexts[c].eos.phase == Open <==> NoEnd(histories[c].tries))
        ensures contexts[c].pictureActive ==> contexts[c].eos == OPEN_EOS && !Ended(histories[c].log)
        ensures contexts[c].eos.phase == Complete ==> Completed(surfaces, c)
      {
        CoreContext(c, -1);
        assert RestOk(contexts[c], histories[c]);
        RulesHold(contexts[c].codec, histories[c]);
        if contexts[c].pictureActive { ActiveMeansOpen(nextPts, contexts, surfaces, histories, claimed, c); }
        if contexts[c].eos.phase == Complete { CoreComplete(c); }
      }
      forall s, t | 0 <= s < |surfaces| && 0 <= t < |surfaces| && IsPending(surfaces[s]) && IsPending(surfaces[t]) &&
                    surfaces[s].pts == surfaces[t].pts
        ensures s == t
      {
        TimestampsAreUnique(nextPts, contexts, surfaces, histories, claimed, -1, -1, s, t);
      }
      forall s | 0 <= s < |surfaces| && IsPending(surfaces[s])
        ensures var c := GetContext(contexts, surfaces[s].owner); c >= 0 && Accepted(histories[c].log, surfaces[s].pts)
      {
        PendingWasAccepted(nextPts, contexts, surfaces, histories, claimed, s);
      }
    }

    lemma CoreTaken(c: nat)
      requires Core(-1) && c < |contexts| && contexts[c].used
      ensures Fits(contexts[c].codec, histories[c].log) && histories[c].log == Taken(histories[c].tries)
    {
      hide Fits, Taken, EosOk, ConfigsOk, SurfaceOk;
      assert ContextOk(nextPts, contexts[c], histories[c]);
    }

    /**
      Contexts that were not destroyed since: what had completed or failed is as it was, nothing waits for what had
      completed, and what had been asked to end has been offered nothing but its end, and nothing once that was taken.
     */
    ghost predicate StayedDone(cs: seq<Context>, hs: seq<History>, ls: seq<nat>)
      reads this
      requires |cs| == |hs| == |ls| == |contexts| == |histories| == |lives|
    {
      forall c :: 0 <= c < |cs| && cs[c].used && lives[c] == ls[c] ==>
        && contexts[c].used
        && (cs[c].eos.phase == Complete ==> contexts[c].eos == cs[c].eos && Completed(surfaces, c))
        && (cs[c].eos.phase == Failed ==> contexts[c].eos == cs[c].eos)
        && (Ended(hs[c].log) ==> histories[c].log == hs[c].log)
        && OffersMove(cs[c].eos.phase, hs[c].tries, histories[c].tries)
        && (cs[c].eos.phase == SignalPending ==> histories[c].log == hs[c].log || histories[c].log == hs[c].log + [EndOfStream])
        && (cs[c].eos.phase != Open && cs[c].eos.phase != SignalPending ==> histories[c].log == hs[c].log)
    }

    lemma EvolvesStaysDone(cs: seq<Context>, hs: seq<History>, ls: seq<nat>)
      requires Valid() && Evolves(cs, hs, ls, contexts, histories, lives)
      requires forall c :: 0 <= c < |cs| && cs[c].used ==> hs[c].log == Taken(hs[c].tries)
      ensures StayedDone(cs, hs, ls)
    {
      hide DebtOf, Sound, TurnsDone, NoEnd, EndsLast, Core, Ended, Completed, EosOk, Fits, Taken, OnlyEnds;
      forall c | 0 <= c < |cs| && cs[c].used && lives[c] == ls[c]
        ensures contexts[c].used
        ensures cs[c].eos.phase == Complete ==> contexts[c].eos == cs[c].eos && Completed(surfaces, c)
        ensures cs[c].eos.phase == Failed ==> contexts[c].eos == cs[c].eos
        ensures Ended(hs[c].log) ==> histories[c].log == hs[c].log
        ensures OffersMove(cs[c].eos.phase, hs[c].tries, histories[c].tries)
        ensures cs[c].eos.phase == SignalPending ==> histories[c].log == hs[c].log || histories[c].log == hs[c].log + [EndOfStream]
        ensures cs[c].eos.phase != Open && cs[c].eos.phase != SignalPending ==> histories[c].log == hs[c].log
      {
        assert ContextMoves(cs[c], contexts[c]) && HistoryGrows(hs[c], histories[c]);
        assert OffersMove(cs[c].eos.phase, hs[c].tries, histories[c].tries);
        CoreTaken(c);
        if cs[c].eos.phase == SignalPending {
          OnlyEndTaken(contexts[c].codec, hs[c].tries, histories[c].tries);
        }
        if cs[c].eos.phase == Complete { CoreComplete(c); }
        if Ended(hs[c].log) {
          CoreContext(c, -1);
          EndIsFinal(contexts[c].codec, hs[c].log, histories[c].log);
        }
      }
    }

    /**
      Makes the calls in order, each with arbitrary replies from outside, up to one that ends on a missing surface. The
      invariant holds after every one; a context is replaced only if one of the calls destroys it; no other history is
      ever rewritten; complete, failed and ended sessions stay so; and every log obeys its codec's rules.
     */
    method Run(calls: seq<Call>)
      requires Valid() && forall k :: 0 <= k < |calls| ==> Sane(calls[k])
      modifies this
      ensures old(ledger) <= ledger
      ensures Valid() && Evolves(old(contexts), old(histories), old(lives), contexts, histories, lives)
      ensures StayedDone(old(contexts), old(histories), old(lives)) && LawfulLogs() && LawfulSurfaces() && LeasesKept()
      ensures forall c :: 0 <= c < |lives| && Undestroyed(calls, c) ==> lives[c] == old(lives)[c]
    {
      hide Core, DebtOf, TurnsDone, NoEnd, EndsLast, Evolves, StayedDone, LawfulLogs, LawfulSurfaces, LeasesKept, Undestroyed, Sane;
      EvolvesRefl(contexts, histories, lives);
      AllTaken();
      ghost var cs0, hs0 := contexts, histories;
      for i := 0 to |calls|
        invariant Valid() && Evolves(old(contexts), old(histories), old(lives), contexts, histories, lives)
        invariant forall c :: 0 <= c < |lives| && Undestroyed(calls, c) ==> lives[c] == old(lives)[c]
        invariant old(ledger) <= ledger
      {
        ghost var cs, hs, ls := contexts, histories, lives;
        var gone := Perform(calls[i]);
        EvolvesTrans(old(contexts), old(histories), old(lives), cs, hs, ls, contexts, histories, lives);
        forall c | 0 <= c < |lives| && Undestroyed(calls, c) ensures lives[c] == old(lives)[c] {
          UndestroyedAt(calls, c, i);
        }
        if gone { break; }
      }
      ValidIsLawful();
      EvolvesStaysDone(cs0, hs0, old(lives));
    }

    lemma AllTaken()
      requires Core(-1)
      ensures forall c :: 0 <= c < |contexts| && contexts[c].used ==> histories[c].log == Taken(histories[c].tries)
    {
      hide Core, Taken;
      forall c | 0 <= c < |contexts| && contexts[c].used ensures histories[c].log == Taken(histories[c].tries) {
        CoreTaken(c);
      }
    }

    method Perform(call: Call) returns (gone: bool)
      requires Valid() && Sane(call)
      modifies this
      ensures old(ledger) <= ledger
      ensures Valid() && Evolves(old(contexts), old(histories), old(lives), contexts, histories, lives)
      ensures forall c :: 0 <= c < |lives| && lives[c] != old(lives)[c] ==> call == Call.DestroyContext(Id(CONTEXT_KIND, c))
    {
      hide Core, DebtOf, TurnsDone, NoEnd, EndsLast, Evolves, AllDrained, Progressed, Landed, FreeBelow;
      gone := false;
      EvolvesRefl(contexts, histories, lives);
      match call {
        case CreateContext(codec, width, height, session, accepted) => var _, _ := CreateContext(codec, width, height, session, accepted);
        case DestroyContext(id) => var _ := DestroyContext(id);
        case CreateSurfaces(width, height, count, accepted) => var _, _ := CreateSurfaces(width, height, count, accepted);
        case DestroySurfaces(ids) =>
          var r := DestroySurfaces(ids);
          gone := r == MissingSurface;
        case BeginPicture(id, target) => var _ := BeginPicture(id, target);
        case ResumePicture(id, target) => var _ := ResumePicture(id, target);
        case EndPicture(id, picture, inbandUpdates, async, replies) => var _ := EndPicture(id, picture, inbandUpdates, async, replies);
        case SignalEos(id, reply) => var _ := SignalEos(id, reply);
        case ProgressEos(id, max, feeds) => var _ := ProgressEos(id, max, feeds);
        case SyncStep(id, feed) => var _ := SyncStep(id, feed);
        case QueryStatus(id, feeds) => var _, _ := QueryStatus(id, feeds);
      }
    }
  }
}
