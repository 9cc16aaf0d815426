/**
  Runs of the decode runtime, made of its public calls, in which a property one might expect fails: an HEVC session that
  starts with a picture other than an IRAP picture, a lease that is released twice, an end of stream that fails another
  context's picture, and two contexts that draw on one surface, so that a lease is overwritten or goes to the wrong one.
 */
module DecodeWitness {
  import opened Bits
  import opened SlotIds
  import opened DecodeLog
  import opened DecodeState
  import opened DecodePrepare
  import opened DecodeRuntime
  import LeaseLedger
  import AccessUnit
  import AnnexB
  import HevcConfig
  import HevcSlice
  import SyntaxElements

  const TARGET: int := Id(SURFACE_KIND, 0)
  const YES: Replies := Replies(Accept, true, Accept)

  /** A runtime with one surface. */
  method Prepare() returns (rt: Runtime)
    ensures fresh(rt) && rt.Valid() && rt.nextPts == PTS_STEP
    ensures forall c :: 0 <= c < |rt.contexts| ==> rt.contexts[c] == NO_CONTEXT
    ensures |rt.surfaces| == SURFACE_SLOTS && rt.surfaces[0] == NewSurface(16, 16)
    ensures forall s :: 0 < s < |rt.surfaces| ==> rt.surfaces[s] == NO_SURFACE
  {
    hide Sound, DebtOf, TurnsDone, NoEnd, EndsLast, Runtime.Core, Runtime.Behind;
    rt := new Runtime();
    FirstSlot(rt.surfaces);
    var r, ids := rt.CreateSurfaces(16, 16, 1, true);
  }

  lemma FirstSlot(ss: seq<Surface>)
    requires |ss| > 0 && !ss[0].used
    ensures 1 <= |FreeBelow(ss, |ss|)| && FreeBelow(ss, |ss|)[..1] == [0]
  {
    assert FreeBelow(ss, 0) == [] && FreeBelow(ss, 1) == [0];
    FreeGrows(ss, 1, |ss|);
  }

  /** The next context in slot order. */
  method Add(rt: Runtime, c: nat, codec: Codec, session: int)
    requires rt.Valid() && c < |rt.contexts| && !rt.contexts[c].used && forall d :: 0 <= d < c ==> rt.contexts[d].used
    modifies rt`contexts, rt`histories, rt`lives
    ensures rt.Valid() && rt.contexts == old(rt.contexts)[c := NewContext(codec, 16, 16, session)]
    ensures rt.histories == old(rt.histories)[c := NEW_HISTORY]
  {
    hide Sound, DebtOf, TurnsDone, NoEnd, EndsLast, Runtime.Core, Runtime.Behind, Evolves;
    var r, id := rt.CreateContext(codec, 16, 16, session, true);
  }

  /** A picture is begun on surface 0 and ended with these answers. */
  method Draw(rt: Runtime, c: nat, picture: Picture, replies: Replies, ghost e: Ending)
    requires rt.Valid() && c < |rt.contexts| && rt.contexts[c].used && MayBegin(rt.contexts[c], rt.surfaces[0])
    requires rt.surfaces[0] == NewSurface(16, 16) && Plain(rt.surfaces[0], false, replies, rt.nextPts)
    requires picture.HevcPicture? ==> picture.hevc.Shaped()
    requires PictureEnding(picture, rt.contexts[c].(pictureActive := true, target := TARGET), rt.nextPts, replies) == Some(e)
    modifies rt
    ensures rt.Valid() && |rt.contexts| == |old(rt.contexts)| && rt.nextPts <= old(rt.nextPts) + PTS_STEP
    ensures Ends(e.(context := e.context.(pictureActive := false, target := INVALID)), old(rt.surfaces), old(rt.histories),
                 rt.contexts, rt.surfaces, rt.histories, c, 0, old(rt.nextPts))
    ensures forall d :: 0 <= d < |rt.contexts| && d != c ==> rt.contexts[d] == old(rt.contexts)[d] && rt.histories[d] == old(rt.histories)[d]
  {
    hide Sound, DebtOf, TurnsDone, NoEnd, EndsLast, Runtime.Core, Runtime.Behind, Evolves, Landed, Ends, PictureEnding;
    var r := rt.BeginPicture(Id(CONTEXT_KIND, c), TARGET);
    assert rt.surfaces == old(rt.surfaces);
    r := rt.EndPicture(Id(CONTEXT_KIND, c), picture, false, false, replies);
  }

  // ---------- HEVC ----------

  /** One slice segment, the first and the last of its picture, of the picture parameter set 0. */
  function Slice(nalType: Byte): AccessUnit.HevcInput
    requires nalType <= 31
  {
    AccessUnit.HevcInput([2 * nalType, 1, 224], 0, 1)
  }

  function HevcFrame(nalType: Byte, p: HevcConfig.Parameters): Picture
    requires nalType <= 31
  {
    HevcPicture([Slice(nalType)], p)
  }

  lemma FirstBits()
    ensures var bits := Unpack([224]); |bits| == 8 && bits[0] && bits[1] && bits[2]
  {
    assert Unpack([224]) == Octet(224) + Unpack([]);
  }

  lemma UeOfOne(bits: seq<bool>)
    requires bits != [] && bits[0]
    ensures SyntaxElements.TakeUe(bits) == Some((0, bits[1..]))
  {
  }

  /** Types 19 and 1 of table 7-1 of ITU-T H.265: an IDR picture, which is an IRAP picture, and a trailing one. */
  lemma SliceParses(nalType: Byte)
    requires nalType == 19 || nalType == 1
    ensures var id := HevcSlice.IdentityOf(Slice(nalType).data);
            id.Some? && id.value.ppsId == 0 && id.value.nalType == nalType && id.value.firstSegment
  {
    hide HevcSlice.OpenSlice, Unpack, SyntaxElements.TakeUe, AnnexB.Unescape;
    SliceOpens224(nalType);
    FirstBits();
    var bits := Unpack([224]);
    UeOfOne(bits[1..]);
    UeOfOne(bits[1..][1..]);
  }

  lemma SliceOpens224(nalType: Byte)
    requires nalType <= 31
    ensures HevcSlice.OpenSlice(Slice(nalType).data) == Some((nalType, Unpack([224])))
  {
    hide HevcSlice.OpenSlice, Unpack;
    HevcSlice.SliceOpens([], HevcSlice.Header(false, nalType, 0, 1), [224]);
    assert AnnexB.Escape([224], 0) == [224];
    assert [] + [2 * nalType, 1] + [224] == Slice(nalType).data;
    assert AnnexB.Clip([224], HevcSlice.READER_BYTES) == [224];
  }

  lemma FrameIsReady(nalType: Byte, p: HevcConfig.Parameters)
    requires (nalType == 19 || nalType == 1) && p.Shaped() && HevcConfig.Supported(p)
    ensures HevcReady([Slice(nalType)], p)
    ensures var u := HevcPrepared([Slice(nalType)], p);
            u.config == HevcConfig.CodecConfig(p, 0) && (u.key <==> nalType == 19)
  {
    hide HevcSlice.IdentityOf, HevcConfig.CodecConfig, HevcConfig.Supported, AccessUnit.Normalized;
    var slices := [Slice(nalType)];
    SliceParses(nalType);
    FrameFits(nalType);
    assert AccessUnit.HevcMatches(slices[0], true, true);
    if nalType == 19 { assert IsIrap(slices[0].data); }
  }

  lemma FrameFits(nalType: Byte)
    requires nalType == 19 || nalType == 1
    ensures |AccessUnit.Normalized(AccessUnit.HevcData([Slice(nalType)]))| <= MAX_INPUT_BYTES
  {
    var datas := AccessUnit.HevcData([Slice(nalType)]);
    assert datas == [Slice(nalType).data];
  }

  /**
    Whatever the parameters: the IRAP picture's configuration is taken and its access unit refused; the next picture has
    the same configuration, is not an IRAP picture, and is the first access unit the session takes.
   */
  method StartsWithoutIrap(p: HevcConfig.Parameters) returns (rt: Runtime)
    requires p.Shaped() && HevcConfig.Supported(p)
    ensures fresh(rt) && rt.Valid() && rt.contexts[0].used && rt.contexts[0].codec == Hevc
    ensures |rt.histories[0].log| == 2 && rt.histories[0].log[0].Config? && rt.histories[0].log[0].key
    ensures rt.histories[0].log[1].Access? && !rt.histories[0].log[1].key
  {
    hide Sound, DebtOf, TurnsDone, NoEnd, EndsLast, Runtime.Core, Runtime.Behind, HevcConfig.CodecConfig, HevcConfig.Supported;
    rt := Prepare();
    Add(rt, 0, Hevc, 1);
    DrawRefused(rt, p);
    DrawNext(rt, p);
  }

  /** The IRAP picture: configuration taken, access unit refused. */
  method DrawRefused(rt: Runtime, p: HevcConfig.Parameters)
    requires p.Shaped() && HevcConfig.Supported(p)
    requires rt.Valid() && rt.contexts[0] == NewContext(Hevc, 16, 16, 1) && rt.histories[0] == NEW_HISTORY
    requires rt.surfaces[0] == NewSurface(16, 16) && rt.nextPts == PTS_STEP
    modifies rt
    ensures rt.Valid() && rt.surfaces == old(rt.surfaces) && rt.nextPts <= 2 * PTS_STEP
    ensures rt.contexts[0] == NewContext(Hevc, 16, 16, 1).(configured := true, lastConfig := HevcConfig.CodecConfig(p, 0))
    ensures rt.histories[0].log == [Config(HevcConfig.CodecConfig(p, 0), true)]
  {
    hide Sound, DebtOf, TurnsDone, NoEnd, EndsLast, Runtime.Core, Runtime.Behind, HevcReady, HevcPrepared;
    hide HevcConfig.CodecConfig, HevcConfig.Supported;
    FrameIsReady(19, p);
    ghost var z := rt.contexts[0].(pictureActive := true, target := TARGET);
    ghost var u := HevcPrepared([Slice(19)], p);
    Draw(rt, 0, HevcFrame(19, p), Replies(Accept, true, Fatal), HevcEnding(z, u, rt.nextPts, Replies(Accept, true, Fatal)));
  }

  /** The next picture: the same configuration, another type, accepted. */
  method DrawNext(rt: Runtime, p: HevcConfig.Parameters)
    requires p.Shaped() && HevcConfig.Supported(p)
    requires rt.Valid() && rt.surfaces[0] == NewSurface(16, 16) && rt.nextPts <= 2 * PTS_STEP
    requires rt.contexts[0] == NewContext(Hevc, 16, 16, 1).(configured := true, lastConfig := HevcConfig.CodecConfig(p, 0))
    modifies rt
    ensures rt.Valid() && rt.contexts[0].used && rt.contexts[0].codec == Hevc
    ensures |rt.histories[0].log| == |old(rt.histories)[0].log| + 1 && old(rt.histories)[0].log <= rt.histories[0].log
    ensures var e := rt.histories[0].log[|old(rt.histories)[0].log|]; e.Access? && !e.key
  {
    hide Sound, DebtOf, TurnsDone, NoEnd, EndsLast, Runtime.Core, Runtime.Behind, HevcReady, HevcPrepared;
    hide HevcConfig.CodecConfig, HevcConfig.Supported;
    FrameIsReady(1, p);
    ghost var z := rt.contexts[0].(pictureActive := true, target := TARGET);
    ghost var u := HevcPrepared([Slice(1)], p);
    Draw(rt, 0, HevcFrame(1, p), YES, HevcEnding(z, u, rt.nextPts, YES));
  }

  // ---------- VP9 ----------

  /** A key frame of context `c` is accepted; surface 0 waits for it. */
  method DrawVp9(rt: Runtime, c: nat, frame: seq<Byte>)
    requires rt.Valid() && c < |rt.contexts| && rt.contexts[c] == NewContext(Vp9, 16, 16, 1) && rt.histories[c] == NEW_HISTORY
    requires rt.surfaces[0] == NewSurface(16, 16) && rt.nextPts == PTS_STEP
    modifies rt
    ensures rt.Valid() && rt.surfaces == old(rt.surfaces)[0 := Waiting(NewSurface(16, 16), c, 1, PTS_STEP)]
    ensures rt.contexts == old(rt.contexts)[c := NewContext(Vp9, 16, 16, 1).(configured := true)] && rt.histories[c].events == []
    ensures forall d :: 0 <= d < |rt.histories| && d != c ==> rt.histories[d] == old(rt.histories)[d]
  {
    hide Sound, DebtOf, TurnsDone, NoEnd, EndsLast, Runtime.Core, Runtime.Behind;
    ghost var z := rt.contexts[c].(pictureActive := true, target := TARGET);
    Draw(rt, c, Vp9Picture(Some(frame), true), YES, Vp9Ending(z, frame, true, PTS_STEP, YES));
  }

  /** The output is copied, its fenced release is refused, and it is then released once more. */
  method ReleasedTwice(frame: seq<Byte>) returns (rt: Runtime)
    ensures fresh(rt) && rt.Valid()
    ensures rt.histories[0].events == [Leased(7), FencedRelease(7, false), ReleaseTry(7)]
  {
    hide Sound, DebtOf, TurnsDone, NoEnd, EndsLast, Runtime.Core, Runtime.Behind, AllDrained, SomeReady, Evolves, EosAdvances;
    rt := Prepare();
    Add(rt, 0, Vp9, 1);
    DrawVp9(rt, 0, frame);
    assert Matches(rt.surfaces[0], PTS_STEP, 1);
    var r := rt.SyncStep(TARGET, Feed(Got(Output(7, PTS_STEP, false, false, false)), Repack(false), true));
  }

  /** Two contexts have the same session number; the end of the first one's stream fails the second one's picture. */
  method FailsAnother(frame: seq<Byte>) returns (rt: Runtime)
    ensures fresh(rt) && rt.Valid()
    ensures rt.contexts[0].eos.phase == Complete && rt.contexts[1].used && rt.contexts[1].eos == OPEN_EOS
    ensures rt.surfaces[0].used && rt.surfaces[0].owner == Id(CONTEXT_KIND, 1) && rt.surfaces[0].state == Error
  {
    hide Sound, DebtOf, TurnsDone, NoEnd, EndsLast, Runtime.Core, Runtime.Behind, AllDrained, SomeReady, Evolves, EosAdvances;
    rt := Prepare();
    Add(rt, 0, Vp9, 1);
    Add(rt, 1, Vp9, 1);
    DrawVp9(rt, 1, frame);
    var r := rt.SignalEos(Id(CONTEXT_KIND, 0), Accept);
    r := rt.ProgressEos(Id(CONTEXT_KIND, 0), 1, [Feed(Got(Output(9, 0, true, false, true)), Unfit, true)]);
  }

  // ---------- one surface for two contexts ----------

  /** The picture of context `c` on surface `s` was accepted. */
  method EndVp9(rt: Runtime, c: nat, frame: seq<Byte>)
    requires rt.Valid() && c < |rt.contexts| && rt.contexts[c].used && rt.contexts[c].codec == Vp9
    requires rt.contexts[c].pictureActive && rt.contexts[c].target == TARGET
    requires rt.surfaces[0].used && !rt.surfaces[0].reserved && rt.nextPts <= 2 * PTS_STEP
    modifies rt
    ensures rt.Valid() && rt.surfaces == old(rt.surfaces)[0 := Waiting(old(rt.surfaces)[0], c, old(rt.contexts)[c].session, old(rt.nextPts))]
    ensures rt.nextPts <= old(rt.nextPts) + PTS_STEP && rt.histories[c].events == old(rt.histories)[c].events
    ensures rt.contexts == old(rt.contexts)[c := old(rt.contexts)[c].(configured := true, pictureActive := false, target := INVALID)]
    ensures forall d :: 0 <= d < |rt.contexts| && d != c ==> rt.histories[d] == old(rt.histories)[d]
  {
    hide Sound, DebtOf, TurnsDone, NoEnd, EndsLast, Runtime.Core, Runtime.Behind, Evolves, Landed;
    assert Id(CONTEXT_KIND, c) == Id(CONTEXT_KIND, c) && GetSurface(rt.surfaces, TARGET) == 0;
    var r := rt.EndPicture(Id(CONTEXT_KIND, c), Vp9Picture(Some(frame), true), false, false, YES);
  }

  /** The output the surface waits for is attached to it. */
  method Attach(rt: Runtime, c: nat, id: nat)
    requires rt.Valid() && c < |rt.contexts| && rt.contexts[c].used && rt.contexts[c].eos.phase == Open && id != 0
    requires IsPending(rt.surfaces[0]) && !rt.surfaces[0].reserved
    requires rt.surfaces[0].owner == Id(CONTEXT_KIND, c) && rt.surfaces[0].session == rt.contexts[c].session
    requires forall s :: 0 < s < |rt.surfaces| ==> rt.surfaces[s] == NO_SURFACE
    modifies rt
    ensures rt.Valid() && rt.surfaces == old(rt.surfaces)[0 := old(rt.surfaces)[0].(state := Ready, bufferId := id)]
    ensures rt.contexts == old(rt.contexts) && rt.nextPts == old(rt.nextPts)
    ensures rt.histories == old(rt.histories)[c := WithEvents(old(rt.histories)[c], [Leased(id), Attached(id)])]
    ensures rt.ledger == old(rt.ledger) + [LeaseLedger.Took(0, c, rt.lives[c], id, HoldOf(old(rt.surfaces)[0]))]
  {
    hide Sound, DebtOf, TurnsDone, NoEnd, EndsLast, Runtime.Core, Runtime.Behind, AllDrained, SomeReady, Evolves, EosAdvances, Progressed;
    var feed := Feed(Got(Output(id, rt.surfaces[0].pts, false, false, false)), Conversion.Attach, true);
    assert GetSurface(rt.surfaces, TARGET) == 0 && Matches(rt.surfaces[0], rt.surfaces[0].pts, rt.contexts[c].session);
    var r := rt.SyncStep(TARGET, feed);
    ghost var m :| Drains(old(rt.surfaces), old(rt.histories), old(rt.ledger), rt.surfaces, rt.histories, rt.ledger, c, m,
                          old(rt.contexts)[c].session, rt.lives[c], feed);
    assert m == 0;
    assert Episode(old(rt.surfaces), 0, feed.reply.output, feed.conv) == [Leased(id), Attached(id)];
  }

  /** Two contexts, with sessions of their own, begin a picture on the same surface; both pictures are accepted. */
  method Share(frame: seq<Byte>) returns (rt: Runtime)
    ensures fresh(rt) && rt.Valid()
    ensures rt.contexts[0].used && rt.contexts[0].eos.phase == Open && !rt.contexts[0].pictureActive
    ensures rt.contexts[1].used && rt.contexts[1].eos.phase == Open && rt.contexts[0].session != rt.contexts[1].session
    ensures rt.contexts[0].width == 16 && rt.contexts[0].height == 16
    ensures IsPending(rt.surfaces[0]) && rt.surfaces[0].width == 16 && rt.surfaces[0].height == 16 && !rt.surfaces[0].reserved
    ensures rt.surfaces[0].owner == Id(CONTEXT_KIND, 1) && rt.surfaces[0].session == rt.contexts[1].session && rt.surfaces[0].bufferId == 7
    ensures forall s :: 0 < s < |rt.surfaces| ==> rt.surfaces[s] == NO_SURFACE
    ensures rt.histories[0].events == [Leased(7), Attached(7)] && rt.histories[1].events == []
  {
    hide Sound, DebtOf, TurnsDone, NoEnd, EndsLast, Runtime.Core, Runtime.Behind, Evolves;
    rt := Prepare();
    Add(rt, 0, Vp9, 1);
    Add(rt, 1, Vp9, 2);
    var r := rt.BeginPicture(Id(CONTEXT_KIND, 0), TARGET);
    r := rt.BeginPicture(Id(CONTEXT_KIND, 1), TARGET);
    EndVp9(rt, 0, frame);
    Attach(rt, 0, 7);
    EndVp9(rt, 1, frame);
  }

  /** The second picture's output takes the place of the first one's, whose lease nobody gives back. */
  method Overwrites(frame: seq<Byte>) returns (rt: Runtime)
    ensures fresh(rt) && rt.Valid() && rt.contexts[0].session != rt.contexts[1].session
    ensures rt.histories[0].events == [Leased(7), Attached(7)] && rt.histories[1].events == [Leased(8), Attached(8)]
    ensures rt.ledger != [] && rt.ledger[|rt.ledger| - 1] == LeaseLedger.Took(0, 1, rt.lives[1], 8, Some(LeaseLedger.Lease(7)))
  {
    hide Sound, DebtOf, TurnsDone, NoEnd, EndsLast, Runtime.Core, Runtime.Behind;
    rt := Share(frame);
    Attach(rt, 1, 8);
  }

  /** A third picture empties the surface, and the first context's lease is returned to the second's session. */
  method GoesAstray(frame: seq<Byte>) returns (rt: Runtime)
    ensures fresh(rt) && rt.Valid() && rt.contexts[0].session != rt.contexts[1].session
    ensures rt.histories[0].events == [Leased(7), Attached(7)]
    ensures rt.ledger != [] && rt.ledger[|rt.ledger| - 1] == LeaseLedger.Returned(0, 1, LeaseLedger.Lease(7))
  {
    hide Sound, DebtOf, TurnsDone, NoEnd, EndsLast, Runtime.Core, Runtime.Behind, Evolves;
    rt := Share(frame);
    var r := rt.ResumePicture(Id(CONTEXT_KIND, 0), TARGET);
  }
}
