/**
  What a decode session's broker has accepted, in order: codec configurations, access units and the end of the
  stream. `Fits` is the shape every such log keeps; it is what src/vaapi_advc/advc_vaapi_decode_runtime.c promises
  the decoder on the other side.
 */
module DecodeLog {
  import opened Bits
  import H264Config
  import H264Split

  datatype Codec = H264 | Hevc | Vp9

  /** `key` says that the picture being ended is an IDR picture (H.264), an IRAP picture (HEVC) or a key frame (VP9). */
  datatype Input =
    | Config(bytes: seq<Byte>, key: bool)
    | Access(pts: nat, key: bool, data: seq<Byte>, inband: Option<seq<Byte>>)
    | EndOfStream

  /** The bytes are a configuration the H.264 compiler builds. */
  ghost predicate Built(bytes: seq<Byte>) {
    exists p, id :: H264Config.Supported(p) && bytes == H264Config.CodecConfig(p, id)
  }

  /** Two such configurations carry the same sequence parameter set, byte for byte. */
  ghost predicate SameSequence(a: seq<Byte>, b: seq<Byte>) {
    exists p, i, q, j ::
      && H264Config.Supported(p) && H264Config.Supported(q)
      && a == H264Config.CodecConfig(p, i) && b == H264Config.CodecConfig(q, j)
      && H264Config.SpsNal(p) == H264Config.SpsNal(q)
  }

  /** The configuration an input carries, by itself or in front of an access unit. */
  function Carried(e: Input): Option<seq<Byte>> {
    match e
    case Config(bytes, _) => Some(bytes)
    case Access(_, _, _, inband) => inband
    case EndOfStream => None
  }

  /** The configuration accepted last. */
  function LastConfig(log: seq<Input>): Option<seq<Byte>> {
    if log == [] then None
    else if Carried(log[|log| - 1]).Some? then Carried(log[|log| - 1])
    else LastConfig(log[..|log| - 1])
  }

  predicate HasUnit(log: seq<Input>) {
    exists i :: 0 <= i < |log| && log[i].Access?
  }

  /** An access unit with this timestamp has been accepted. */
  predicate Accepted(log: seq<Input>, pts: nat) {
    exists i :: 0 <= i < |log| && log[i].Access? && log[i].pts == pts
  }

  predicate Ended(log: seq<Input>) {
    exists i :: 0 <= i < |log| && log[i].EndOfStream?
  }

  ghost predicate ChangeAllowed(codec: Codec, before: seq<Input>, bytes: seq<Byte>, key: bool) {
    && LastConfig(before) != Some(bytes)
    && match codec
       case H264 => Built(bytes) && (LastConfig(before).Some? && !key ==> SameSequence(LastConfig(before).value, bytes))
       case Hevc => key
       case Vp9 => false
  }

  /** When the session may be given one more input. */
  ghost predicate Follows(codec: Codec, before: seq<Input>, e: Input) {
    && !Ended(before)
    && match e
       case Config(bytes, key) => ChangeAllowed(codec, before, bytes, key)
       case Access(pts, key, data, inband) =>
         && (codec != Vp9 ==> LastConfig(before).Some?)
         && (codec == Vp9 && !HasUnit(before) ==> key)
         && (inband.Some? ==> codec == H264 && ChangeAllowed(codec, before, inband.value, key) && inband.value <= data)
         && (forall i :: 0 <= i < |before| && before[i].Access? ==> before[i].pts < pts)
       case EndOfStream => true
  }

  ghost predicate Fits(codec: Codec, log: seq<Input>) {
    log == [] || (Fits(codec, log[..|log| - 1]) && Follows(codec, log[..|log| - 1], log[|log| - 1]))
  }

  lemma Snoc(codec: Codec, log: seq<Input>, e: Input)
    requires Fits(codec, log) && Follows(codec, log, e)
    ensures Fits(codec, log + [e])
    ensures LastConfig(log + [e]) == if Carried(e).Some? then Carried(e) else LastConfig(log)
  {
    hide Built, SameSequence;
    assert (log + [e])[..|log|] == log;
  }

  lemma AcceptedGrows(log: seq<Input>, e: Input, pts: nat)
    requires Accepted(log, pts)
    ensures Accepted(log + [e], pts)
  {
    var i :| 0 <= i < |log| && log[i].Access? && log[i].pts == pts;
    assert (log + [e])[i] == log[i];
  }

  lemma {:induction false} FitsPrefix(codec: Codec, log: seq<Input>, n: nat)
    requires Fits(codec, log) && n <= |log|
    ensures Fits(codec, log[..n])
    decreases |log| - n
  {
    hide Follows;
    if n == |log| {
      assert log[..n] == log;
    } else {
      FitsPrefix(codec, log, n + 1);
      assert log[..n + 1][..n] == log[..n];
    }
  }

  /** Each entry of a log obeyed the rules when it was accepted. */
  lemma EveryStepFollows(codec: Codec, log: seq<Input>, n: nat)
    requires Fits(codec, log) && n < |log|
    ensures Follows(codec, log[..n], log[n])
  {
    hide Follows;
    FitsPrefix(codec, log, n + 1);
    assert log[..n + 1][..n] == log[..n];
  }

  /** Nothing is accepted after the end of the stream, which is therefore signalled at most once. */
  lemma NothingAfterEnd(codec: Codec, log: seq<Input>, i: nat)
    requires Fits(codec, log) && i < |log| && log[i].EndOfStream?
    ensures i == |log| - 1
  {
    hide Built, SameSequence;
    if i < |log| - 1 {
      assert log[..i + 1][i].EndOfStream?;
      EveryStepFollows(codec, log, i + 1);
    }
  }

  /** Access units reach the broker in timestamp order. */
  lemma TimestampsIncrease(codec: Codec, log: seq<Input>, i: nat, j: nat)
    requires Fits(codec, log) && i < j < |log| && log[i].Access? && log[j].Access?
    ensures log[i].pts < log[j].pts
  {
    hide Built, SameSequence;
    EveryStepFollows(codec, log, j);
    assert log[..j][i] == log[i];
  }

  /** Between two configurations of an H.264 session the sequence parameter set changes only at an IDR picture. */
  lemma SequenceChangesOnlyAtIdr(log: seq<Input>, n: nat)
    requires Fits(H264, log) && n < |log| && Carried(log[n]).Some? && LastConfig(log[..n]).Some?
    requires !log[n].key
    ensures SameSequence(LastConfig(log[..n]).value, Carried(log[n]).value)
  {
    hide Built, SameSequence;
    EveryStepFollows(H264, log, n);
  }

  /** HEVC configurations accompany IRAP pictures only. */
  lemma HevcConfigsOnlyAtIrap(log: seq<Input>, n: nat)
    requires Fits(Hevc, log) && n < |log| && Carried(log[n]).Some?
    ensures log[n].Config? && log[n].key
  {
    hide Built, SameSequence;
    EveryStepFollows(Hevc, log, n);
  }

  /** The first access unit of a VP9 session is a key frame, and no configuration is ever sent. */
  lemma Vp9StartsWithKeyFrame(log: seq<Input>, n: nat)
    requires Fits(Vp9, log) && n < |log| && log[n].Access? && !HasUnit(log[..n])
    ensures log[n].key && Carried(log[n]).None?
  {
    hide Built, SameSequence;
    EveryStepFollows(Vp9, log, n);
  }

  /** No H.264 or HEVC access unit precedes the first configuration. */
  lemma ConfigComesFirst(codec: Codec, log: seq<Input>, n: nat)
    requires Fits(codec, log) && codec != Vp9 && n < |log| && log[n].Access?
    ensures LastConfig(log[..n]).Some?
  {
    hide Built, SameSequence;
    EveryStepFollows(codec, log, n);
  }

  /** A configuration that is in force is not sent again. */
  lemma NoConfigRepeated(codec: Codec, log: seq<Input>, n: nat)
    requires Fits(codec, log) && n < |log| && Carried(log[n]).Some?
    ensures LastConfig(log[..n]) != Carried(log[n])
  {
    hide Built, SameSequence;
    EveryStepFollows(codec, log, n);
  }

  // ---------- what was offered ----------

  /** An input offered to the broker, and whether it was taken. */
  datatype Try = Try(input: Input, taken: bool)

  function Taken(ts: seq<Try>): seq<Input> {
    if ts == [] then []
    else Taken(ts[..|ts| - 1]) + (if ts[|ts| - 1].taken then [ts[|ts| - 1].input] else [])
  }

  lemma TakenSnoc(ts: seq<Try>, e: Try)
    ensures Taken(ts + [e]) == Taken(ts) + (if e.taken then [e.input] else [])
  {
    assert (ts + [e])[..|ts|] == ts;
  }

  lemma {:induction false} TakenHas(ts: seq<Try>, i: nat)
    requires i < |ts| && ts[i].taken
    ensures exists j :: 0 <= j < |Taken(ts)| && Taken(ts)[j] == ts[i].input
  {
    var n := |ts| - 1;
    if i < n {
      TakenHas(ts[..n], i);
      var j :| 0 <= j < |Taken(ts[..n])| && Taken(ts[..n])[j] == ts[..n][i].input;
      assert Taken(ts)[j] == ts[i].input;
    } else {
      assert Taken(ts)[|Taken(ts[..n])|] == ts[i].input;
    }
  }

  lemma {:induction false} TakenFrom(ts: seq<Try>, j: nat) returns (i: nat)
    requires j < |Taken(ts)|
    ensures i < |ts| && ts[i].taken && ts[i].input == Taken(ts)[j]
  {
    var n := |ts| - 1;
    if j < |Taken(ts[..n])| {
      i := TakenFrom(ts[..n], j);
    } else {
      i := n;
    }
  }

  /** Offer `i` was a configuration that was taken, and the access unit offered right after it was not. */
  predicate OwnUnitRefused(ts: seq<Try>, i: nat) {
    i + 1 < |ts| && ts[i].taken && ts[i].input.Config? && ts[i + 1].input.Access? && !ts[i + 1].taken
  }

  /** No turn is half done: a configuration that was taken is followed by its own picture's access unit. */
  ghost predicate TurnsDone(ts: seq<Try>) {
    forall i :: 0 <= i < |ts| && ts[i].taken && ts[i].input.Config? ==>
      i + 1 < |ts| && ts[i + 1].input.Access? && ts[i + 1].input.key == ts[i].input.key
  }

  ghost predicate NoUnitTaken(ts: seq<Try>) {
    forall i :: 0 <= i < |ts| && ts[i].input.Access? ==> !ts[i].taken
  }

  lemma {:induction false} UnitsOfTaken(ts: seq<Try>)
    ensures HasUnit(Taken(ts)) <==> !NoUnitTaken(ts)
  {
    if HasUnit(Taken(ts)) {
      var j :| 0 <= j < |Taken(ts)| && Taken(ts)[j].Access?;
      var i := TakenFrom(ts, j);
    }
    if !NoUnitTaken(ts) {
      var i :| 0 <= i < |ts| && ts[i].input.Access? && ts[i].taken;
      TakenHas(ts, i);
    }
  }

  /** The last configuration taken is some configuration that was taken. */
  lemma {:induction false} LastConfigAt(log: seq<Input>)
    ensures LastConfig(log).Some? <==> exists j :: 0 <= j < |log| && Carried(log[j]).Some?
  {
    if log != [] {
      var n := |log| - 1;
      LastConfigAt(log[..n]);
      if LastConfig(log).Some? && Carried(log[n]).None? {
        var j :| 0 <= j < |log[..n]| && Carried(log[..n][j]).Some?;
        assert Carried(log[j]).Some?;
      }
      if j :| 0 <= j < |log| && Carried(log[j]).Some? {
        if j < n { assert Carried(log[..n][j]).Some?; }
      }
    }
  }

  /** The last configuration taken, among the offers. */
  lemma {:induction false} LatestConfig(ts: seq<Try>) returns (i: nat)
    requires LastConfig(Taken(ts)).Some?
    ensures i < |ts| && ts[i].taken && Carried(ts[i].input) == LastConfig(Taken(ts))
    ensures forall j :: i < j < |ts| && ts[j].taken ==> Carried(ts[j].input).None?
  {
    var n := |ts| - 1;
    if ts[n].taken {
      assert Taken(ts)[..|Taken(ts[..n])|] == Taken(ts[..n]);
      assert Taken(ts)[|Taken(ts[..n])|] == ts[n].input;
    } else {
      assert Taken(ts) == Taken(ts[..n]);
    }
    if ts[n].taken && Carried(ts[n].input).Some? {
      i := n;
    } else {
      i := LatestConfig(ts[..n]);
    }
  }

  /** Offer `i` was the last configuration taken, with these bytes, and the access unit offered right after it was refused. */
  ghost predicate LatestRefused(ts: seq<Try>, i: nat, bytes: seq<Byte>) {
    && OwnUnitRefused(ts, i) && ts[i].input.bytes == bytes
    && (forall j :: i < j < |ts| && ts[j].taken ==> !ts[j].input.Config?)
  }

  /**
    Of an HEVC session: these bytes are the last configuration taken and no access unit has been, if and only if they
    were taken, their own access unit was refused, and so was every other.
   */
  lemma {:induction false} ConfiguredWithoutUnit(ts: seq<Try>, bytes: seq<Byte>)
    requires Fits(Hevc, Taken(ts)) && TurnsDone(ts)
    ensures LastConfig(Taken(ts)) == Some(bytes) && !HasUnit(Taken(ts)) <==>
            (exists i: nat :: LatestRefused(ts, i, bytes)) && NoUnitTaken(ts)
  {
    hide Built, SameSequence, Follows, HasUnit, Fits;
    UnitsOfTaken(ts);
    if LastConfig(Taken(ts)) == Some(bytes) && NoUnitTaken(ts) {
      var i := LatestConfig(ts);
      CarriedIsConfig(ts, i);
      assert LatestRefused(ts, i, bytes);
    }
    if i: nat :| LatestRefused(ts, i, bytes) {
      TakenHas(ts, i);
      var j :| 0 <= j < |Taken(ts)| && Taken(ts)[j] == ts[i].input;
      assert Carried(Taken(ts)[j]).Some?;
      LastConfigAt(Taken(ts));
      var k := LatestConfig(ts);
      CarriedIsConfig(ts, k);
      assert k == i;
    }
  }

  lemma CarriedIsConfig(ts: seq<Try>, i: nat)
    requires Fits(Hevc, Taken(ts)) && i < |ts| && ts[i].taken && Carried(ts[i].input).Some?
    ensures ts[i].input.Config?
  {
    hide Fits;
    TakenHas(ts, i);
    var j :| 0 <= j < |Taken(ts)| && Taken(ts)[j] == ts[i].input;
    HevcConfigsOnlyAtIrap(Taken(ts), j);
  }

  lemma {:induction false} TakenPrefix(ts: seq<Try>, n: nat)
    requires n <= |ts|
    ensures Taken(ts[..n]) <= Taken(ts)
    decreases |ts| - n
  {
    if n == |ts| {
      assert ts[..n] == ts;
    } else {
      TakenPrefix(ts, n + 1);
      assert ts[..n + 1][..n] == ts[..n];
    }
  }

  /**
    If the first access unit an HEVC session takes is not an IRAP picture, then before it a configuration was taken
    whose own access unit, an IRAP picture, was refused.
   */
  lemma {:induction false} FirstUnitNotIrap(ts: seq<Try>, n: nat)
    requires Fits(Hevc, Taken(ts)) && TurnsDone(ts)
    requires n < |ts| && ts[n].taken && ts[n].input.Access? && !ts[n].input.key && NoUnitTaken(ts[..n])
    ensures exists i: nat :: i + 1 < n && OwnUnitRefused(ts, i) && ts[i + 1].input.key
  {
    hide Built, SameSequence, HasUnit, Fits;
    var before := ts[..n];
    assert ts[..n + 1][..n] == before;
    TakenSnoc(before, ts[n]);
    assert before + [ts[n]] == ts[..n + 1];
    TakenPrefix(ts, n + 1);
    var k := |Taken(before)|;
    assert Taken(ts)[k] == ts[n].input && Taken(ts)[..k] == Taken(before);
    ConfigComesFirst(Hevc, Taken(ts), k);
    LastConfigAt(Taken(before));
    var j :| 0 <= j < k && Carried(Taken(before)[j]).Some?;
    HevcConfigsOnlyAtIrap(Taken(ts), j);
    var i := TakenFrom(before, j);
    assert ts[i] == before[i];
    if i + 1 < n {
      assert before[i + 1] == ts[i + 1];
      assert OwnUnitRefused(ts, i);
    }
  }

  /** A first access unit that is not an IRAP picture comes after an IRAP picture refused with its configuration taken. */
  ghost predicate StartsLate(ts: seq<Try>) {
    forall n :: 0 <= n < |ts| && ts[n].taken && ts[n].input.Access? && NoUnitTaken(ts[..n]) && !ts[n].input.key ==>
      exists i: nat :: i + 1 < n && OwnUnitRefused(ts, i) && ts[i + 1].input.key
  }

  // ---------- the rules at a glance ----------

  /** What a session's log looks like, by its codec. */
  ghost predicate LogRules(codec: Codec, log: seq<Input>) {
    && (forall i :: 0 <= i < |log| && log[i].EndOfStream? ==> i == |log| - 1)
    && (forall i, j :: 0 <= i < j < |log| && log[i].Access? && log[j].Access? ==> log[i].pts < log[j].pts)
    && (codec != Vp9 ==> forall n :: 0 <= n < |log| && log[n].Access? ==> LastConfig(log[..n]).Some?)
    && (forall n :: 0 <= n < |log| && Carried(log[n]).Some? ==> LastConfig(log[..n]) != Carried(log[n]))
    && (codec == H264 ==>
          forall n :: 0 <= n < |log| && Carried(log[n]).Some? && LastConfig(log[..n]).Some? && !log[n].key ==>
            SameSequence(LastConfig(log[..n]).value, Carried(log[n]).value))
    && (codec == Hevc ==> forall n :: 0 <= n < |log| && Carried(log[n]).Some? ==> log[n].Config? && log[n].key)
    && (codec == Vp9 ==> forall n :: 0 <= n < |log| && log[n].Access? && !HasUnit(log[..n]) ==> log[n].key && Carried(log[n]).None?)
  }

  lemma FitsMeansRules(codec: Codec, log: seq<Input>)
    requires Fits(codec, log)
    ensures LogRules(codec, log)
  {
    hide Fits, SameSequence, HasUnit, LastConfig;
    forall i | 0 <= i < |log| && log[i].EndOfStream? ensures i == |log| - 1 {
      NothingAfterEnd(codec, log, i);
    }
    forall i, j | 0 <= i < j < |log| && log[i].Access? && log[j].Access? ensures log[i].pts < log[j].pts {
      TimestampsIncrease(codec, log, i, j);
    }
    forall n | 0 <= n < |log| && codec != Vp9 && log[n].Access? ensures LastConfig(log[..n]).Some? {
      ConfigComesFirst(codec, log, n);
    }
    forall n | 0 <= n < |log| && Carried(log[n]).Some? ensures LastConfig(log[..n]) != Carried(log[n]) {
      NoConfigRepeated(codec, log, n);
    }
    forall n | 0 <= n < |log| && codec == H264 && Carried(log[n]).Some? && LastConfig(log[..n]).Some? && !log[n].key
      ensures SameSequence(LastConfig(log[..n]).value, Carried(log[n]).value)
    {
      SequenceChangesOnlyAtIdr(log, n);
    }
    forall n | 0 <= n < |log| && codec == Hevc && Carried(log[n]).Some? ensures log[n].Config? && log[n].key {
      HevcConfigsOnlyAtIrap(log, n);
    }
    forall n | 0 <= n < |log| && codec == Vp9 && log[n].Access? && !HasUnit(log[..n]) ensures log[n].key && Carried(log[n]).None? {
      Vp9StartsWithKeyFrame(log, n);
    }
  }

  // ---------- after the end has been requested ----------

  ghost predicate NoEnd(ts: seq<Try>) {
    forall i :: 0 <= i < |ts| ==> !ts[i].input.EndOfStream?
  }

  /** Once the end of the stream has been offered, taken or not, nothing else is. */
  ghost predicate EndsLast(ts: seq<Try>) {
    forall i, j :: 0 <= i < j < |ts| && ts[i].input.EndOfStream? ==> ts[j].input.EndOfStream?
  }

  /** Since then only the end of the stream has been offered. */
  ghost predicate OnlyEnds(ts: seq<Try>, ts': seq<Try>) {
    ts <= ts' && forall i :: |ts| <= i < |ts'| ==> ts'[i].input.EndOfStream?
  }

  lemma OfferEnd(ts: seq<Try>, ok: bool)
    requires EndsLast(ts)
    ensures EndsLast(ts + [Try(EndOfStream, ok)]) && !NoEnd(ts + [Try(EndOfStream, ok)]) && OnlyEnds(ts, ts + [Try(EndOfStream, ok)])
  {
    var ts' := ts + [Try(EndOfStream, ok)];
    assert ts'[|ts|].input.EndOfStream?;
  }

  lemma OfferOther(ts: seq<Try>, e: Try)
    requires NoEnd(ts) && !e.input.EndOfStream?
    ensures NoEnd(ts + [e]) && EndsLast(ts + [e])
  {
  }

  /** Then the log gains at most the end of the stream. */
  lemma {:induction false} OnlyEndTaken(codec: Codec, ts: seq<Try>, ts': seq<Try>)
    requires OnlyEnds(ts, ts') && Fits(codec, Taken(ts'))
    ensures Taken(ts') == Taken(ts) || Taken(ts') == Taken(ts) + [EndOfStream]
    decreases |ts'|
  {
    hide Fits, Taken;
    TakenPrefix(ts', |ts|);
    assert ts'[..|ts|] == ts;
    var log, log' := Taken(ts), Taken(ts');
    forall j | |log| <= j < |log'| ensures log'[j].EndOfStream? {
      AddedIsEnd(ts, ts', j);
    }
    if |log| < |log'| {
      NothingAfterEnd(codec, log', |log|);
    }
  }

  lemma {:induction false} AddedIsEnd(ts: seq<Try>, ts': seq<Try>, j: nat)
    requires OnlyEnds(ts, ts') && |Taken(ts)| <= j < |Taken(ts')|
    ensures Taken(ts')[j].EndOfStream?
    decreases |ts'|
  {
    var n := |ts'| - 1;
    assert n < |ts| ==> ts == ts';
    if j < |Taken(ts'[..n])| {
      AddedIsEnd(ts, ts'[..n], j);
    }
  }

  /** One more offer that is not an accepted configuration leaves no turn half done. */
  lemma TurnsGrow(ts: seq<Try>, e: Try)
    requires TurnsDone(ts) && !(e.taken && e.input.Config?)
    ensures TurnsDone(ts + [e])
  {
    var ts' := ts + [e];
    forall i | 0 <= i < |ts'| && ts'[i].taken && ts'[i].input.Config?
      ensures i + 1 < |ts'| && ts'[i + 1].input.Access? && ts'[i + 1].input.key == ts'[i].input.key
    {
      assert ts[i] == ts'[i];
    }
  }

  /** A configuration and then its own access unit, taken or not, leave no turn half done. */
  lemma TurnsPair(ts: seq<Try>, config: Try, unit: Try)
    requires TurnsDone(ts) && config.input.Config? && unit.input.Access? && unit.input.key == config.input.key
    ensures TurnsDone(ts + [config] + [unit])
  {
    var ts' := ts + [config] + [unit];
    forall i | 0 <= i < |ts'| && ts'[i].taken && ts'[i].input.Config?
      ensures i + 1 < |ts'| && ts'[i + 1].input.Access? && ts'[i + 1].input.key == ts'[i].input.key
    {
      if i < |ts| { assert ts[i] == ts'[i]; }
    }
  }
}
