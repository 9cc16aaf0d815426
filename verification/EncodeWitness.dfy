/** A run of the encode runtime in which one late fence puts a session's outputs out of step with its pictures. */
module EncodeWitness {
  import opened Bits
  import opened SlotIds
  import opened EncodeLinks
  import opened EncodeFifo
  import opened EncodeRuntime

  const CONTEXT: Context := NO_CONTEXT.(used := true, width := 16, height := 16)

  /** One context with an open session, two surfaces and two coded buffers of 100 bytes. */
  method Prepare() returns (rt: Runtime)
    ensures fresh(rt) && rt.Valid()
    ensures rt.contexts[0] == Opened(CONTEXT, false)
    ensures rt.sessions[0] == NewSession(rt.sessions[0].number)
    ensures forall s :: 0 <= s < |rt.surfaces| ==> rt.surfaces[s] == if s < 2 then NewSurface(16, 16) else NO_SURFACE
    ensures forall b :: 0 <= b < |rt.buffers| ==> rt.buffers[b] == if b < 2 then NewBuffer(Id(CONTEXT_KIND, 0), true, 100) else NO_BUFFER
  {
    hide Runtime.Core;
    rt := new Runtime();
    rt.FillContext(0, CONTEXT);
    rt.SetSurface(0, NewSurface(16, 16));
    rt.SetSurface(1, NewSurface(16, 16));
    rt.SetBuffer(0, NewBuffer(Id(CONTEXT_KIND, 0), true, 100));
    rt.SetBuffer(1, NewBuffer(Id(CONTEXT_KIND, 0), true, 100));
    rt.OpenSession(0, false, true);
  }

  /** A picture is begun on surface `s` and queued with coded buffer `s`. */
  method Draw(rt: Runtime, s: nat, pts: nat)
    requires rt.Valid() && s < 2 && rt.contexts[0].used && rt.contexts[0].brokerOpen && !rt.contexts[0].pictureActive
    requires rt.contexts[0].width == 16 && rt.contexts[0].height == 16 && rt.contexts[0].pendingCount < 2
    requires rt.surfaces[s] == NewSurface(16, 16) && rt.buffers[s] == NewBuffer(Id(CONTEXT_KIND, 0), true, 100)
    requires OnTime(pts, rt.contexts[0].frameIndex, rt.contexts[0].brokerFps)
    modifies rt
    ensures rt.Valid()
    ensures rt.contexts[0] == QueuedContext(Begun(old(rt.contexts)[0], Id(SURFACE_KIND, s)), pts)
    ensures rt.surfaces == old(rt.surfaces)[s := rt.surfaces[s]]
    ensures PendingFor(rt.surfaces[s], Id(CONTEXT_KIND, 0)) && rt.surfaces[s].codedBuffer == Id(BUFFER_KIND, s)
    ensures rt.surfaces[s].submitIndex == old(rt.contexts)[0].frameIndex && rt.surfaces[s].ptsNs == pts
    ensures rt.buffers == old(rt.buffers)[s := old(rt.buffers)[s].(pendingSurface := Id(SURFACE_KIND, s))]
    ensures rt.sessions[0] == Submission(old(rt.sessions)[0], Job(s, s, pts, old(rt.contexts)[0].frameIndex))
  {
    hide rt.Core, OnTime;
    var r := rt.BeginPicture(Id(CONTEXT_KIND, 0), Id(SURFACE_KIND, s), false);
    assert r == Success;
    rt.SetSurface(s, rt.surfaces[s].(owner := Id(CONTEXT_KIND, 0)));
    var ok := rt.SubmitInput(0, pts, true);
    rt.Queue(0, s, s, pts);
  }

  /** Two pictures are queued, on surfaces and buffers 0 and 1. */
  method DrawTwo() returns (rt: Runtime)
    ensures fresh(rt) && rt.Valid() && rt.contexts[0].used
    ensures forall s :: 0 <= s < |rt.surfaces| ==> (PendingFor(rt.surfaces[s], Id(CONTEXT_KIND, 0)) <==> s < 2)
    ensures rt.surfaces[0].submitIndex < rt.surfaces[1].submitIndex && rt.surfaces[0].codedBuffer == Id(BUFFER_KIND, 0)
    ensures forall b :: 0 <= b < |rt.buffers| && rt.buffers[b].coded ==> rt.buffers[b].capacity == 100
    ensures rt.buffers[0].used && rt.sessions[0].intact && rt.sessions[0].received == [] && rt.sessions[0].deliveries == []
    ensures |rt.sessions[0].jobs| == 2 && rt.sessions[0].jobs[0].buffer == 0 && rt.sessions[0].jobs[0].ptsNs == rt.surfaces[0].ptsNs
  {
    hide OnTime, Runtime.Core, Calm;
    rt := Prepare();
    Pictures();
    Draw(rt, 0, 0);
    Draw(rt, 1, 16_666_666);
  }

  /**
    The output of the first picture arrives but its fence is late; the next output, the second picture's, then goes to
    the first picture, with the first picture's timestamp.
   */
  method LateFence(first: int, second: int) returns (rt: Runtime)
    ensures fresh(rt) && rt.Valid() && rt.sessions[0].intact
    ensures rt.sessions[0].received == [Received(first, Missed), Received(second, Placed)]
    ensures |rt.sessions[0].jobs| == 2 && rt.sessions[0].jobs[0].buffer == 0
    ensures rt.sessions[0].deliveries == [Delivery(0, second, MediaPts(rt.sessions[0].jobs[0].ptsNs))]
    ensures rt.buffers[0].output.Some? && rt.buffers[0].output.value.payload == second
  {
    hide Runtime.Core, Stored, Decided, Kept, ReceivesMore, BufferProgress, ContextProgress, SessionProgress;
    rt := DrawTwo();
    assert Oldest(rt.surfaces, 0, 0);
    var got := rt.Receive(0, Coded(first, 1, false));
    var r := rt.Absorb(0, 0, first, 1, FenceLate);
    got := rt.Receive(0, Coded(second, 1, false));
    r := rt.Absorb(0, 0, second, 1, Signalled);
  }

  lemma Pictures()
    ensures OnTime(0, 0, 60000) && OnTime(16_666_666, 1, 60000)
  {
  }
}
