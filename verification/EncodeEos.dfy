/**
  The end-of-stream protocol of src/vaapi_advc/advc_vaapi_encode_eos.c: what it may do to the broker session,
  as traces, and the state it keeps, as a function of the trace.
 */
module EncodeEos {
  import opened EncodeLinks

  datatype DrainReply = More | End | Failed

  datatype EosEvent = Signal(ok: bool) | Drain(reply: DrainReply) | FailClosed

  function Last(t: seq<EosEvent>): EosEvent
    requires t != []
  {
    t[|t| - 1]
  }

  /** Which event may come next. */
  predicate Follows(t: seq<EosEvent>, ev: EosEvent) {
    match ev
    case Signal(_) => t == []
    case Drain(_) => t != [] && (Last(t) == Signal(true) || Last(t) == Drain(More))
    case FailClosed => t != [] && (Last(t).Signal? || Last(t) == Drain(More) || Last(t) == Drain(Failed))
  }

  predicate WellFormed(t: seq<EosEvent>) {
    t == [] || (WellFormed(t[..|t| - 1]) && Follows(t[..|t| - 1], Last(t)))
  }

  /** Between calls the protocol has not started, has seen the end of the stream, or has failed closed. */
  predicate AtRest(t: seq<EosEvent>) {
    WellFormed(t) && (t == [] || Last(t) == Drain(End) || Last(t) == FailClosed)
  }

  function StateOf(t: seq<EosEvent>): Eos {
    if t == [] then FRESH_EOS
    else Eos(true, t[0] == Signal(true), Last(t) == Drain(End), Last(t) == FailClosed)
  }

  /** How the flags change at each event. */
  function After(e: Eos, ev: EosEvent): Eos {
    match ev
    case Signal(ok) => e.(signalAttempted := true, signalSucceeded := ok)
    case Drain(reply) => if reply == End then e.(eosReceived := true) else e
    case FailClosed => e.(failedClosed := true)
  }

  lemma StateStep(t: seq<EosEvent>, ev: EosEvent)
    requires WellFormed(t) && Follows(t, ev)
    ensures WellFormed(t + [ev]) && StateOf(t + [ev]) == After(StateOf(t), ev)
  {
    var u := t + [ev];
    assert u[..|u| - 1] == t;
    if t != [] {
      StartsWithSignal(t);
    }
  }

  lemma FreshMeansUnstarted(t: seq<EosEvent>)
    requires StateOf(t) == FRESH_EOS
    ensures t == []
  {
  }

  /**
    In a well-formed trace only the first event signals, nothing follows the end of the stream or the
    fail-closed call, and nothing but the latter follows a failed signal or drain.
   */
  lemma {:induction false} TraceShape(t: seq<EosEvent>, i: nat, j: nat)
    requires WellFormed(t) && i < j < |t|
    ensures t[0].Signal? && !t[j].Signal?
    ensures t[i] != FailClosed && t[i] != Drain(End)
    ensures t[i] == Signal(false) || t[i] == Drain(Failed) ==> t[j] == FailClosed && j == i + 1
    ensures t[j].Drain? ==> t[0] == Signal(true)
  {
    var n := |t| - 1;
    var p := t[..n];
    if j < n {
      TraceShape(p, i, j);
    } else if i < n - 1 {
      TraceShape(p, i, n - 1);
    } else {
      StartsWithSignal(p);
    }
  }

  lemma {:induction false} StartsWithSignal(t: seq<EosEvent>)
    requires WellFormed(t) && t != []
    ensures t[0].Signal?
    ensures Last(t).Drain? || (Last(t) == FailClosed && |t| > 2) ==> t[0] == Signal(true)
  {
    var p := t[..|t| - 1];
    if p != [] {
      StartsWithSignal(p);
    }
  }
}
