/** What a primary replicates, seen as bytes: every write goes over a connection of its own, in one frame. */
module Delivery {
  import opened Wrappers
  import opened Messages
  import opened Buffers
  import F = Framing
  import opened ServerMachine
  import opened ServerRoles

  /**
   * Any write that a server has accepted, in any run, and so any write that it replicates: if its whole frame goes
   * out, the peer receives exactly this write and then nothing; if sending fails, the peer receives nothing.
   */
  lemma ReplicatedWriteArrives(role: ServerRole, es: seq<Event>, w: Message, k: nat)
    requires Run(role, es).Some? && w in Run(role, es).value.accepted && F.Sendable(w)
    requires k <= |F.Frame(w)|
    ensures F.Received(F.Frame(w)[..k]) == if k == |F.Frame(w)| then [MessageHandle(Some(w))] else []
  {
    hide F.Frame, F.Sendable, F.NextMessage;
    RunInv(role, es);
    assert ContentPresent(w.content);
    if k < |F.Frame(w)| {
      F.PartOfFrame(w, k);
    } else {
      F.FrameReceived(w, []);
      assert F.Frame(w)[..k] == F.Frame(w) + [];
      F.NoMessage();
    }
  }

  /** The writes that a server has sent on are among those that it has accepted. */
  lemma ForwardedIsAccepted(role: ServerRole, es: seq<Event>, w: Message)
    requires Run(role, es).Some? && w in Run(role, es).value.forwarded
    ensures w in Run(role, es).value.accepted
  {
    RunInv(role, es);
  }
}
