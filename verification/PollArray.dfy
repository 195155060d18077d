/**
 * network_server.c: the array that poll watches, with the listening socket in front and the client sockets behind it.
 * The answers of poll, accept and the request handler are arbitrary inputs.
 */
module PollArray {
  import opened Sequences

  const MAX_CLIENT_SOCKETS := 5
  const SLOTS := 1 + MAX_CLIENT_SOCKETS

  /** A pollfd that waits for POLLIN; readable: POLLIN is among its revents. */
  datatype PollFd = PollFd(fd: int, readable: bool)

  /** The array together with client_sockets_count. */
  datatype Table = Table(slots: seq<PollFd>, count: int)

  /** What happens in one round: the sockets that are ready, the result of accept, and the handlers that succeed. */
  datatype Input = Input(ready: seq<bool>, accepted: int, handled: seq<bool>)

  predicate Fits(i: Input) {
    |i.ready| == |i.handled| == SLOTS && i.accepted >= -1
  }

  // ---------- Stable partition ----------

  function Live(s: seq<PollFd>): seq<PollFd> {
    if s == [] then [] else (if s[0].fd != -1 then [s[0]] else []) + Live(s[1..])
  }

  function Dead(s: seq<PollFd>): seq<PollFd> {
    if s == [] then [] else (if s[0].fd != -1 then [] else [s[0]]) + Dead(s[1..])
  }

  /** Live slots in front, dead slots behind, both in their old order; without live slots, the last one comes first. */
  function Compacted(slots: seq<PollFd>): seq<PollFd>
    requires |slots| == SLOTS
  {
    var clients := slots[1..];
    if Live(clients) != [] then [slots[0]] + Live(clients) + Dead(clients)
    else [slots[0], slots[MAX_CLIENT_SOCKETS]] + slots[1..MAX_CLIENT_SOCKETS]
  }

  lemma {:induction false} PartitionKeeps(s: seq<PollFd>)
    ensures |Live(s)| + |Dead(s)| == |s|
    ensures multiset(Live(s)) + multiset(Dead(s)) == multiset(s)
    ensures forall p :: p in Live(s) ==> p.fd != -1
    ensures forall p :: p in Dead(s) ==> p.fd == -1
  {
    if s != [] {
      PartitionKeeps(s[1..]);
      assert s == [s[0]] + s[1..];
    }
  }

  lemma {:induction false} LiveConcat(a: seq<PollFd>, b: seq<PollFd>)
    ensures Live(a + b) == Live(a) + Live(b)
    ensures Dead(a + b) == Dead(a) + Dead(b)
  {
    if a == [] {
      assert a + b == b;
    } else {
      var liveHead, deadHead := if a[0].fd != -1 then [a[0]] else [], if a[0].fd != -1 then [] else [a[0]];
      calc {
        Live(a + b);
        { assert (a + b)[1..] == a[1..] + b; }
        liveHead + Live(a[1..] + b);
        { LiveConcat(a[1..], b); }
        liveHead + (Live(a[1..]) + Live(b));
      }
      calc {
        Dead(a + b);
        { assert (a + b)[1..] == a[1..] + b; }
        deadHead + Dead(a[1..] + b);
        { LiveConcat(a[1..], b); }
        deadHead + (Dead(a[1..]) + Dead(b));
      }
      Regroup(liveHead, Live(a[1..]), Live(b));
      Regroup(deadHead, Dead(a[1..]), Dead(b));
    }
  }

  lemma {:induction false} AllDead(s: seq<PollFd>)
    requires forall i :: 0 <= i < |s| ==> s[i].fd == -1
    ensures Live(s) == [] && Dead(s) == s
  {
    if s != [] {
      AllDead(s[1..]);
      assert s == [s[0]] + s[1..];
    }
  }

  // ---------- Steps on values ----------

  /** poll looks at the slots up to the count, and ignores negative descriptors. */
  function Polled(t: Table, ready: seq<bool>): Table
    requires |t.slots| == |ready| == SLOTS
  {
    t.(slots := seq(SLOTS, i requires 0 <= i < SLOTS =>
                      if i <= t.count then PollFd(t.slots[i].fd, ready[i] && t.slots[i].fd >= 0) else t.slots[i]))
  }

  /** accept is called. */
  predicate Accepting(t: Table)
    requires |t.slots| == SLOTS
  {
    t.slots[0].readable && t.count < MAX_CLIENT_SOCKETS
  }

  function Accepted(t: Table, accepted: int): Table
    requires |t.slots| == SLOTS && 0 <= t.count
  {
    if !Accepting(t) then t
    else if accepted > 0 then Table(t.slots[t.count + 1 := PollFd(accepted, false)], t.count + 1)
    else t.(slots := t.slots[t.count + 1 := t.slots[t.count + 1].(fd := accepted)])
  }

  /** The request of the client in the slot is handled, and that fails. */
  predicate Closing(t: Table, handled: seq<bool>, i: nat)
    requires |t.slots| == |handled| == SLOTS && i < SLOTS
  {
    1 <= i <= t.count && t.slots[i].fd >= 0 && t.slots[i].readable && !handled[i]
  }

  function Closed(t: Table, handled: seq<bool>): (slots: seq<PollFd>)
    requires |t.slots| == |handled| == SLOTS
    ensures |slots| == SLOTS
  {
    seq(SLOTS, i requires 0 <= i < SLOTS => if Closing(t, handled, i) then t.slots[i].(fd := -1) else t.slots[i])
  }

  predicate SomeClosing(t: Table, handled: seq<bool>)
    requires |t.slots| == |handled| == SLOTS
  {
    exists i :: 0 <= i < SLOTS && Closing(t, handled, i)
  }

  /** The count after compaction: 1 even if no client is left. */
  function CountFor(live: nat): nat {
    if live == 0 then 1 else live
  }

  function Handled(t: Table, handled: seq<bool>): Table
    requires |t.slots| == |handled| == SLOTS
  {
    var closed := Closed(t, handled);
    if SomeClosing(t, handled) then Table(Compacted(closed), CountFor(|Live(closed[1..])|)) else t.(slots := closed)
  }

  predicate Shaped(t: Table) {
    |t.slots| == SLOTS && 0 <= t.count <= MAX_CLIENT_SOCKETS
  }

  function Started(listeningSocket: int): (t: Table)
    ensures Shaped(t)
  {
    Table([PollFd(listeningSocket, false)] + seq(MAX_CLIENT_SOCKETS, _ => PollFd(-1, false)), 0)
  }

  function After(t: Table, input: Input): (t': Table)
    requires Shaped(t) && Fits(input)
    ensures Shaped(t')
  {
    var t1 := Accepted(Polled(t, input.ready), input.accepted);
    HandledShaped(t1, input.handled);
    Handled(t1, input.handled)
  }

  function AfterAll(t: Table, inputs: seq<Input>): (t': Table)
    requires Shaped(t) && forall i :: i in inputs ==> Fits(i)
    ensures Shaped(t')
  {
    if inputs == [] then t else After(AfterAll(t, inputs[..|inputs| - 1]), inputs[|inputs| - 1])
  }

  lemma HandledShaped(t: Table, handled: seq<bool>)
    requires Shaped(t) && |handled| == SLOTS
    ensures Shaped(Handled(t, handled))
  {
    PartitionKeeps(Closed(t, handled)[1..]);
  }

  // ---------- The array ----------

  class Poller {
    const sockets: array<PollFd>
    var clientSocketsCount: int

    constructor (listeningSocket: int)
      ensures Valid() && fresh(sockets) && Value() == Started(listeningSocket)
    {
      sockets := new PollFd[SLOTS](_ => PollFd(-1, false));
      clientSocketsCount := 0;
      new;
      sockets[0] := PollFd(listeningSocket, false);
    }

    predicate Valid()
      reads this, sockets
    {
      sockets.Length == SLOTS && 0 <= clientSocketsCount <= MAX_CLIENT_SOCKETS
    }

    function Value(): Table
      reads this, sockets
    {
      Table(sockets[..], clientSocketsCount)
    }

    method Poll(ready: seq<bool>)
      requires Valid() && |ready| == SLOTS
      modifies sockets
      ensures Valid() && Value() == Polled(old(Value()), ready)
    {
      for i := 0 to clientSocketsCount + 1
        invariant forall j :: 0 <= j < i ==>
          sockets[j] == PollFd(old(sockets[j].fd), ready[j] && old(sockets[j].fd) >= 0)
        invariant forall j :: i <= j < SLOTS ==> sockets[j] == old(sockets[j])
      {
        sockets[i] := PollFd(sockets[i].fd, ready[i] && sockets[i].fd >= 0);
      }
    }

    /** _handle_listening_socket_events, where accept returns the given value if it is called. */
    method HandleListeningSocketEvents(accepted: int)
      requires Valid() && accepted >= -1
      modifies this, sockets
      ensures Valid() && Value() == Accepted(old(Value()), accepted)
    {
      var listeningSocket := sockets[0];
      if listeningSocket.readable && clientSocketsCount < MAX_CLIENT_SOCKETS {
        var i := clientSocketsCount + 1;
        sockets[i] := sockets[i].(fd := accepted);
        if sockets[i].fd > 0 {
          sockets[i] := sockets[i].(readable := false);
          clientSocketsCount := clientSocketsCount + 1;
        }
      }
    }

    /** _handle_client_sockets_events, where the handler of the client in slot i succeeds if handled[i]. */
    method HandleClientSocketsEvents(handled: seq<bool>)
      requires Valid() && |handled| == SLOTS
      modifies this, sockets
      ensures Valid() && Value() == Handled(old(Value()), handled)
    {
      ghost var t := Value();
      var someFdsClosed := false;
      for i := 1 to clientSocketsCount + 1
        invariant clientSocketsCount == t.count
        invariant forall j :: 0 <= j < i ==> sockets[j] == Closed(t, handled)[j]
        invariant forall j :: i <= j < SLOTS ==> sockets[j] == t.slots[j]
        invariant someFdsClosed <==> exists j :: 0 <= j < i && Closing(t, handled, j)
      {
        if sockets[i].fd >= 0 && sockets[i].readable {
          if !handled[i] {
            assert Closing(t, handled, i);
            sockets[i] := sockets[i].(fd := -1);
            someFdsClosed := true;
          }
        }
      }
      assert sockets[..] == Closed(t, handled);
      assert someFdsClosed <==> SomeClosing(t, handled);
      if someFdsClosed {
        clientSocketsCount := Compact();
      }
    }

    /** Moves closed sockets behind the others, by rotating each one to the end of the part that is still connected. */
    method Compact() returns (indexOfLastConnected: int)
      requires sockets.Length == SLOTS
      modifies sockets
      ensures sockets[..] == Compacted(old(sockets[..]))
      ensures indexOfLastConnected == CountFor(|Live(old(sockets[..])[1..])|) <= MAX_CLIENT_SOCKETS
    {
      ghost var before := sockets[..];
      indexOfLastConnected := LastConnected();
      ghost var l := indexOfLastConnected;
      SettledAtFirst(before, l);
      for i := indexOfLastConnected downto 1
        invariant i <= indexOfLastConnected <= l
        invariant Settled(sockets[..], before, i, indexOfLastConnected, l)
      {
        if sockets[i].fd == -1 {
          ghost var s := sockets[..];
          Rotate(i, indexOfLastConnected);
          SettledDead(s, sockets[..], before, i, indexOfLastConnected, l);
          indexOfLastConnected := indexOfLastConnected - 1;
        } else {
          SettledLive(sockets[..], before, i, indexOfLastConnected, l);
        }
      }
      CompactedParts(sockets[..], before, indexOfLastConnected, l);
    }

    /** The index of the last slot that is not closed, or that of the last slot if all are. */
    method LastConnected() returns (index: int)
      requires sockets.Length == SLOTS
      ensures 1 <= index <= MAX_CLIENT_SOCKETS
      ensures forall j :: index < j < SLOTS ==> sockets[j].fd == -1
      ensures sockets[index].fd == -1 ==> forall j :: 1 <= j < SLOTS ==> sockets[j].fd == -1
      ensures sockets[index].fd == -1 ==> index == MAX_CLIENT_SOCKETS
    {
      index := MAX_CLIENT_SOCKETS;
      for i := SLOTS downto 1
        invariant index == MAX_CLIENT_SOCKETS
        invariant forall j :: i <= j < SLOTS ==> sockets[j].fd == -1
      {
        if sockets[i].fd != -1 {
          return i;
        }
      }
    }

    /** Moves the slot at index from to index to, and those in between one place to the left. */
    method Rotate(from: int, to: int)
      requires 0 <= from < to < sockets.Length
      modifies sockets
      ensures sockets[..from] == old(sockets[..from])
      ensures sockets[from..to] == old(sockets[from + 1..to + 1])
      ensures sockets[to..] == [old(sockets[from])] + old(sockets[to + 1..])
    {
      var socketToMove := sockets[from];
      for j := from + 1 to to + 1
        invariant sockets[..from] == old(sockets[..from])
        invariant sockets[from..j - 1] == old(sockets[from + 1..j])
        invariant sockets[j..] == old(sockets[j..])
      {
        sockets[j - 1] := sockets[j];
      }
      sockets[to] := socketToMove;
    }

    /** One round of network_main_loop in which poll reports events. */
    method Round(input: Input)
      requires Valid() && Fits(input)
      modifies this, sockets
      ensures Valid() && Value() == After(old(Value()), input)
    {
      Poll(input.ready);
      HandleListeningSocketEvents(input.accepted);
      HandleClientSocketsEvents(input.handled);
    }

    /** network_main_loop up to any point. */
    method MainLoop(inputs: seq<Input>)
      requires Valid() && forall i :: i in inputs ==> Fits(i)
      modifies this, sockets
      ensures Valid() && Value() == AfterAll(old(Value()), inputs)
    {
      for k := 0 to |inputs|
        invariant Valid() && Value() == AfterAll(old(Value()), inputs[..k])
      {
        assert inputs[..k + 1][..k] == inputs[..k];
        Round(inputs[k]);
      }
      assert inputs[..|inputs|] == inputs;
    }
  }

  /**
   * Slot l is the last one that is connected. The slots below i are as before; those from i up to last are the live
   * ones among i to l, and behind them come the dead ones.
   */
  ghost predicate Settled(s: seq<PollFd>, before: seq<PollFd>, i: nat, last: nat, l: nat) {
    && |s| == |before| == SLOTS && i <= last <= l < SLOTS
    && s[..i] == before[..i]
    && s[i..last + 1] == Live(before[i..l]) + [before[l]]
    && s[last + 1..] == Dead(before[i..l]) + before[l + 1..]
  }

  lemma SettledAtFirst(before: seq<PollFd>, l: nat)
    requires |before| == SLOTS && l < SLOTS
    ensures Settled(before, before, l, l, l)
  {
  }

  lemma Unfold(before: seq<PollFd>, i: nat, l: nat)
    requires i < l <= |before|
    ensures Live(before[i..l]) == (if before[i].fd != -1 then [before[i]] else []) + Live(before[i + 1..l])
    ensures Dead(before[i..l]) == (if before[i].fd != -1 then [] else [before[i]]) + Dead(before[i + 1..l])
  {
    assert before[i..l][1..] == before[i + 1..l];
  }

  lemma SettledLive(s: seq<PollFd>, before: seq<PollFd>, i: nat, last: nat, l: nat)
    requires Settled(s, before, i + 1, last, l) && s[i].fd != -1
    ensures Settled(s, before, i, last, l)
  {
    hide Live, Dead;
    Unfold(before, i, l);
    assert s[i] == s[..i + 1][i] == before[i];
    assert s[..i] == s[..i + 1][..i];
    assert s[i..last + 1] == [s[i]] + s[i + 1..last + 1];
  }

  lemma SettledDead(s: seq<PollFd>, s': seq<PollFd>, before: seq<PollFd>, i: nat, last: nat, l: nat)
    requires Settled(s, before, i + 1, last, l) && s[i].fd == -1
    requires |s'| == SLOTS && s'[..i] == s[..i]
    requires s'[i..last] == s[i + 1..last + 1] && s'[last..] == [s[i]] + s[last + 1..]
    ensures Settled(s', before, i, last - 1, l)
  {
    hide Live, Dead;
    Unfold(before, i, l);
    assert s[i] == s[..i + 1][i] == before[i];
    assert s[..i] == s[..i + 1][..i];
  }

  lemma CompactedParts(s: seq<PollFd>, before: seq<PollFd>, last: nat, l: nat)
    requires Settled(s, before, 1, last, l)
    requires forall j :: l < j < SLOTS ==> before[j].fd == -1
    requires before[l].fd == -1 ==> l == MAX_CLIENT_SOCKETS && forall j :: 1 <= j < SLOTS ==> before[j].fd == -1
    ensures s == Compacted(before)
    ensures last == CountFor(|Live(before[1..])|)
  {
    hide Live, Dead;
    var a, c := before[1..l], before[l + 1..];
    LivePart(before, l);
    assert s == s[..1] + s[1..last + 1] + s[last + 1..];
    assert s[..1] == [before[0]];
    if before[l].fd == -1 {
      AllDead(a);
    }
  }

  lemma LivePart(before: seq<PollFd>, l: nat)
    requires |before| == SLOTS && 1 <= l < SLOTS
    requires forall j :: l < j < SLOTS ==> before[j].fd == -1
    ensures var a, c := before[1..l], before[l + 1..];
            && Live(before[1..]) == Live(a) + (if before[l].fd != -1 then [before[l]] else [])
            && Dead(before[1..]) == Dead(a) + (if before[l].fd != -1 then [] else [before[l]]) + c
  {
    var a, c := before[1..l], before[l + 1..];
    assert before[1..] == a + ([before[l]] + c);
    LiveConcat(a, [before[l]] + c);
    LiveConcat([before[l]], c);
    AllDead(c);
  }

  // ---------- What the array holds ----------

  function Fds(s: seq<PollFd>): (fds: seq<int>)
    ensures |fds| == |s| && forall i :: 0 <= i < |s| ==> fds[i] == s[i].fd
  {
    seq(|s|, i requires 0 <= i < |s| => s[i].fd)
  }

  /** The connected clients, in the order of their slots. */
  function Clients(t: Table): seq<int>
    requires |t.slots| == SLOTS
  {
    Fds(Live(t.slots[1..]))
  }

  /** The first slot counts as a client although nobody is there. */
  predicate Vacant(t: Table)
    requires |t.slots| == SLOTS
  {
    t.count >= 1 && t.slots[1].fd == -1
  }

  /** Whatever lies behind the counted slots is closed, so poll looks at every descriptor in the array. */
  predicate Watched(t: Table) {
    Shaped(t) && forall i :: t.count < i < SLOTS ==> t.slots[i].fd == -1
  }

  /**
   * The form of the array in every run: among the counted slots, only the first one can be without a client; the slot
   * right behind them may hold a client with descriptor 0, which was taken for a failure; all others are closed.
   */
  ghost predicate Kept(t: Table) {
    && Shaped(t) && t.slots[0].fd >= 0
    && (forall i :: 2 <= i <= t.count ==> t.slots[i].fd >= 0)
    && (t.count >= 1 && !Vacant(t) ==> t.slots[1].fd >= 0)
    && (t.count < MAX_CLIENT_SOCKETS ==> -1 <= t.slots[t.count + 1].fd <= 0)
    && (forall i :: t.count + 1 < i < SLOTS ==> t.slots[i].fd == -1)
  }

  /** The slot of the j-th client. */
  function SlotOf(t: Table, j: nat): nat
    requires |t.slots| == SLOTS
  {
    j + if Vacant(t) then 2 else 1
  }

  lemma {:induction false} AllLive(s: seq<PollFd>)
    requires forall i :: 0 <= i < |s| ==> s[i].fd != -1
    ensures Live(s) == s && Dead(s) == []
  {
    if s != [] {
      AllLive(s[1..]);
      assert s == [s[0]] + s[1..];
    }
  }

  lemma LiveBetween(s: seq<PollFd>, a: nat, b: nat)
    requires 1 <= a <= b <= |s|
    requires forall i :: 1 <= i < a || b <= i < |s| ==> s[i].fd == -1
    ensures Live(s[1..]) == Live(s[a..b])
  {
    hide Live, Dead;
    assert s[1..] == s[1..a] + (s[a..b] + s[b..]);
    LiveConcat(s[1..a], s[a..b] + s[b..]);
    LiveConcat(s[a..b], s[b..]);
    AllDead(s[1..a]);
    AllDead(s[b..]);
  }

  /** The first slot behind all clients. */
  function EndOf(t: Table): nat
    requires Shaped(t)
  {
    t.count + if Watched(t) then 1 else 2
  }

  lemma ZeroBehind(t: Table)
    requires Kept(t)
    ensures !Watched(t) ==> t.count < MAX_CLIENT_SOCKETS && t.slots[t.count + 1].fd == 0
    ensures forall i :: 1 <= i < SlotOf(t, 0) || EndOf(t) <= i < SLOTS ==> t.slots[i].fd == -1
  {
  }

  lemma ClientAt(t: Table, k: nat)
    requires Kept(t) && SlotOf(t, 0) <= k < EndOf(t)
    ensures EndOf(t) <= SLOTS && t.slots[k].fd >= 0
  {
    ZeroBehind(t);
  }

  lemma ClientSlots(t: Table)
    requires Kept(t)
    ensures SlotOf(t, 0) <= t.count + 1 <= EndOf(t) <= SLOTS
    ensures Live(t.slots[1..]) == t.slots[SlotOf(t, 0)..EndOf(t)]
    ensures !Watched(t) ==> t.slots[t.count + 1].fd == 0
  {
    var a, b := SlotOf(t, 0), EndOf(t);
    ZeroBehind(t);
    hide Live, Watched;
    LiveBetween(t.slots, a, b);
    forall i | 0 <= i < b - a
      ensures t.slots[a..b][i].fd != -1
    {
      ClientAt(t, a + i);
    }
    AllLive(t.slots[a..b]);
  }

  /** The clients that poll looks at. */
  function Looked(t: Table): seq<int>
    requires Shaped(t)
  {
    Fds(t.slots[SlotOf(t, 0)..t.count + 1])
  }

  /**
   * The clients sit one behind the other. poll looks at all of them, or at all but the last one, which then has
   * descriptor 0; the count is one too high for those it looks at exactly when the first slot is vacant.
   */
  lemma ClientsInPlace(t: Table)
    requires Kept(t)
    ensures Clients(t) == Looked(t) + if Watched(t) then [] else [0]
    ensures |Looked(t)| == t.count - if Vacant(t) then 1 else 0
    ensures forall j :: 0 <= j < |Clients(t)| ==>
              SlotOf(t, j) < EndOf(t) <= SLOTS && t.slots[SlotOf(t, j)].fd == Clients(t)[j]
  {
    hide Live;
    ClientSlots(t);
    var a, b := SlotOf(t, 0), t.count + 1;
    if !Watched(t) {
      OneMore(t.slots, a, b);
    }
  }

  /**
   * A connection is refused exactly when poll looks at every client and five are connected, or four and the first slot
   * is vacant.
   */
  lemma RefusedWhenFull(t: Table)
    requires Kept(t) && t.slots[0].readable
    ensures !Accepting(t) <==>
            Watched(t) && |Clients(t)| == if Vacant(t) then MAX_CLIENT_SOCKETS - 1 else MAX_CLIENT_SOCKETS
  {
    ClientsInPlace(t);
  }

  lemma PollKeeps(t: Table, ready: seq<bool>)
    requires Kept(t) && |ready| == SLOTS
    ensures Kept(Polled(t, ready)) && (Watched(Polled(t, ready)) <==> Watched(t))
    ensures Clients(Polled(t, ready)) == Clients(t) && Looked(Polled(t, ready)) == Looked(t)
  {
    hide Live;
    var t' := Polled(t, ready);
    assert forall i :: 0 <= i < SLOTS ==> t'.slots[i].fd == t.slots[i].fd;
    SameFds(t.slots, t'.slots, SlotOf(t, 0), t.count + 1);
    ClientsInPlace(t);
    ClientsInPlace(t');
  }

  lemma SameFds(s: seq<PollFd>, s': seq<PollFd>, a: nat, b: nat)
    requires |s| == |s'| && a <= b <= |s|
    requires forall i :: 0 <= i < |s| ==> s[i].fd == s'[i].fd
    ensures Fds(s[a..b]) == Fds(s'[a..b])
  {
    forall j | 0 <= j < b - a
      ensures s[a..b][j].fd == s'[a..b][j].fd
    {
      assert s[a + j].fd == s'[a + j].fd;
    }
  }

  /**
   * When accept is called, whatever was in the slot behind the counted ones is overwritten: a client that was there is
   * forgotten. A new client comes last; one with descriptor 0 is not counted.
   */
  lemma AcceptKeeps(t: Table, accepted: int)
    requires Kept(t) && accepted >= -1
    ensures var t' := Accepted(t, accepted);
            && Kept(t')
            && (Watched(t') <==> if Accepting(t) then accepted != 0 else Watched(t))
            && Clients(t') ==
               (if Accepting(t) then Looked(t) + (if accepted != -1 then [accepted] else []) else Clients(t))
  {
    var t' := Accepted(t, accepted);
    AcceptForm(t, accepted);
    if Accepting(t) {
      AcceptedLooked(t, t');
      ClientsInPlace(t');
    }
  }

  lemma AcceptForm(t: Table, accepted: int)
    requires Kept(t) && accepted >= -1
    ensures var t' := Accepted(t, accepted);
            && Kept(t')
            && (Watched(t') <==> if Accepting(t) then accepted != 0 else Watched(t))
            && t'.count == t.count + (if Accepting(t) && accepted > 0 then 1 else 0) <= MAX_CLIENT_SOCKETS
            && (t'.count > t.count ==> t'.slots[t'.count].fd == accepted)
            && (forall i :: 0 <= i <= t.count ==> t'.slots[i] == t.slots[i])
  {
    var t' := Accepted(t, accepted);
    if Accepting(t) {
      assert t'.slots[t.count + 1].fd == accepted;
    }
  }

  /** The clients that poll looks at are as before, or there is one more. */
  lemma AcceptedLooked(t: Table, t': Table)
    requires Kept(t) && Kept(t') && t.count <= t'.count <= t.count + 1
    requires forall i :: 0 <= i <= t.count ==> t'.slots[i] == t.slots[i]
    requires t'.count > t.count ==> t'.slots[t'.count].fd > 0
    ensures Looked(t') == Looked(t) + if t'.count > t.count then [t'.slots[t'.count].fd] else []
  {
    var a, b := SlotOf(t, 0), t.count + 1;
    assert SlotOf(t', 0) == a;
    assert t'.slots[a..b] == t.slots[a..b];
    if t'.count > t.count {
      OneMore(t'.slots, a, b);
    }
  }

  /** The elements whose flag is set, in order. */
  function Keep(fds: seq<int>, stays: seq<bool>): seq<int>
    requires |fds| == |stays|
  {
    if fds == [] then [] else (if stays[0] then [fds[0]] else []) + Keep(fds[1..], stays[1..])
  }

  function Staying(t: Table, handled: seq<bool>): (stays: seq<bool>)
    requires Kept(t) && |handled| == SLOTS
    ensures |stays| == |Clients(t)|
    ensures forall j :: 0 <= j < |stays| ==>
              SlotOf(t, j) < SLOTS && (stays[j] <==> !Closing(t, handled, SlotOf(t, j)))
  {
    ClientsInPlace(t);
    seq(|Clients(t)|, j requires 0 <= j < |Clients(t)| => !Closing(t, handled, SlotOf(t, j)))
  }

  lemma {:induction false} LiveIsKeep(before: seq<PollFd>, after: seq<PollFd>, stays: seq<bool>)
    requires |before| == |after| == |stays|
    requires forall j :: 0 <= j < |before| ==> before[j].fd != -1
    requires forall j :: 0 <= j < |before| ==> after[j] == if stays[j] then before[j] else before[j].(fd := -1)
    ensures Fds(Live(after)) == Keep(Fds(before), stays)
  {
    if before != [] {
      LiveIsKeep(before[1..], after[1..], stays[1..]);
      assert Fds(before)[1..] == Fds(before[1..]);
    }
  }

  lemma ClosedClients(t: Table, handled: seq<bool>)
    requires Kept(t) && |handled| == SLOTS
    ensures Fds(Live(Closed(t, handled)[1..])) == Keep(Clients(t), Staying(t, handled))
  {
    var closed := Closed(t, handled);
    var a, b := SlotOf(t, 0), EndOf(t);
    ClosedSlots(t, handled);
    hide Closed, Closing, Keep, Kept, Live;
    ClientSlots(t);
    LiveBetween(closed, a, b);
    LiveIsKeep(t.slots[a..b], closed[a..b], Staying(t, handled));
  }

  lemma ClosedSlots(t: Table, handled: seq<bool>)
    requires Kept(t) && |handled| == SLOTS
    ensures var closed, a, b, stays := Closed(t, handled), SlotOf(t, 0), EndOf(t), Staying(t, handled);
            && 1 <= a <= b <= SLOTS && |stays| == b - a
            && (forall i :: 1 <= i < a || b <= i < SLOTS ==> closed[i].fd == -1)
            && (forall j :: 0 <= j < b - a ==> t.slots[a..b][j].fd != -1)
            && (forall j :: 0 <= j < b - a ==>
                  closed[a..b][j] == if stays[j] then t.slots[a..b][j] else t.slots[a..b][j].(fd := -1))
  {
    hide Live;
    ClientSlots(t);
    var closed, a, b, stays := Closed(t, handled), SlotOf(t, 0), EndOf(t), Staying(t, handled);
    forall j | 0 <= j < b - a
      ensures t.slots[a..b][j].fd != -1
      ensures closed[a..b][j] == if stays[j] then t.slots[a..b][j] else t.slots[a..b][j].(fd := -1)
    {
      assert SlotOf(t, j) == a + j && t.slots[a..b][j] == t.slots[a + j] && closed[a..b][j] == closed[a + j];
    }
  }

  /** No slot is lost or duplicated; the live ones come first, in order, and all behind them are dead. */
  lemma CompactedClients(slots: seq<PollFd>)
    requires |slots| == SLOTS
    ensures |Compacted(slots)| == SLOTS && multiset(Compacted(slots)) == multiset(slots)
    ensures Compacted(slots)[0] == slots[0]
    ensures Live(Compacted(slots)[1..]) == Live(slots[1..])
    ensures var n := |Live(slots[1..])|;
            && (forall i :: 1 <= i <= n ==> Compacted(slots)[i] == Live(slots[1..])[i - 1])
            && (forall i :: n < i < SLOTS ==> Compacted(slots)[i].fd == -1)
  {
    hide Live, Dead, Compacted;
    var s := slots[1..];
    PartitionKeeps(s);
    CompactedForm(slots);
    var c := Compacted(slots)[1..];
    assert Compacted(slots) == [slots[0]] + c && slots == [slots[0]] + s;
    if Live(s) != [] {
      LiveConcat(Live(s), Dead(s));
      assert forall i :: 0 <= i < |Live(s)| ==> Live(s)[i] in Live(s);
      assert forall i :: 0 <= i < |Dead(s)| ==> Dead(s)[i] in Dead(s);
      AllLive(Live(s));
      AllDead(Dead(s));
    } else {
      AllClosed(s);
      assert s == s[..4] + [s[4]];
      AllDead(c);
    }
  }

  lemma CompactedForm(slots: seq<PollFd>)
    requires |slots| == SLOTS
    ensures var s := slots[1..];
            Compacted(slots) == [slots[0]] + if Live(s) != [] then Live(s) + Dead(s) else [s[4]] + s[..4]
  {
  }

  lemma {:induction false} AllClosed(s: seq<PollFd>)
    requires Live(s) == []
    ensures forall i :: 0 <= i < |s| ==> s[i].fd == -1
  {
    if s != [] {
      AllClosed(s[1..]);
    }
  }

  /**
   * Handling requests drops exactly the clients whose handler fails and keeps the order of the others. If any is
   * dropped, the others move to slots 1 to n, the count becomes n, or 1 if nobody is left, and poll looks at them all.
   */
  lemma HandleKeeps(t: Table, handled: seq<bool>)
    requires Kept(t) && |handled| == SLOTS
    ensures var t' := Handled(t, handled);
            && Kept(t') && (Watched(t') <==> Watched(t) || SomeClosing(t, handled))
            && Clients(t') == Keep(Clients(t), Staying(t, handled))
            && (SomeClosing(t, handled) ==> t'.count == CountFor(|Clients(t')|) && (Vacant(t') <==> Clients(t') == []))
            && (!SomeClosing(t, handled) ==> t' == t)
  {
    hide Live, Dead, Compacted, Keep;
    var closed := Closed(t, handled);
    ClosedClients(t, handled);
    CompactedClients(closed);
    PartitionKeeps(closed[1..]);
    if SomeClosing(t, handled) {
      LiveNonNegative(closed[1..]);
    } else {
      assert closed == t.slots;
      AllStay(Clients(t), Staying(t, handled));
    }
  }

  lemma {:induction false} LiveNonNegative(s: seq<PollFd>)
    requires forall i :: 0 <= i < |s| ==> s[i].fd >= -1
    ensures forall i :: 0 <= i < |Live(s)| ==> Live(s)[i].fd >= 0
  {
    if s != [] {
      LiveNonNegative(s[1..]);
    }
  }

  lemma {:induction false} AllStay(fds: seq<int>, stays: seq<bool>)
    requires |fds| == |stays| && forall j :: 0 <= j < |stays| ==> stays[j]
    ensures Keep(fds, stays) == fds
    decreases |fds|
  {
    if fds != [] {
      AllStay(fds[1..], stays[1..]);
      assert fds == [fds[0]] + fds[1..];
    }
  }

  /**
   * One round keeps the form of the array, whatever happens. Clients that are forgotten or whose handler fails go, the
   * others keep their order, and a new one comes last. poll looks at all clients afterwards if and only if some client
   * has left, or accept was called and did not return 0, or it was not called and poll looked at all of them before.
   */
  lemma RoundKeeps(t: Table, input: Input)
    requires Kept(t) && Fits(input)
    ensures var polled := Polled(t, input.ready);
            var accepted := Accepted(polled, input.accepted);
            && Kept(accepted) && Kept(After(t, input))
            && (Watched(After(t, input)) <==>
                  SomeClosing(accepted, input.handled) || if Accepting(polled) then input.accepted != 0 else Watched(t))
            && Clients(accepted) ==
               (if Accepting(polled) then Looked(t) + (if input.accepted != -1 then [input.accepted] else [])
                else Clients(t))
            && Clients(After(t, input)) == Keep(Clients(accepted), Staying(accepted, input.handled))
  {
    hide Clients, Compacted, Keep, Live, Looked;
    var polled := Polled(t, input.ready);
    PollKeeps(t, input.ready);
    AcceptKeeps(polled, input.accepted);
    HandleKeeps(Accepted(polled, input.accepted), input.handled);
  }

  /** accept is called and returns descriptor 0, and no client leaves in that round. */
  predicate LosesSight(t: Table, input: Input)
    requires Shaped(t) && Fits(input)
  {
    && Accepting(Polled(t, input.ready)) && input.accepted == 0
    && !SomeClosing(Accepted(Polled(t, input.ready), input.accepted), input.handled)
  }

  /** The exact condition for one round: poll goes on looking at every client unless it loses sight of a new one. */
  lemma WatchedStep(t: Table, input: Input)
    requires Kept(t) && Watched(t) && Fits(input)
    ensures Watched(After(t, input)) <==> !LosesSight(t, input)
  {
    hide After, Kept;
    RoundKeeps(t, input);
  }

  /** The array after the first k rounds. */
  function At(listeningSocket: int, inputs: seq<Input>, k: nat): (t: Table)
    requires k <= |inputs| && forall i :: i in inputs ==> Fits(i)
    ensures Shaped(t)
  {
    AfterAll(Started(listeningSocket), inputs[..k])
  }

  lemma AtNext(listeningSocket: int, inputs: seq<Input>, k: nat)
    requires k < |inputs| && forall i :: i in inputs ==> Fits(i)
    ensures Fits(inputs[k]) && At(listeningSocket, inputs, k + 1) == After(At(listeningSocket, inputs, k), inputs[k])
  {
    hide After;
    assert inputs[..k + 1][..k] == inputs[..k] && inputs[k] in inputs;
  }

  /** In every run, whatever poll, accept and the handlers do, the array has its form; so the count is at most 5. */
  lemma {:induction false} AlwaysKept(listeningSocket: int, inputs: seq<Input>, k: nat)
    requires k <= |inputs| && listeningSocket >= 0 && forall i :: i in inputs ==> Fits(i)
    ensures Kept(At(listeningSocket, inputs, k))
  {
    if k == 0 {
      NobodyAtFirst(listeningSocket);
    } else {
      hide After, At, Kept;
      AlwaysKept(listeningSocket, inputs, k - 1);
      AtNext(listeningSocket, inputs, k - 1);
      RoundKeeps(At(listeningSocket, inputs, k - 1), inputs[k - 1]);
    }
  }

  lemma WatchedNext(listeningSocket: int, inputs: seq<Input>, k: nat)
    requires k < |inputs| && listeningSocket >= 0 && (forall i :: i in inputs ==> Fits(i))
    requires Watched(At(listeningSocket, inputs, k))
    ensures Watched(At(listeningSocket, inputs, k + 1)) <==> !LosesSight(At(listeningSocket, inputs, k), inputs[k])
  {
    hide After, At, Kept, LosesSight, Watched;
    AlwaysKept(listeningSocket, inputs, k);
    AtNext(listeningSocket, inputs, k);
    WatchedStep(At(listeningSocket, inputs, k), inputs[k]);
  }

  lemma {:induction false} WatchedUpTo(listeningSocket: int, inputs: seq<Input>, k: nat)
    requires k <= |inputs| && listeningSocket >= 0 && forall i :: i in inputs ==> Fits(i)
    requires forall j :: 0 <= j < k ==> !LosesSight(At(listeningSocket, inputs, j), inputs[j])
    ensures Watched(At(listeningSocket, inputs, k))
  {
    if k > 0 {
      hide At, LosesSight, Watched;
      WatchedUpTo(listeningSocket, inputs, k - 1);
      WatchedNext(listeningSocket, inputs, k - 1);
    }
  }

  /** The exact condition for runs: poll looks at every client all along if and only if no round loses sight of one. */
  lemma WatchedExactly(listeningSocket: int, inputs: seq<Input>)
    requires listeningSocket >= 0 && forall i :: i in inputs ==> Fits(i)
    ensures (forall k :: 0 <= k <= |inputs| ==> Watched(At(listeningSocket, inputs, k))) <==>
            (forall k :: 0 <= k < |inputs| ==> !LosesSight(At(listeningSocket, inputs, k), inputs[k]))
  {
    hide At, LosesSight, Watched;
    if forall k :: 0 <= k <= |inputs| ==> Watched(At(listeningSocket, inputs, k)) {
      forall k | 0 <= k < |inputs|
        ensures !LosesSight(At(listeningSocket, inputs, k), inputs[k])
      {
        WatchedNext(listeningSocket, inputs, k);
      }
    }
    if forall k :: 0 <= k < |inputs| ==> !LosesSight(At(listeningSocket, inputs, k), inputs[k]) {
      forall k | 0 <= k <= |inputs|
        ensures Watched(At(listeningSocket, inputs, k))
      {
        WatchedUpTo(listeningSocket, inputs, k);
      }
    }
  }

  /** poll looks at every positive descriptor. */
  ghost predicate PositivePolled(t: Table) {
    Shaped(t) && forall i :: t.count < i < SLOTS ==> t.slots[i].fd <= 0
  }

  lemma RoundPollsPositive(t: Table, input: Input)
    requires PositivePolled(t) && Fits(input)
    ensures PositivePolled(After(t, input))
  {
    hide Compacted, Live;
    var accepted := Accepted(Polled(t, input.ready), input.accepted);
    HandledShaped(accepted, input.handled);
    var closed := Closed(accepted, input.handled);
    CompactedClients(closed);
  }

  /** In every run, whatever accept returns, poll looks at every client with a positive descriptor. */
  lemma {:induction false} AlwaysPollsPositive(listeningSocket: int, inputs: seq<Input>)
    requires forall i :: i in inputs ==> Fits(i)
    ensures PositivePolled(AfterAll(Started(listeningSocket), inputs))
  {
    if inputs != [] {
      var n := |inputs| - 1;
      AlwaysPollsPositive(listeningSocket, inputs[..n]);
      assert inputs[n] in inputs;
      RoundPollsPositive(AfterAll(Started(listeningSocket), inputs[..n]), inputs[n]);
    }
  }

  /** The first slot stays vacant until some client leaves, and that long there is room for four clients only. */
  lemma VacantSlotStays(t: Table, input: Input)
    requires Shaped(t) && Vacant(t) && Fits(input)
    requires !SomeClosing(Accepted(Polled(t, input.ready), input.accepted), input.handled)
    ensures Vacant(After(t, input)) && |Clients(After(t, input))| <= MAX_CLIENT_SOCKETS - 1
  {
    var slots := After(t, input).slots;
    assert slots[1].fd == -1;
    assert slots[1..] == [slots[1]] + slots[2..];
    PartitionKeeps(slots[2..]);
  }

  const NOBODY := [false, false, false, false, false, false]

  /** Only the listening socket is ready. */
  const NEW_CLIENT := [true, false, false, false, false, false]

  const FIRST_CLIENT_READY := [false, true, false, false, false, false]

  /** One client comes and goes, and then four others come. */
  const FOUR_AFTER_ONE :=
    [Input(NEW_CLIENT, 4, NOBODY), Input(FIRST_CLIENT_READY, -1, NOBODY),
     Input(NEW_CLIENT, 5, NOBODY), Input(NEW_CLIENT, 6, NOBODY),
     Input(NEW_CLIENT, 7, NOBODY), Input(NEW_CLIENT, 8, NOBODY)]

  /** One more round after those of inputs, which lead to t. */
  lemma Follow(t0: Table, inputs: seq<Input>, t: Table, input: Input)
    requires Shaped(t0) && (forall i :: i in inputs ==> Fits(i)) && Fits(input)
    requires AfterAll(t0, inputs) == t
    ensures AfterAll(t0, inputs + [input]) == After(t, input)
  {
    assert (inputs + [input])[..|inputs|] == inputs;
  }

  /** One round in which only the listening socket is ready: a new client comes, and nobody leaves. */
  lemma ComesAlone(t: Table, fd: int) returns (t': Table)
    requires Kept(t) && t.count < MAX_CLIENT_SOCKETS && fd >= 0
    ensures t' == After(t, Input(NEW_CLIENT, fd, NOBODY)) && Kept(t') && (Watched(t') <==> fd != 0)
    ensures Clients(t') == Looked(t) + [fd] && t'.count == t.count + if fd > 0 then 1 else 0
  {
    assert Shaped(t);
    hide Clients, Compacted, Dead, Keep, Kept, Live, Looked, Watched;
    var polled := Polled(t, NEW_CLIENT);
    var accepted := Accepted(polled, fd);
    t' := After(t, Input(NEW_CLIENT, fd, NOBODY));
    ListenerReady(t);
    PollKeeps(t, NEW_CLIENT);
    AcceptKeeps(polled, fd);
    HandleKeeps(accepted, NOBODY);
    NobodyReady(t, fd);
  }

  lemma ListenerReady(t: Table)
    requires Kept(t) && t.count < MAX_CLIENT_SOCKETS
    ensures Accepting(Polled(t, NEW_CLIENT))
  {
  }

  lemma NobodyReady(t: Table, fd: int)
    requires Shaped(t)
    ensures !SomeClosing(Accepted(Polled(t, NEW_CLIENT), fd), NOBODY)
  {
  }

  lemma Arrives(t: Table, fd: int) returns (t': Table)
    requires Kept(t) && Watched(t) && t.count < MAX_CLIENT_SOCKETS && fd > 0
    ensures t' == After(t, Input(NEW_CLIENT, fd, NOBODY)) && Kept(t') && Watched(t')
    ensures Clients(t') == Clients(t) + [fd] && t'.count == t.count + 1
  {
    hide After, Clients, Kept, Looked, Watched;
    t' := ComesAlone(t, fd);
    ClientsInPlace(t);
  }

  /** The only client leaves. */
  lemma Leaves(t: Table) returns (t': Table)
    requires Kept(t) && Watched(t) && t.count == 1 && !Vacant(t)
    ensures t' == After(t, Input(FIRST_CLIENT_READY, -1, NOBODY)) && Kept(t') && Watched(t')
    ensures Clients(t') == [] && t'.count == 1
  {
    assert Shaped(t);
    hide Clients, Compacted, Dead, Keep, Kept, Live, Looked;
    var input := Input(FIRST_CLIENT_READY, -1, NOBODY);
    var polled := Polled(t, FIRST_CLIENT_READY);
    t' := After(t, input);
    PollKeeps(t, FIRST_CLIENT_READY);
    HandleKeeps(polled, NOBODY);
    OnlyOneGoes(t);
  }

  lemma NotVacant(t: Table)
    requires Kept(t) && Watched(t) && t.count == 1 && |Clients(t)| == 1
    ensures !Vacant(t)
  {
    ClientsInPlace(t);
  }

  lemma OnlyOneGoes(t: Table)
    requires Kept(t) && Watched(t) && t.count == 1 && !Vacant(t)
    ensures var polled := Polled(t, FIRST_CLIENT_READY);
            && Accepted(polled, -1) == polled && Kept(polled) && SomeClosing(polled, NOBODY)
            && Keep(Clients(polled), Staying(polled, NOBODY)) == []
  {
    hide Clients;
    var polled := Polled(t, FIRST_CLIENT_READY);
    ClientsInPlace(polled);
    assert Closing(polled, NOBODY, 1);
    assert |Clients(polled)| == 1 && !Staying(polled, NOBODY)[0];
  }

  /** A fifth client would be refused although only four are connected. */
  lemma OnePlaceLost()
    ensures var t := AfterAll(Started(3), FOUR_AFTER_ONE);
            && Clients(t) == [5, 6, 7, 8]
            && !Accepting(Polled(t, NEW_CLIENT))
  {
    hide After, Clients, Kept, Looked, Watched;
    var t0 := Started(3);
    NobodyAtFirst(3);
    var t1 := Arrives(t0, 4);
    NotVacant(t1);
    var t2 := Leaves(t1);
    var t3 := Arrives(t2, 5);
    var t4 := Arrives(t3, 6);
    var t5 := Arrives(t4, 7);
    var t6 := Arrives(t5, 8);
    var rounds := FOUR_AFTER_ONE;
    assert rounds == [rounds[0]] + [rounds[1]] + [rounds[2]] + [rounds[3]] + [rounds[4]] + [rounds[5]];
    Follow(t0, [], t0, rounds[0]);
    assert [] + [rounds[0]] == [rounds[0]];
    Follow(t0, [rounds[0]], t1, rounds[1]);
    Follow(t0, [rounds[0]] + [rounds[1]], t2, rounds[2]);
    Follow(t0, [rounds[0]] + [rounds[1]] + [rounds[2]], t3, rounds[3]);
    Follow(t0, [rounds[0]] + [rounds[1]] + [rounds[2]] + [rounds[3]], t4, rounds[4]);
    Follow(t0, [rounds[0]] + [rounds[1]] + [rounds[2]] + [rounds[3]] + [rounds[4]], t5, rounds[5]);
  }

  const GETS_ZERO := Input(NEW_CLIENT, 0, NOBODY)

  lemma ZeroArrives(t: Table) returns (t': Table)
    requires Kept(t) && Watched(t) && t.count < MAX_CLIENT_SOCKETS
    ensures t' == After(t, GETS_ZERO) && Kept(t') && !Watched(t')
    ensures Clients(t') == Clients(t) + [0] && Looked(t') == Clients(t) && t'.count == t.count
  {
    assert Shaped(t);
    hide After, Clients, Kept, Looked, Watched;
    t' := ComesAlone(t, 0);
    ClientsInPlace(t);
    ClientsInPlace(t');
    assert Looked(t) + [] == Looked(t);
    assert Looked(t') == Clients(t')[..|Clients(t')| - 1] == Looked(t);
  }

  /** A client that gets descriptor 0 is connected, but neither counted nor looked at by poll. */
  lemma ZeroIsLost()
    ensures var t := AfterAll(Started(3), [GETS_ZERO]);
            Clients(t) == [0] && t.count == 0 && !Watched(t)
  {
    NobodyAtFirst(3);
    var t := ZeroArrives(Started(3));
    Follow(Started(3), [], Started(3), GETS_ZERO);
    assert [] + [GETS_ZERO] == [GETS_ZERO];
  }

  /** The next call of accept overwrites its slot: the client is gone from the array, although nobody has closed it. */
  lemma ZeroIsForgotten()
    ensures var t := AfterAll(Started(3), [GETS_ZERO, Input(NEW_CLIENT, 4, NOBODY)]);
            Clients(t) == [4] && Watched(t)
  {
    hide After, Clients, Kept, Looked, Watched;
    var input := Input(NEW_CLIENT, 4, NOBODY);
    NobodyAtFirst(3);
    var t := ZeroArrives(Started(3));
    Follow(Started(3), [], Started(3), GETS_ZERO);
    Follow(Started(3), [GETS_ZERO], t, input);
    assert [] + [GETS_ZERO] == [GETS_ZERO] && [GETS_ZERO] + [input] == [GETS_ZERO, input];
    var t' := ComesAlone(t, 4);
    assert [] + [4] == [4];
  }

  const ZERO_AND_LEAVE := Input([true, true, false, false, false, false], 0, NOBODY)

  /** If another client leaves in the round in which one gets descriptor 0, compaction brings that one into sight. */
  lemma ZeroIsFound()
    ensures var t := AfterAll(Started(3), [Input(NEW_CLIENT, 4, NOBODY), ZERO_AND_LEAVE]);
            Clients(t) == [0] && t.count == 1 && Watched(t)
  {
    hide After, Clients, Kept, Looked, Watched;
    var input := Input(NEW_CLIENT, 4, NOBODY);
    NobodyAtFirst(3);
    var t := Arrives(Started(3), 4);
    Follow(Started(3), [], Started(3), input);
    Follow(Started(3), [input], t, ZERO_AND_LEAVE);
    assert [] + [input] == [input] && [input] + [ZERO_AND_LEAVE] == [input, ZERO_AND_LEAVE];
    FirstLeaves(t);
  }

  lemma FirstLeaves(t: Table)
    requires Kept(t) && Watched(t) && t.count == 1 && Clients(t) == [4]
    ensures Clients(After(t, ZERO_AND_LEAVE)) == [0] && After(t, ZERO_AND_LEAVE).count == 1
    ensures Watched(After(t, ZERO_AND_LEAVE))
  {
    assert Shaped(t);
    hide Clients, Compacted, Dead, Kept, Live, Looked, Watched;
    var polled := Polled(t, ZERO_AND_LEAVE.ready);
    var accepted := Accepted(polled, 0);
    FirstAndListenerReady(t);
    PollKeeps(t, ZERO_AND_LEAVE.ready);
    AcceptKeeps(polled, 0);
    HandleKeeps(accepted, NOBODY);
    FirstGoes(accepted);
  }

  lemma FirstAndListenerReady(t: Table)
    requires Kept(t) && Watched(t) && t.count == 1 && Clients(t) == [4]
    ensures Accepting(Polled(t, ZERO_AND_LEAVE.ready)) && Looked(t) == [4]
    ensures Accepted(Polled(t, ZERO_AND_LEAVE.ready), 0).slots[1] == PollFd(4, true)
    ensures Accepted(Polled(t, ZERO_AND_LEAVE.ready), 0).count == 1
  {
    hide Clients;
    ClientsInPlace(t);
  }

  lemma FirstGoes(t: Table)
    requires Kept(t) && t.count == 1 && t.slots[1] == PollFd(4, true) && Clients(t) == [4, 0]
    ensures SomeClosing(t, NOBODY) && Keep(Clients(t), Staying(t, NOBODY)) == [0]
  {
    hide Clients;
    assert Closing(t, NOBODY, 1);
    var stays := Staying(t, NOBODY);
    assert SlotOf(t, 0) == 1 && !stays[0] && stays[1];
    assert Keep([4, 0], stays) == Keep([0], stays[1..]) == [0];
  }

  lemma NobodyAtFirst(listeningSocket: int)
    requires listeningSocket >= 0
    ensures Kept(Started(listeningSocket)) && Watched(Started(listeningSocket))
    ensures Clients(Started(listeningSocket)) == []
  {
    AllDead(Started(listeningSocket).slots[1..]);
  }
}
