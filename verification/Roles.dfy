/**
 * Registration and promotion of servers over two ephemeral znodes. Any number of processes take turns; every
 * ZooKeeper call is one step; a process may crash and a session may expire at any point, in either order. Answers of
 * "exists" are arbitrary, so they may be stale; only create, get and delete look at the znodes.
 */
module Roles {
  import opened ServerRoles
  import opened Wrappers

  type ProcessId = nat

  datatype Znode = Znode(owner: ProcessId, address: string)

  datatype ExistsAnswer = ZOK | ZNONODE | ZERROR

  /** Where a process is in zk_register_tree_server (Reg...) or zk_update_server_roles (Upd...). */
  datatype Pc =
    | RegCheckPrimary
    | RegCreatePrimary
    | RegSetPrimary
    | RegCheckBackup
    | RegCreateBackup
    | RegSetBackup
    | Serving
    | UpdCheckPrimary
    | UpdCheckBackup
    | UpdGet
    | UpdCreatePrimary(address: string)
    | UpdSetRole
    | UpdDelete

  datatype Process = Process(address: string, role: ServerRole, pc: Pc, alive: bool, session: bool)

  datatype Cluster = Cluster(primary: Option<Znode>, backup: Option<Znode>, processes: map<ProcessId, Process>)

  const EMPTY := Cluster(None, None, map[])

  datatype Event =
    | Start(id: ProcessId, address: string)
    | Advance(id: ProcessId, answer: ExistsAnswer)
    | Notify(id: ProcessId)
    | Crash(id: ProcessId)
    | Expire(id: ProcessId)

  predicate Enabled(c: Cluster, e: Event) {
    match e
    case Start(id, _) => id !in c.processes
    case Advance(id, _) => id in c.processes && c.processes[id].alive && !c.processes[id].pc.Serving?
    case Notify(id) => id in c.processes && c.processes[id].alive && c.processes[id].pc.Serving?
    case Crash(id) => id in c.processes && c.processes[id].alive
    case Expire(id) => id in c.processes && c.processes[id].session
  }

  /** The ephemeral znodes of a session vanish with it. */
  function Without(z: Option<Znode>, id: ProcessId): Option<Znode> {
    if z.Some? && z.value.owner == id then None else z
  }

  function Update(c: Cluster, id: ProcessId, p: Process): Cluster {
    c.(processes := c.processes[id := p])
  }

  function Step(c: Cluster, e: Event): Cluster
    requires Enabled(c, e)
  {
    match e
    case Start(id, address) => Update(c, id, Process(address, NONE, RegCheckPrimary, true, true))
    case Advance(id, answer) => AdvanceProcess(c, id, c.processes[id], answer)
    case Notify(id) =>
      var p := c.processes[id];
      if p.role == BACKUP then Update(c, id, p.(pc := UpdCheckPrimary)) else c
    case Crash(id) => Update(c, id, c.processes[id].(alive := false))
    case Expire(id) =>
      Cluster(Without(c.primary, id), Without(c.backup, id), c.processes[id := c.processes[id].(session := false)])
  }

  /** One step of the two functions; a failed registration ends the process. */
  function AdvanceProcess(c: Cluster, id: ProcessId, p: Process, answer: ExistsAnswer): Cluster {
    match p.pc
    case RegCheckPrimary => Update(c, id, p.(pc := if answer == ZNONODE then RegCreatePrimary else RegCheckBackup))
    case RegCreatePrimary =>
      if p.session && c.primary.None? then
        Update(c.(primary := Some(Znode(id, p.address))), id, p.(pc := RegSetPrimary))
      else Update(c, id, p.(alive := false))
    case RegSetPrimary => Update(c, id, p.(role := PRIMARY, pc := Serving))
    case RegCheckBackup =>
      Update(c, id, if answer == ZNONODE then p.(pc := RegCreateBackup) else p.(alive := false))
    case RegCreateBackup =>
      if p.session && c.backup.None? then
        Update(c.(backup := Some(Znode(id, p.address))), id, p.(pc := RegSetBackup))
      else Update(c, id, p.(alive := false))
    case RegSetBackup => Update(c, id, p.(role := BACKUP, pc := Serving))
    case Serving => c
    case UpdCheckPrimary => Update(c, id, p.(pc := if answer == ZNONODE then UpdCheckBackup else Serving))
    case UpdCheckBackup => Update(c, id, p.(pc := if answer == ZOK then UpdGet else Serving))
    case UpdGet =>
      Update(c, id, p.(pc := if p.session && c.backup.Some? then UpdCreatePrimary(c.backup.value.address) else Serving))
    case UpdCreatePrimary(address) =>
      if p.session && c.primary.None? then
        Update(c.(primary := Some(Znode(id, address))), id, p.(pc := UpdSetRole))
      else Update(c, id, p.(pc := Serving))
    case UpdSetRole => Update(c, id, p.(role := if p.role == BACKUP then PRIMARY else p.role, pc := UpdDelete))
    case UpdDelete => Update(if p.session then c.(backup := None) else c, id, p.(pc := Serving))
  }

  function After(es: seq<Event>): Option<Cluster> {
    if es == [] then Some(EMPTY)
    else
      var last := es[|es| - 1];
      match After(es[..|es| - 1])
      case None => None
      case Some(c) => if Enabled(c, last) then Some(Step(c, last)) else None
  }

  // ---------- The invariant ----------

  predicate OwnsPrimary(c: Cluster, id: ProcessId) {
    c.primary.Some? && c.primary.value.owner == id
  }

  predicate OwnsBackup(c: Cluster, id: ProcessId) {
    c.backup.Some? && c.backup.value.owner == id
  }

  /** Between creating the primary znode and deleting its own backup znode. */
  predicate Promoting(p: Process) {
    p.pc.UpdSetRole? || p.pc.UpdDelete?
  }

  predicate RoleFitsPc(p: Process) {
    match p.pc
    case Serving => true
    case UpdDelete => p.role == PRIMARY
    case UpdCreatePrimary(address) => p.role == BACKUP && (p.session ==> address == p.address)
    case UpdCheckPrimary => p.role == BACKUP
    case UpdCheckBackup => p.role == BACKUP
    case UpdGet => p.role == BACKUP
    case UpdSetRole => p.role == BACKUP
    case _ => p.role == NONE
  }

  /** The process counts on owning the primary znode, or the backup znode. */
  predicate ClaimsPrimary(p: Process) {
    p.role == PRIMARY || p.pc.RegSetPrimary? || p.pc.UpdSetRole?
  }

  predicate ClaimsBackup(p: Process) {
    p.role == BACKUP || p.pc.RegSetBackup? || p.pc.UpdDelete?
  }

  ghost predicate ProcessKept(c: Cluster, id: ProcessId)
    requires id in c.processes
  {
    var p := c.processes[id];
    && RoleFitsPc(p)
    && (OwnsPrimary(c, id) <==> p.session && ClaimsPrimary(p))
    && (OwnsBackup(c, id) <==> p.session && ClaimsBackup(p))
    && (OwnsPrimary(c, id) ==> c.primary.value.address == p.address)
    && (OwnsBackup(c, id) ==> c.backup.value.address == p.address)
  }

  ghost predicate Inv(c: Cluster) {
    && (forall id :: id in c.processes ==> ProcessKept(c, id))
    && (c.primary.Some? ==> c.primary.value.owner in c.processes)
    && (c.backup.Some? ==> c.backup.value.owner in c.processes)
  }

  lemma RegistrationKept(c: Cluster, id: ProcessId, answer: ExistsAnswer)
    requires id in c.processes && ProcessKept(c, id) && c.processes[id].role == NONE
    ensures var c' := AdvanceProcess(c, id, c.processes[id], answer);
            id in c'.processes && ProcessKept(c', id)
  {
  }

  lemma UpdateKept(c: Cluster, id: ProcessId, answer: ExistsAnswer)
    requires id in c.processes && ProcessKept(c, id) && c.processes[id].role != NONE
    ensures var c' := AdvanceProcess(c, id, c.processes[id], answer);
            id in c'.processes && ProcessKept(c', id)
  {
  }

  lemma OwnStepKept(c: Cluster, e: Event)
    requires Inv(c) && Enabled(c, e)
    ensures e.id in Step(c, e).processes && ProcessKept(Step(c, e), e.id)
  {
    assert e.id in c.processes ==> ProcessKept(c, e.id);
    if e.Advance? {
      hide AdvanceProcess, ProcessKept;
      if c.processes[e.id].role == NONE {
        RegistrationKept(c, e.id, e.answer);
      } else {
        UpdateKept(c, e.id, e.answer);
      }
    }
  }

  /** A step of one process neither gives nor takes a znode of another process. */
  lemma OthersKeepNodes(c: Cluster, e: Event, id: ProcessId)
    requires Inv(c) && Enabled(c, e) && id != e.id
    ensures OwnsPrimary(Step(c, e), id) <==> OwnsPrimary(c, id)
    ensures OwnsBackup(Step(c, e), id) <==> OwnsBackup(c, id)
    ensures OwnsPrimary(c, id) ==> Step(c, e).primary == c.primary
    ensures OwnsBackup(c, id) ==> Step(c, e).backup == c.backup
    ensures id in Step(c, e).processes <==> id in c.processes
    ensures id in c.processes ==> Step(c, e).processes[id] == c.processes[id]
  {
    assert e.id in c.processes ==> ProcessKept(c, e.id);
  }

  lemma StepKeepsInv(c: Cluster, e: Event)
    requires Inv(c) && Enabled(c, e)
    ensures Inv(Step(c, e))
  {
    var c' := Step(c, e);
    OwnStepKept(c, e);
    forall id | id in c'.processes && id != e.id
      ensures ProcessKept(c', id)
    {
      OthersKeepNodes(c, e, id);
      assert ProcessKept(c, id);
    }
    OwnersStay(c, e);
  }

  lemma OwnersStay(c: Cluster, e: Event)
    requires Inv(c) && Enabled(c, e)
    ensures var c' := Step(c, e);
            && (c'.primary.Some? ==> c'.primary.value.owner in c'.processes)
            && (c'.backup.Some? ==> c'.backup.value.owner in c'.processes)
  {
  }

  lemma {:induction false} AlwaysInv(es: seq<Event>)
    requires After(es).Some?
    ensures Inv(After(es).value)
  {
    if es != [] {
      AlwaysInv(es[..|es| - 1]);
      StepKeepsInv(After(es[..|es| - 1]).value, es[|es| - 1]);
    }
  }

  // ---------- Safety ----------

  /** A process with role PRIMARY owns the primary znode exactly as long as its session is open. */
  lemma PrimaryOwnsItsNode(es: seq<Event>, id: ProcessId)
    requires After(es).Some? && id in After(es).value.processes
    requires After(es).value.processes[id].role == PRIMARY
    ensures var c := After(es).value;
            var p := c.processes[id];
            p.session <==> c.primary == Some(Znode(id, p.address))
  {
    AlwaysInv(es);
    assert ProcessKept(After(es).value, id);
  }

  /** No two processes with open sessions have the same role, whatever the "exists" reads answered. */
  lemma RolesAreUnique(es: seq<Event>, a: ProcessId, b: ProcessId)
    requires After(es).Some? && a in After(es).value.processes && b in After(es).value.processes && a != b
    requires After(es).value.processes[a].session && After(es).value.processes[b].session
    ensures var ra, rb := After(es).value.processes[a].role, After(es).value.processes[b].role;
            ra == rb ==> ra == NONE
  {
    AlwaysInv(es);
    assert ProcessKept(After(es).value, a) && ProcessKept(After(es).value, b);
  }

  /** Sessions end only after their process has crashed. */
  ghost predicate SessionsOutliveProcesses(es: seq<Event>) {
    forall k :: 0 <= k < |es| && es[k].Expire? && After(es[..k]).Some? && es[k].id in After(es[..k]).value.processes ==>
      !After(es[..k]).value.processes[es[k].id].alive
  }

  lemma StepLiveSession(c: Cluster, e: Event, id: ProcessId)
    requires Enabled(c, e) && id in Step(c, e).processes && Step(c, e).processes[id].alive
    requires e.Expire? ==> !c.processes[e.id].alive
    ensures id in c.processes ==>
              c.processes[id].alive && Step(c, e).processes[id].session == c.processes[id].session
    ensures id !in c.processes ==> Step(c, e).processes[id].session
  {
  }

  lemma {:induction false} LiveHasSession(es: seq<Event>, id: ProcessId)
    requires After(es).Some? && SessionsOutliveProcesses(es)
    requires id in After(es).value.processes && After(es).value.processes[id].alive
    ensures After(es).value.processes[id].session
    decreases |es|
  {
    if es != [] {
      var n := |es| - 1;
      forall k | 0 <= k < n
        ensures es[..n][..k] == es[..k]
      {
      }
      assert SessionsOutliveProcesses(es[..n]);
      StepLiveSession(After(es[..n]).value, es[n], id);
      if id in After(es[..n]).value.processes {
        LiveHasSession(es[..n], id);
      }
    }
  }

  // ---------- When live processes have unique roles ----------

  /** The process has the role, or will have it after a step that nothing can keep it from. */
  predicate Claims(p: Process, role: ServerRole) {
    match role
    case PRIMARY => ClaimsPrimary(p)
    case BACKUP => p.role == BACKUP || p.pc.RegSetBackup?
    case NONE => false
  }

  /** The session of a live process expires although the process claims the role. */
  predicate Undermines(c: Cluster, e: Event, role: ServerRole) {
    e.Expire? && e.id in c.processes && c.processes[e.id].alive && Claims(c.processes[e.id], role)
  }

  /** Every live process that claims the role still has its session. */
  ghost predicate Sound(c: Cluster, role: ServerRole) {
    forall id :: id in c.processes && c.processes[id].alive && Claims(c.processes[id], role) ==> c.processes[id].session
  }

  predicate LiveAs(c: Cluster, id: ProcessId, role: ServerRole) {
    id in c.processes && c.processes[id].alive && c.processes[id].role == role
  }

  ghost predicate AtMostOne(c: Cluster, role: ServerRole) {
    forall a, b :: LiveAs(c, a, role) && LiveAs(c, b, role) ==> a == b
  }

  /** No event of the run from position start on undermines the role. */
  ghost predicate Quiet(es: seq<Event>, start: nat, role: ServerRole) {
    forall k :: start <= k < |es| && After(es[..k]).Some? ==> !Undermines(After(es[..k]).value, es[k], role)
  }

  /** In a sound state no two live processes have the role: both would own the znode of that role. */
  lemma SoundIsUnique(c: Cluster, role: ServerRole)
    requires Inv(c) && Sound(c, role) && role != NONE
    ensures AtMostOne(c, role)
  {
    forall a, b | LiveAs(c, a, role) && LiveAs(c, b, role)
      ensures a == b
    {
      assert ProcessKept(c, a) && ProcessKept(c, b);
      assert Claims(c.processes[a], role) && Claims(c.processes[b], role);
    }
  }

  /** One process starts to claim a role only while its session is open. */
  lemma OwnStepSound(c: Cluster, e: Event, role: ServerRole)
    requires Inv(c) && Enabled(c, e) && Sound(c, role) && !Undermines(c, e, role)
    ensures var p := Step(c, e).processes[e.id];
            p.alive && Claims(p, role) ==> p.session
  {
    assert e.id in c.processes ==> ProcessKept(c, e.id);
  }

  /** A step keeps the state sound if and only if it is not the expiry of the session of a live claimer. */
  lemma SoundStep(c: Cluster, e: Event, role: ServerRole)
    requires Inv(c) && Enabled(c, e) && Sound(c, role)
    ensures Sound(Step(c, e), role) <==> !Undermines(c, e, role)
  {
    var c' := Step(c, e);
    if Undermines(c, e, role) {
      var p := c'.processes[e.id];
      assert p.alive && Claims(p, role) && !p.session;
    } else {
      OwnStepSound(c, e, role);
      forall id | id in c'.processes && c'.processes[id].alive && Claims(c'.processes[id], role)
        ensures c'.processes[id].session
      {
        if id != e.id {
          OthersKeepNodes(c, e, id);
        }
      }
    }
  }

  /** From a sound state, a run without such an expiry leads to sound states only. */
  lemma {:induction false} QuietIsSound(es: seq<Event>, start: nat, role: ServerRole)
    requires start <= |es| && After(es).Some? && After(es[..start]).Some? && Sound(After(es[..start]).value, role)
    requires Quiet(es, start, role)
    ensures Sound(After(es).value, role)
    decreases |es|
  {
    if start == |es| {
      assert es[..start] == es;
    } else {
      var n := |es| - 1;
      assert forall k :: 0 <= k <= n ==> es[..n][..k] == es[..k];
      assert Quiet(es[..n], start, role);
      QuietIsSound(es[..n], start, role);
      AlwaysInv(es[..n]);
      SoundStep(After(es[..n]).value, es[n], role);
    }
  }

  /** In every run in which no session expires under a live claimer of the role, at most one live process has it. */
  lemma LiveRolesAreUnique(es: seq<Event>, role: ServerRole)
    requires After(es).Some? && Quiet(es, 0, role) && role != NONE
    ensures AtMostOne(After(es).value, role)
  {
    assert es[..0] == [];
    QuietIsSound(es, 0, role);
    AlwaysInv(es);
    SoundIsUnique(After(es).value, role);
  }

  /** Sessions that end only after their processes undermine no role. */
  lemma LastingSessionsAreQuiet(es: seq<Event>, role: ServerRole)
    requires SessionsOutliveProcesses(es)
    ensures Quiet(es, 0, role)
  {
  }

  /** A run that goes on from es without undermining the role, but ends with two live processes that have it. */
  ghost predicate SplitsLater(es: seq<Event>, run: seq<Event>, role: ServerRole) {
    es <= run && After(run).Some? && Quiet(run, |es|, role) && !AtMostOne(After(run).value, role)
  }

  /**
   * The exact condition: from a reachable state on, every continuation in which no session expires under a live
   * claimer of the role keeps the role unique among live processes, if and only if every live claimer has its session.
   */
  lemma UniqueExactlyWhenSound(es: seq<Event>, role: ServerRole)
    requires After(es).Some? && role != NONE
    ensures Sound(After(es).value, role) <==> !exists run :: SplitsLater(es, run, role)
  {
    if Sound(After(es).value, role) {
      forall run | es <= run && After(run).Some? && Quiet(run, |es|, role)
        ensures AtMostOne(After(run).value, role)
      {
        assert run[..|es|] == es;
        QuietIsSound(run, |es|, role);
        AlwaysInv(run);
        SoundIsUnique(After(run).value, role);
      }
    } else {
      var run := SplitRun(es, role);
    }
  }

  /**
   * The same as a condition on one expiry: after it, such a continuation with two live holders of the role exists if
   * and only if the expired session was that of a live process that claims the role.
   */
  lemma ExpiryIsHarmful(es: seq<Event>, id: ProcessId, role: ServerRole)
    requires After(es).Some? && role != NONE && Sound(After(es).value, role)
    requires Enabled(After(es).value, Expire(id))
    ensures (exists run :: SplitsLater(es + [Expire(id)], run, role)) <==>
            After(es).value.processes[id].alive && Claims(After(es).value.processes[id], role)
  {
    AlwaysInv(es);
    var es', c' := Follow(es, After(es).value, Expire(id));
    SoundStep(After(es).value, Expire(id), role);
    UniqueExactlyWhenSound(es', role);
  }

  // ---------- From an unsound state to two holders of a role ----------

  /** Runs one more event, which does not undermine the role. */
  lemma FollowQuietly(es: seq<Event>, c: Cluster, e: Event, start: nat, role: ServerRole)
    returns (es': seq<Event>, c': Cluster)
    requires start <= |es| && After(es) == Some(c) && Enabled(c, e) && Inv(c) && Quiet(es, start, role)
    requires !Undermines(c, e, role)
    ensures es' == es + [e] && c' == Step(c, e) && After(es') == Some(c') && Inv(c') && Quiet(es', start, role)
  {
    es', c' := Follow(es, c, e);
    StepKeepsInv(c, e);
    assert forall k :: 0 <= k <= |es| ==> es'[..k] == es[..k];
    assert es[..|es|] == es;
  }

  /** An id that no process has yet. */
  lemma UnusedId(ids: set<ProcessId>) returns (id: ProcessId)
    ensures id !in ids
  {
    var largest := LargestId(ids);
    id := largest + 1;
  }

  lemma {:induction false} LargestId(ids: set<ProcessId>) returns (largest: ProcessId)
    ensures forall id :: id in ids ==> id <= largest
    decreases |ids|
  {
    largest := 0;
    if ids != {} {
      var one :| one in ids;
      var rest := LargestId(ids - {one});
      largest := if one > rest then one else rest;
      assert forall id :: id in ids ==> id == one || id in ids - {one};
    }
  }

  /** While the znode of the role is absent, a fresh server can register with that role. */
  lemma Joins(es: seq<Event>, c: Cluster, start: nat, role: ServerRole)
    returns (es': seq<Event>, c': Cluster, id: ProcessId)
    requires start <= |es| && After(es) == Some(c) && Inv(c) && Quiet(es, start, role)
    requires (role == PRIMARY && c.primary.None?) || (role == BACKUP && c.backup.None?)
    ensures es <= es' && After(es') == Some(c') && Inv(c') && Quiet(es', start, role)
    ensures id !in c.processes && LiveAs(c', id, role)
    ensures forall x :: x in c.processes ==> x in c'.processes && c'.processes[x] == c.processes[x]
  {
    hide After, Inv, Quiet;
    id := UnusedId(c.processes.Keys);
    es', c' := FollowQuietly(es, c, Start(id, ADDRESS), start, role);
    if role == BACKUP {
      es', c' := FollowQuietly(es', c', Advance(id, ZOK), start, role);
    }
    es', c' := FollowQuietly(es', c', Advance(id, ZNONODE), start, role);
    es', c' := FollowQuietly(es', c', Advance(id, ZNONODE), start, role);
    es', c' := FollowQuietly(es', c', Advance(id, ZNONODE), start, role);
  }

  /** A live process that claims a role without having it gets it with its next step. */
  lemma TakesRole(es: seq<Event>, c: Cluster, id: ProcessId, start: nat, role: ServerRole)
    returns (es': seq<Event>, c': Cluster)
    requires start <= |es| && After(es) == Some(c) && Inv(c) && Quiet(es, start, role) && role != NONE
    requires id in c.processes && c.processes[id].alive && Claims(c.processes[id], role)
    ensures es <= es' && After(es') == Some(c') && Inv(c') && Quiet(es', start, role)
    ensures LiveAs(c', id, role) && c'.processes[id].session == c.processes[id].session
    ensures forall x :: x in c.processes && x != id ==> x in c'.processes && c'.processes[x] == c.processes[x]
    ensures c'.primary == c.primary && c'.backup == c.backup
  {
    assert ProcessKept(c, id);
    if c.processes[id].role == role {
      es', c' := es, c;
    } else {
      es', c' := FollowQuietly(es, c, Advance(id, ZOK), start, role);
    }
  }

  function NodeOf(c: Cluster, role: ServerRole): Option<Znode> {
    if role == PRIMARY then c.primary else c.backup
  }

  /** Beside a live holder of the role without a session, another process gets the role. */
  lemma SecondHolder(es: seq<Event>, c: Cluster, lost: ProcessId, start: nat, role: ServerRole)
    returns (es': seq<Event>, c': Cluster)
    requires start <= |es| && After(es) == Some(c) && Inv(c) && Quiet(es, start, role) && role != NONE
    requires LiveAs(c, lost, role) && !c.processes[lost].session
    ensures es <= es' && After(es') == Some(c') && Quiet(es', start, role) && !AtMostOne(c', role)
  {
    var other;
    es', c' := es, c;
    if NodeOf(c, role).Some? {
      var owner := NodeOf(c, role).value.owner;
      assert ProcessKept(c, owner) && ProcessKept(c, lost);
      var p := c.processes[owner];
      if p.alive && Claims(p, role) {
        es', c' := TakesRole(es, c, owner, start, role);
        assert LiveAs(c', lost, role) && LiveAs(c', owner, role);
        return;
      } else if p.alive {
        // Only a server in the middle of its promotion owns the backup znode without claiming the role.
        es', c' := FollowQuietly(es, c, Advance(owner, ZOK), start, role);
      } else {
        es', c' := FollowQuietly(es, c, Expire(owner), start, role);
      }
    }
    es', c', other := Joins(es', c', start, role);
    assert LiveAs(c', lost, role) && LiveAs(c', other, role);
  }

  lemma SplitRun(es: seq<Event>, role: ServerRole) returns (run: seq<Event>)
    requires After(es).Some? && role != NONE && !Sound(After(es).value, role)
    ensures SplitsLater(es, run, role)
  {
    AlwaysInv(es);
    var c := After(es).value;
    var lost :| lost in c.processes && c.processes[lost].alive && Claims(c.processes[lost], role)
                && !c.processes[lost].session;
    run, c := TakesRole(es, c, lost, |es|, role);
    run, c := SecondHolder(run, c, lost, |es|, role);
  }

  /** If both znodes exist, they have one owner exactly when that owner is in the middle of its promotion. */
  lemma SharedOwnerIsPromoting(es: seq<Event>)
    requires After(es).Some? && After(es).value.primary.Some? && After(es).value.backup.Some?
    ensures var c := After(es).value;
            var p, b := c.primary.value.owner, c.backup.value.owner;
            && p in c.processes && b in c.processes
            && (p == b <==> Promoting(c.processes[p]) && Promoting(c.processes[b]))
            && c.primary.value.address == c.processes[p].address && c.backup.value.address == c.processes[b].address
  {
    AlwaysInv(es);
    var c := After(es).value;
    assert ProcessKept(c, c.primary.value.owner) && ProcessKept(c, c.backup.value.owner);
  }

  /** The delete that ends a promotion finds the process's own znode, never that of another server. */
  lemma DeleteFindsOwnNode(es: seq<Event>, id: ProcessId)
    requires After(es).Some? && id in After(es).value.processes
    requires After(es).value.processes[id].pc.UpdDelete? && After(es).value.processes[id].session
    ensures After(es).value.backup == Some(Znode(id, After(es).value.processes[id].address))
    ensures After(es).value.primary == Some(Znode(id, After(es).value.processes[id].address))
  {
    AlwaysInv(es);
    assert ProcessKept(After(es).value, id);
  }

  /**
   * Both znodes hold the same address exactly when their common owner is in the middle of its promotion, or when two
   * different sessions were opened by servers with the same address.
   */
  lemma SharedAddress(es: seq<Event>)
    requires After(es).Some? && After(es).value.primary.Some? && After(es).value.backup.Some?
    ensures var c := After(es).value;
            var p, b := c.primary.value.owner, c.backup.value.owner;
            && p in c.processes && b in c.processes
            && (c.primary.value.address == c.backup.value.address <==>
                  Promoting(c.processes[p]) || (p != b && c.processes[p].address == c.processes[b].address))
  {
    SharedOwnerIsPromoting(es);
    AlwaysInv(es);
    var c := After(es).value;
    assert ProcessKept(c, c.primary.value.owner);
  }

  /** A znode of mine is untouched, and none becomes mine. */
  predicate KeepsMine(before: Option<Znode>, after: Option<Znode>, me: ProcessId) {
    && (before.Some? && before.value.owner == me ==> after == before)
    && (after.Some? && after.value.owner == me ==> after == before)
  }

  /** Any number of steps of any other servers leave a server's znodes alone and give it no new ones. */
  lemma {:induction false} OthersKeepMine(es: seq<Event>, start: nat, me: ProcessId)
    requires start <= |es| && After(es).Some? && forall k :: start <= k < |es| ==> es[k].id != me
    ensures After(es[..start]).Some?
    ensures KeepsMine(After(es[..start]).value.primary, After(es).value.primary, me)
    ensures KeepsMine(After(es[..start]).value.backup, After(es).value.backup, me)
    decreases |es|
  {
    if start == |es| {
      assert es[..start] == es;
    } else {
      var n := |es| - 1;
      assert es[..n][..start] == es[..start];
      OthersKeepMine(es[..n], start, me);
      AlwaysInv(es[..n]);
      OthersKeepNodes(After(es[..n]).value, es[n], me);
    }
  }

  // ---------- Two runs that show why the conditions are needed ----------

  /** Runs one more event after those of es, which lead to c. */
  lemma Follow(es: seq<Event>, c: Cluster, e: Event) returns (es': seq<Event>, c': Cluster)
    requires After(es) == Some(c) && Enabled(c, e)
    ensures es' == es + [e] && c' == Step(c, e) && After(es') == Some(c')
  {
    es', c' := es + [e], Step(c, e);
    assert es'[..|es|] == es;
  }

  const ADDRESS := "10.0.0.1:9000"
  const OTHER_ADDRESS := "10.0.0.2:9000"

  /** Process 0 registers and becomes PRIMARY. */
  const FIRST_REGISTERS :=
    [Start(0, ADDRESS), Advance(0, ZNONODE), Advance(0, ZNONODE), Advance(0, ZNONODE)]

  const WITH_PRIMARY :=
    Cluster(Some(Znode(0, ADDRESS)), None, map[0 := Process(ADDRESS, PRIMARY, Serving, true, true)])

  lemma FirstRegisters()
    ensures After(FIRST_REGISTERS) == Some(WITH_PRIMARY)
  {
    var es, c := Follow([], EMPTY, Start(0, ADDRESS));
    es, c := Follow(es, c, Advance(0, ZNONODE));
    es, c := Follow(es, c, Advance(0, ZNONODE));
    es, c := Follow(es, c, Advance(0, ZNONODE));
    assert es == FIRST_REGISTERS;
    assert c.processes == WITH_PRIMARY.processes;
  }

  /** The primary crashes, and a server with its address starts before its session has expired. */
  const RESTART := [Crash(0), Start(1, ADDRESS), Advance(1, ZOK), Advance(1, ZNONODE), Advance(1, ZNONODE)]

  /**
   * A crashed primary holds its znode until its session expires. The restarted server registers as backup, and both
   * znodes hold the same address although nobody is being promoted.
   */
  lemma RestartSharesAddress()
    ensures After(FIRST_REGISTERS + RESTART).Some?
    ensures var c := After(FIRST_REGISTERS + RESTART).value;
            && c.primary == Some(Znode(0, ADDRESS)) && c.backup == Some(Znode(1, ADDRESS))
            && forall id :: id in c.processes ==> !Promoting(c.processes[id])
  {
    FirstRegisters();
    var es, c := Follow(FIRST_REGISTERS, WITH_PRIMARY, RESTART[0]);
    es, c := Follow(es, c, RESTART[1]);
    es, c := Follow(es, c, RESTART[2]);
    es, c := Follow(es, c, RESTART[3]);
    es, c := Follow(es, c, RESTART[4]);
    assert es == FIRST_REGISTERS + RESTART;
  }

  const SECOND_REGISTERS :=
    [Start(1, OTHER_ADDRESS), Advance(1, ZOK), Advance(1, ZNONODE), Advance(1, ZOK), Advance(1, ZOK)]

  const WITH_BOTH :=
    Cluster(Some(Znode(0, ADDRESS)), Some(Znode(1, OTHER_ADDRESS)),
            map[0 := Process(ADDRESS, PRIMARY, Serving, true, true),
                1 := Process(OTHER_ADDRESS, BACKUP, Serving, true, true)])

  lemma SecondRegisters()
    ensures After(FIRST_REGISTERS + SECOND_REGISTERS) == Some(WITH_BOTH)
  {
    FirstRegisters();
    var es, c := Follow(FIRST_REGISTERS, WITH_PRIMARY, SECOND_REGISTERS[0]);
    es, c := Follow(es, c, SECOND_REGISTERS[1]);
    es, c := Follow(es, c, SECOND_REGISTERS[2]);
    es, c := Follow(es, c, SECOND_REGISTERS[3]);
    es, c := Follow(es, c, SECOND_REGISTERS[4]);
    assert es == FIRST_REGISTERS + SECOND_REGISTERS;
    assert c.processes == WITH_BOTH.processes;
  }

  /** The primary's session expires under the live primary, and the backup is notified and promotes itself. */
  const TAKE_OVER :=
    [Expire(0), Notify(1), Advance(1, ZNONODE), Advance(1, ZOK), Advance(1, ZOK), Advance(1, ZOK), Advance(1, ZOK)]

  /** A live backup takes the primary's place as soon as the primary znode is gone. */
  lemma TakesOver(es: seq<Event>, c: Cluster, id: ProcessId) returns (es': seq<Event>, c': Cluster)
    requires After(es) == Some(c) && LiveAs(c, id, BACKUP) && c.processes[id].session && c.processes[id].pc.Serving?
    requires c.primary.None? && c.backup.Some?
    ensures es' == es + [Notify(id), Advance(id, ZNONODE), Advance(id, ZOK),
                         Advance(id, ZOK), Advance(id, ZOK), Advance(id, ZOK)]
    ensures After(es') == Some(c') && LiveAs(c', id, PRIMARY)
    ensures forall x :: x in c.processes && x != id ==> x in c'.processes && c'.processes[x] == c.processes[x]
  {
    hide After;
    es', c' := Follow(es, c, Notify(id));
    es', c' := Follow(es', c', Advance(id, ZNONODE));
    es', c' := Follow(es', c', Advance(id, ZOK));
    es', c' := Follow(es', c', Advance(id, ZOK));
    es', c' := Follow(es', c', Advance(id, ZOK));
    es', c' := Follow(es', c', Advance(id, ZOK));
  }

  /** When a session expires before its process ends, two live processes can be PRIMARY. */
  lemma SplitBrain()
    ensures After(FIRST_REGISTERS + SECOND_REGISTERS + TAKE_OVER).Some?
    ensures var ps := After(FIRST_REGISTERS + SECOND_REGISTERS + TAKE_OVER).value.processes;
            && 0 in ps && 1 in ps
            && ps[0].alive && ps[0].role == PRIMARY
            && ps[1].alive && ps[1].role == PRIMARY
  {
    hide After;
    SecondRegisters();
    var start := FIRST_REGISTERS + SECOND_REGISTERS;
    var es, c := Follow(start, WITH_BOTH, TAKE_OVER[0]);
    es, c := TakesOver(es, c, 1);
    assert es == start + TAKE_OVER;
  }
}
