/**
 * zk_register_tree_server and zk_update_server_roles as the code of one server. Between its calls to ZooKeeper, other
 * servers take any of their steps, and the server's own session may expire. A ghost trace shows that the code does
 * nothing but the steps of the cluster in Roles, so that all theorems about its runs hold of the code.
 */
module RoleServers {
  import opened Roles
  import opened ServerRoles
  import opened Wrappers

  /** ZooKeeper and all other servers, as the server me meets them. */
  class Registry {
    const me: ProcessId
    var world: Cluster
    var sessionOpen: bool
    var others: seq<seq<Event>>
    ghost var trace: seq<Event>

    /** The trace is a run of the cluster that leads to the world with me as process p in it. */
    ghost predicate Traced(p: Process)
      reads this
    {
      && me !in world.processes && p.session == sessionOpen
      && After(trace) == Some(Update(world, me, p))
    }

    /** The server connects to a cluster in which anything may have happened; others lists what others will try. */
    constructor (me: ProcessId, address: string, world: Cluster, others: seq<seq<Event>>, ghost past: seq<Event>)
      requires After(past) == Some(world) && me !in world.processes
      ensures this.me == me && this.world == world && sessionOpen
      ensures trace == past + [Start(me, address)]
      ensures Traced(Process(address, NONE, RegCheckPrimary, true, true))
    {
      this.me, this.world, sessionOpen, this.others := me, world, true, others;
      trace := past + [Start(me, address)];
      new;
      hide After;
      Arrives(past, world, me, address);
    }

    /** Others take steps, and the session of this server may expire. */
    method OthersRun(ghost p: Process)
      requires Traced(p)
      modifies this
      ensures Traced(p.(session := sessionOpen))
      ensures Grown(old(trace), trace, me) && (sessionOpen ==> old(sessionOpen))
      ensures old(others) == [] ==> others == [] && world == old(world) && sessionOpen == old(sessionOpen)
    {
      if others == [] {
        return;
      }
      var events := others[0];
      others := others[1..];
      for i := 0 to |events|
        invariant Traced(p.(session := sessionOpen))
        invariant Grown(old(trace), trace, me) && (sessionOpen ==> old(sessionOpen))
      {
        OtherRuns(events[i], p.(session := sessionOpen));
      }
    }

    /** One step of another server, or the expiry of this server's session, if it is possible. */
    method OtherRuns(e: Event, ghost p: Process)
      requires Traced(p)
      modifies this`world, this`sessionOpen, this`trace
      ensures Traced(p.(session := sessionOpen))
      ensures Grown(old(trace), trace, me) && (sessionOpen ==> old(sessionOpen))
    {
      if e == Expire(me) && sessionOpen {
        ExpiryFromOutside(world, me, p);
        TraceGrows(trace, Update(world, me, p), e, me);
        sessionOpen := false;
        world := Cluster(Without(world.primary, me), Without(world.backup, me), world.processes);
        trace := trace + [e];
      } else if e.id != me && Enabled(world, e) {
        StepFromOutside(world, me, p, e);
        TraceGrows(trace, Update(world, me, p), e, me);
        world := Step(world, e);
        trace := trace + [e];
      }
    }

    /** The server goes on in its code without touching a znode. */
    ghost method Proceed(p: Process, answer: ExistsAnswer, q: Process)
      requires Traced(p) && p.alive && LocalStep(p, answer) == Some(q)
      modifies this`trace
      ensures Traced(q) && Grown(old(trace), trace, me)
    {
      LocalStepIsStep(Update(world, me, p), me, p, answer);
      TraceGrows(trace, Update(world, me, p), Advance(me, answer), me);
      UpdateTwice(world, me, p, q);
      trace := trace + [Advance(me, answer)];
    }

    /** The listener is called. */
    ghost method Notice(p: Process)
      requires Traced(p) && p.alive && p.pc.Serving? && p.role == BACKUP
      modifies this`trace
      ensures Traced(p.(pc := UpdCheckPrimary)) && Grown(old(trace), trace, me)
    {
      TraceGrows(trace, Update(world, me, p), Notify(me), me);
      UpdateTwice(world, me, p, p.(pc := UpdCheckPrimary));
      trace := trace + [Notify(me)];
    }

    /** zoo_create of the primary znode: it succeeds only with an open session and where nothing is. */
    method CreatePrimary(address: string, ghost p: Process) returns (ok: bool)
      requires Traced(p) && p.alive
      requires (p.pc.RegCreatePrimary? && address == p.address) || p.pc == UpdCreatePrimary(address)
      modifies this`world, this`trace
      ensures ok <==> sessionOpen && old(world.primary).None?
      ensures world == if ok then old(world).(primary := Some(Znode(me, address))) else old(world)
      ensures Traced(if p.pc.RegCreatePrimary? then if ok then p.(pc := RegSetPrimary) else p.(alive := false)
                     else p.(pc := if ok then UpdSetRole else Serving))
      ensures Grown(old(trace), trace, me)
    {
      ghost var q := if p.pc.RegCreatePrimary? then
        if sessionOpen && world.primary.None? then p.(pc := RegSetPrimary) else p.(alive := false)
      else p.(pc := if sessionOpen && world.primary.None? then UpdSetRole else Serving);
      TraceGrows(trace, Update(world, me, p), Advance(me, ZOK), me);
      ok := sessionOpen && world.primary.None?;
      if ok {
        world := world.(primary := Some(Znode(me, address)));
      }
      UpdateTwice(world, me, p, q);
      trace := trace + [Advance(me, ZOK)];
    }

    method CreateBackup(address: string, ghost p: Process) returns (ok: bool)
      requires Traced(p) && p.alive && p.pc.RegCreateBackup? && address == p.address
      modifies this`world, this`trace
      ensures ok <==> sessionOpen && old(world.backup).None?
      ensures world == if ok then old(world).(backup := Some(Znode(me, address))) else old(world)
      ensures Traced(if ok then p.(pc := RegSetBackup) else p.(alive := false))
      ensures Grown(old(trace), trace, me)
    {
      ghost var q := if sessionOpen && world.backup.None? then p.(pc := RegSetBackup) else p.(alive := false);
      TraceGrows(trace, Update(world, me, p), Advance(me, ZOK), me);
      ok := sessionOpen && world.backup.None?;
      if ok {
        world := world.(backup := Some(Znode(me, address)));
      }
      UpdateTwice(world, me, p, q);
      trace := trace + [Advance(me, ZOK)];
    }

    /** zoo_get of the backup znode: None without a session or a znode. */
    method GetBackup(ghost p: Process) returns (address: Option<string>)
      requires Traced(p) && p.alive && p.pc.UpdGet?
      modifies this`trace
      ensures address == if sessionOpen && world.backup.Some? then Some(world.backup.value.address) else None
      ensures Traced(p.(pc := if address.Some? then UpdCreatePrimary(address.value) else Serving))
      ensures Grown(old(trace), trace, me)
    {
      address := if sessionOpen && world.backup.Some? then Some(world.backup.value.address) else None;
      TraceGrows(trace, Update(world, me, p), Advance(me, ZOK), me);
      UpdateTwice(world, me, p, p.(pc := if address.Some? then UpdCreatePrimary(address.value) else Serving));
      trace := trace + [Advance(me, ZOK)];
    }

    /** zoo_delete, which would delete the znode of any server: it finds the caller's own one. */
    method DeleteBackup(ghost p: Process) returns (ok: bool)
      requires Traced(p) && p.alive && p.pc.UpdDelete?
      modifies this`world, this`trace
      ensures ok == sessionOpen
      ensures sessionOpen ==> old(world.backup) == Some(Znode(me, p.address))
      ensures world == if ok then old(world).(backup := None) else old(world)
      ensures Traced(p.(pc := Serving)) && Grown(old(trace), trace, me)
    {
      if sessionOpen {
        DeleteFindsOwnNode(trace, me);
      }
      TraceGrows(trace, Update(world, me, p), Advance(me, ZOK), me);
      ok := sessionOpen && world.backup.Some?;
      if ok {
        world := world.(backup := None);
      }
      UpdateTwice(world, me, p, p.(pc := Serving));
      trace := trace + [Advance(me, ZOK)];
    }
  }

  // ---------- One server among the others ----------

  /** The trace has grown, by steps of others, the expiry of my session, and steps of my own code. */
  ghost predicate Grown(before: seq<Event>, after: seq<Event>, me: ProcessId) {
    && before <= after
    && forall k :: |before| <= k < |after| && after[k].id == me ==>
         after[k].Advance? || after[k].Notify? || after[k].Expire?
  }

  /** The steps that touch no znode: looking at the answer of an "exists", and taking the role. */
  function LocalStep(p: Process, answer: ExistsAnswer): Option<Process> {
    match p.pc
    case RegCheckPrimary => Some(p.(pc := if answer == ZNONODE then RegCreatePrimary else RegCheckBackup))
    case RegSetPrimary => Some(p.(role := PRIMARY, pc := Serving))
    case RegCheckBackup => Some(if answer == ZNONODE then p.(pc := RegCreateBackup) else p.(alive := false))
    case RegSetBackup => Some(p.(role := BACKUP, pc := Serving))
    case UpdCheckPrimary => Some(p.(pc := if answer == ZNONODE then UpdCheckBackup else Serving))
    case UpdCheckBackup => Some(p.(pc := if answer == ZOK then UpdGet else Serving))
    case UpdSetRole => Some(p.(role := if p.role == BACKUP then PRIMARY else p.role, pc := UpdDelete))
    case _ => None
  }

  lemma LocalStepIsStep(c: Cluster, id: ProcessId, p: Process, answer: ExistsAnswer)
    requires LocalStep(p, answer).Some?
    ensures AdvanceProcess(c, id, p, answer) == Update(c, id, LocalStep(p, answer).value)
    ensures LocalStep(p, answer).value.session == p.session && !p.pc.Serving?
  {
  }

  lemma TraceGrows(trace: seq<Event>, c: Cluster, e: Event, me: ProcessId)
    requires After(trace) == Some(c) && Enabled(c, e) && (e.id == me ==> e.Advance? || e.Notify? || e.Expire?)
    ensures After(trace + [e]) == Some(Step(c, e)) && Grown(trace, trace + [e], me)
  {
    var es, c' := Follow(trace, c, e);
  }

  lemma Arrives(past: seq<Event>, world: Cluster, me: ProcessId, address: string)
    requires After(past) == Some(world) && me !in world.processes
    ensures After(past + [Start(me, address)]) ==
            Some(Update(world, me, Process(address, NONE, RegCheckPrimary, true, true)))
  {
    var es, c := Follow(past, world, Start(me, address));
  }

  lemma UpdateTwice(world: Cluster, me: ProcessId, p: Process, q: Process)
    ensures Update(Update(world, me, p), me, q) == Update(world, me, q)
  {
    assert world.processes[me := p][me := q] == world.processes[me := q];
  }

  lemma UpdatesCommute(primary: Option<Znode>, backup: Option<Znode>, ps: map<ProcessId, Process>,
                       me: ProcessId, p: Process, id: ProcessId, q: Process)
    requires id != me
    ensures Cluster(primary, backup, ps[me := p][id := q]) == Cluster(primary, backup, ps[id := q][me := p])
  {
    assert ps[me := p][id := q] == ps[id := q][me := p];
  }

  predicate Registering(pc: Pc) {
    pc.RegCheckPrimary? || pc.RegCreatePrimary? || pc.RegSetPrimary? || pc.RegCheckBackup? || pc.RegCreateBackup?
    || pc.RegSetBackup?
  }

  lemma RegistrationFromOutside(world: Cluster, me: ProcessId, p: Process, id: ProcessId, answer: ExistsAnswer)
    requires id != me && id in world.processes && Registering(world.processes[id].pc)
    ensures AdvanceProcess(Update(world, me, p), id, world.processes[id], answer) ==
            Update(AdvanceProcess(world, id, world.processes[id], answer), me, p)
  {
    var after := AdvanceProcess(world, id, world.processes[id], answer);
    UpdatesCommute(after.primary, after.backup, world.processes, me, p, id, after.processes[id]);
  }

  lemma UpdateFromOutside(world: Cluster, me: ProcessId, p: Process, id: ProcessId, answer: ExistsAnswer)
    requires id != me && id in world.processes && !Registering(world.processes[id].pc)
    ensures AdvanceProcess(Update(world, me, p), id, world.processes[id], answer) ==
            Update(AdvanceProcess(world, id, world.processes[id], answer), me, p)
  {
    var after := AdvanceProcess(world, id, world.processes[id], answer);
    if !world.processes[id].pc.Serving? {
      UpdatesCommute(after.primary, after.backup, world.processes, me, p, id, after.processes[id]);
    }
  }

  /** A step of another server does not depend on what this server is doing, and leaves it as it is. */
  lemma StepFromOutside(world: Cluster, me: ProcessId, p: Process, e: Event)
    requires me !in world.processes && e.id != me && Enabled(world, e)
    ensures Enabled(Update(world, me, p), e) && me !in Step(world, e).processes
    ensures Step(Update(world, me, p), e) == Update(Step(world, e), me, p)
  {
    if e.Advance? {
      hide AdvanceProcess;
      if Registering(world.processes[e.id].pc) {
        RegistrationFromOutside(world, me, p, e.id, e.answer);
      } else {
        UpdateFromOutside(world, me, p, e.id, e.answer);
      }
      AdvanceAddsNobody(world, e.id, e.answer);
    } else if Step(world, e) != world {
      var after := Step(world, e);
      UpdatesCommute(after.primary, after.backup, world.processes, me, p, e.id, after.processes[e.id]);
    }
  }

  lemma AdvanceAddsNobody(world: Cluster, id: ProcessId, answer: ExistsAnswer)
    requires id in world.processes
    ensures AdvanceProcess(world, id, world.processes[id], answer).processes.Keys == world.processes.Keys
  {
  }

  lemma ExpiryFromOutside(world: Cluster, me: ProcessId, p: Process)
    requires p.session
    ensures Enabled(Update(world, me, p), Expire(me))
    ensures Step(Update(world, me, p), Expire(me)) ==
            Update(Cluster(Without(world.primary, me), Without(world.backup, me), world.processes),
                   me, p.(session := false))
  {
    UpdateTwice(world, me, p, p.(session := false));
  }

  /** The server's side. The answers of "exists" are arbitrary. */
  class RoleServer {
    const id: ProcessId
    const address: string
    var serverRole: ServerRole

    constructor (id: ProcessId, address: string)
      ensures this.id == id && this.address == address && serverRole == NONE
    {
      this.id, this.address, serverRole := id, address, NONE;
    }

    /** This server as a process of the cluster. */
    ghost function Self(pc: Pc, alive: bool, registry: Registry): Process
      reads this, registry
    {
      Process(address, serverRole, pc, alive, registry.sessionOpen)
    }

    /** As long as its session is open, the server owns the znode of its role, under its address; it owns no other. */
    predicate RoleIsBacked(registry: Registry)
      reads this, registry
    {
      && (if serverRole == PRIMARY && registry.sessionOpen then registry.world.primary == Some(Znode(id, address))
          else !OwnsPrimary(registry.world, id))
      && (if serverRole == BACKUP && registry.sessionOpen then registry.world.backup == Some(Znode(id, address))
          else !OwnsBackup(registry.world, id))
    }

    /** Outside of the middle of a promotion the role is backed, by the theorem about all runs of the cluster. */
    lemma BackedByTrace(registry: Registry, pc: Pc, alive: bool)
      requires registry.me == id && registry.Traced(Self(pc, alive, registry))
      requires pc.Serving? || pc.RegCreatePrimary? || pc.RegCheckBackup? || pc.RegCreateBackup? || pc.UpdGet?
      ensures RoleIsBacked(registry)
    {
      AlwaysInv(registry.trace);
      assert ProcessKept(After(registry.trace).value, id);
    }

    /**
     * zk_register_tree_server: its effect is that of a run of the cluster; 0 exactly when the server got a role, and
     * then the server serves in that role; else the process ends without one.
     */
    method Register(registry: Registry, primaryExists: ExistsAnswer, backupExists: ExistsAnswer)
      returns (r: int, ghost pc: Pc)
      requires registry.me == id && serverRole == NONE && registry.Traced(Self(RegCheckPrimary, true, registry))
      modifies this, registry
      ensures r == if serverRole == NONE then -1 else 0
      ensures registry.Traced(Self(pc, r == 0, registry)) && (r == 0 ==> pc == Serving)
      ensures Grown(old(registry.trace), registry.trace, id)
      ensures RoleIsBacked(registry)
      ensures serverRole == PRIMARY ==> primaryExists == ZNONODE
      ensures serverRole == BACKUP ==> primaryExists != ZNONODE && backupExists == ZNONODE
      ensures old(registry.others) == [] ==>
                serverRole == if !old(registry.sessionOpen) then NONE
                              else if primaryExists == ZNONODE then
                                if old(registry.world.primary).None? then PRIMARY else NONE
                              else if backupExists == ZNONODE && old(registry.world.backup).None? then BACKUP
                              else NONE
    {
      if primaryExists == ZNONODE {
        r, pc := RegisterPrimary(registry);
      } else {
        registry.Proceed(Self(RegCheckPrimary, true, registry), primaryExists, Self(RegCheckBackup, true, registry));
        registry.OthersRun(Self(RegCheckBackup, true, registry));
        if backupExists == ZNONODE {
          r, pc := RegisterBackup(registry);
        } else {
          r, pc := -1, RegCheckBackup;
          registry.Proceed(Self(pc, true, registry), backupExists, Self(pc, false, registry));
        }
      }
      BackedByTrace(registry, pc, r == 0);
    }

    method RegisterPrimary(registry: Registry) returns (r: int, ghost pc: Pc)
      requires registry.me == id && serverRole == NONE && registry.Traced(Self(RegCheckPrimary, true, registry))
      modifies this, registry
      ensures if r == 0 then serverRole == PRIMARY && pc == Serving
              else r == -1 && serverRole == NONE && pc == RegCreatePrimary
      ensures old(registry.others) == [] ==>
                (r == 0 <==> old(registry.sessionOpen) && old(registry.world.primary).None?)
      ensures registry.Traced(Self(pc, r == 0, registry)) && Grown(old(registry.trace), registry.trace, id)
    {
      registry.Proceed(Self(RegCheckPrimary, true, registry), ZNONODE, Self(RegCreatePrimary, true, registry));
      registry.OthersRun(Self(RegCreatePrimary, true, registry));
      var ok := registry.CreatePrimary(address, Self(RegCreatePrimary, true, registry));
      if !ok {
        return -1, RegCreatePrimary;
      }
      registry.OthersRun(Self(RegSetPrimary, true, registry));
      ghost var before := Self(RegSetPrimary, true, registry);
      serverRole := PRIMARY;
      registry.Proceed(before, ZOK, Self(Serving, true, registry));
      return 0, Serving;
    }

    method RegisterBackup(registry: Registry) returns (r: int, ghost pc: Pc)
      requires registry.me == id && serverRole == NONE && registry.Traced(Self(RegCheckBackup, true, registry))
      modifies this, registry
      ensures if r == 0 then serverRole == BACKUP && pc == Serving
              else r == -1 && serverRole == NONE && pc == RegCreateBackup
      ensures old(registry.others) == [] ==>
                (r == 0 <==> old(registry.sessionOpen) && old(registry.world.backup).None?)
      ensures registry.Traced(Self(pc, r == 0, registry)) && Grown(old(registry.trace), registry.trace, id)
    {
      registry.Proceed(Self(RegCheckBackup, true, registry), ZNONODE, Self(RegCreateBackup, true, registry));
      registry.OthersRun(Self(RegCreateBackup, true, registry));
      var ok := registry.CreateBackup(address, Self(RegCreateBackup, true, registry));
      if !ok {
        return -1, RegCreateBackup;
      }
      registry.OthersRun(Self(RegSetBackup, true, registry));
      ghost var before := Self(RegSetBackup, true, registry);
      serverRole := BACKUP;
      registry.Proceed(before, ZOK, Self(Serving, true, registry));
      return 0, Serving;
    }

    /**
     * zk_update_server_roles, called by a backup: its effect is that of a run of the cluster. The server ends as
     * PRIMARY, or it stays BACKUP, with its znodes in order.
     */
    method UpdateServerRoles(registry: Registry, primaryExists: ExistsAnswer, backupExists: ExistsAnswer)
      returns (r: int)
      requires registry.me == id && serverRole == BACKUP && registry.Traced(Self(UpdCheckPrimary, true, registry))
      modifies this, registry
      ensures registry.Traced(Self(Serving, true, registry)) && Grown(old(registry.trace), registry.trace, id)
      ensures RoleIsBacked(registry) && serverRole != NONE && (r == 0 || r == -1)
      ensures serverRole == PRIMARY || r == -1 ==> primaryExists == ZNONODE && backupExists == ZOK
      ensures primaryExists == ZNONODE && backupExists == ZOK && r == 0 ==> serverRole == PRIMARY
      ensures old(registry.others) == [] ==>
                (serverRole == PRIMARY <==>
                   && old(registry.sessionOpen) && primaryExists == ZNONODE && backupExists == ZOK
                   && old(registry.world.primary).None?)
    {
      r := 0;
      registry.OthersRun(Self(UpdCheckPrimary, true, registry));
      if primaryExists == ZNONODE {
        registry.Proceed(Self(UpdCheckPrimary, true, registry), primaryExists, Self(UpdCheckBackup, true, registry));
        registry.OthersRun(Self(UpdCheckBackup, true, registry));
        if backupExists == ZOK {
          registry.Proceed(Self(UpdCheckBackup, true, registry), backupExists, Self(UpdGet, true, registry));
          r := Promote(registry);
        } else {
          registry.Proceed(Self(UpdCheckBackup, true, registry), backupExists, Self(Serving, true, registry));
        }
      } else {
        registry.Proceed(Self(UpdCheckPrimary, true, registry), primaryExists, Self(Serving, true, registry));
      }
      BackedByTrace(registry, Serving, true);
    }

    /** The body of zk_update_server_roles once both "exists" have given the answers that ask for a promotion. */
    method Promote(registry: Registry) returns (r: int)
      requires registry.me == id && serverRole == BACKUP && registry.Traced(Self(UpdGet, true, registry))
      modifies this, registry
      ensures registry.Traced(Self(Serving, true, registry)) && Grown(old(registry.trace), registry.trace, id)
      ensures serverRole != NONE && (r == 0 || r == -1) && (r == 0 ==> serverRole == PRIMARY)
      ensures old(registry.others) == [] ==>
                (serverRole == PRIMARY <==> old(registry.sessionOpen) && old(registry.world.primary).None?)
    {
      BackedByTrace(registry, UpdGet, true);
      registry.OthersRun(Self(UpdGet, true, registry));
      var newPrimaryServer := registry.GetBackup(Self(UpdGet, true, registry));
      if newPrimaryServer.None? {
        return -1;
      }
      ghost var create := UpdCreatePrimary(newPrimaryServer.value);
      registry.OthersRun(Self(create, true, registry));
      var ok := registry.CreatePrimary(newPrimaryServer.value, Self(create, true, registry));
      if !ok {
        return -1;
      }
      r := TakeOver(registry);
    }

    /** The server owns the primary znode: it takes the role and gives up its backup znode. */
    method TakeOver(registry: Registry) returns (r: int)
      requires registry.me == id && serverRole == BACKUP && registry.Traced(Self(UpdSetRole, true, registry))
      modifies this, registry
      ensures registry.Traced(Self(Serving, true, registry)) && Grown(old(registry.trace), registry.trace, id)
      ensures serverRole == PRIMARY && (r == 0 || r == -1)
    {
      registry.OthersRun(Self(UpdSetRole, true, registry));
      ghost var before := Self(UpdSetRole, true, registry);
      if serverRole == BACKUP {
        serverRole := PRIMARY;
      }
      registry.Proceed(before, ZOK, Self(UpdDelete, true, registry));
      registry.OthersRun(Self(UpdDelete, true, registry));
      var ok := registry.DeleteBackup(Self(UpdDelete, true, registry));
      r := if ok then 0 else -1;
    }

    /** on_servers_change: only a backup looks at the roles again. */
    method OnServersChange(registry: Registry, primaryExists: ExistsAnswer, backupExists: ExistsAnswer)
      requires registry.me == id && registry.Traced(Self(Serving, true, registry))
      modifies this, registry
      ensures registry.Traced(Self(Serving, true, registry)) && Grown(old(registry.trace), registry.trace, id)
      ensures RoleIsBacked(registry)
      ensures serverRole != old(serverRole) ==> old(serverRole) == BACKUP && serverRole == PRIMARY
    {
      if serverRole == BACKUP {
        registry.Notice(Self(Serving, true, registry));
        var r := UpdateServerRoles(registry, primaryExists, backupExists);
      } else {
        BackedByTrace(registry, Serving, true);
      }
    }
  }
}
