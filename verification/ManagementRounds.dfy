/**
 reconcileExecutionEpoch and reconcileManagementBootstrap as the controller runs them, with other
 actors changing the cluster before every API call. The methods read and write the stores themselves; after each
 call `Note` demands that the stored objects are exactly as the machine of `ManagementIdentity` says and advances
 only the round's local state and the history. So every execution is a run of that machine, and everything proved
 there about all runs holds for it.
 */
module ManagementRounds {
  import opened ApiServer
  import opened ManagementIdentity

  /** Events that belong to this round. */
  predicate OwnEvent(e: Event, pid: nat) {
    (e.Begin? || e.Act? || e.Crash?) && e.pid == pid
  }

  /** Two states with the same stored objects and clock, whatever the rounds and the history say. */
  ghost predicate SameObjects(c: Cluster, d: Cluster) {
    && c.core.workspaces == d.core.workspaces && c.vms == d.vms
    && c.registry.documents == d.registry.documents && c.registry.now == d.registry.now
  }

  class ControlPlane {
    var cluster: Cluster
    /** What the other actors do before each of the controller's calls. */
    var schedule: seq<seq<Event>>
    ghost var trace: seq<Event>

    ghost predicate Valid()
      reads this
    {
      cluster == Run(EMPTY, trace)
    }

    /** Something another actor does. */
    method Happen(e: Event)
      requires Valid()
      modifies `cluster, `trace
      ensures Valid() && trace == old(trace) + [e] && cluster == Next(old(cluster), e)
    {
      assert (trace + [e])[..|trace|] == trace;
      cluster := Next(cluster, e);
      trace := trace + [e];
    }

    /** The machine, too, has given this round up. */
    ghost predicate HasFailed(pid: nat)
      reads this
    {
      pid in cluster.rounds && cluster.rounds[pid].phase.Failed?
    }

    /** managementVMCurrent, on the VM stored now. */
    predicate OwnsCurrentVm(instance: Round, ws: Object<Workspace>)
      reads this
    {
      && instance.name in cluster.vms.objects
      && var vm := cluster.vms.objects[instance.name];
         && vm.body.running && vm.uid != "" && vm.uid == instance.vmUid && !vm.body.deleting
         && vm.body.ownerUid == ws.uid && vm.body.ownerName == instance.name
         && (ws.body.windows.None?
             || (&& ws.body.windows.value.generation != "" && ws.body.windows.value.provisioned == ws.body.windows.value.generation
                 && vm.body.generation == ws.body.windows.value.generation))
    }

    /** A call of this round has been made: its effect on the stored objects is the machine's. */
    method Note(before: Cluster, e: Event)
      requires before == Run(EMPTY, trace)
      requires SameObjects(cluster, Next(before, e))
      modifies `cluster, `trace
      ensures Valid() && trace == old(trace) + [e] && cluster == Next(before, e)
    {
      assert (trace + [e])[..|trace|] == trace;
      var next := Next(before, e);
      cluster := Cluster(next.core.(workspaces := cluster.core.workspaces), cluster.vms,
                         next.registry.(documents := cluster.registry.documents, now := cluster.registry.now), next.rounds);
      trace := trace + [e];
    }

    /** The others' turn: anything but this round's own events. */
    method Others(pid: nat)
      requires Valid() && pid in cluster.rounds
      modifies this
      ensures Valid() && old(trace) <= trace
      ensures pid in cluster.rounds && cluster.rounds[pid] == old(cluster.rounds[pid])
    {
      if schedule == [] {
        return;
      }
      var batch := schedule[0];
      schedule := schedule[1..];
      for i := 0 to |batch|
        invariant Valid() && old(trace) <= trace
        invariant pid in cluster.rounds && cluster.rounds[pid] == old(cluster.rounds[pid])
      {
        if !OwnEvent(batch[i], pid) {
          Happen(batch[i]);
        }
      }
    }

    /**
     reconcileExecutionEpoch. On success the round's own copy carries the settled epoch, which is at least the
     request that was read, and the stored epoch of that Workspace is at least it, too.
     */
    method ReconcileExecutionEpoch(pid: nat) returns (ok: bool, requested: int, epoch: int)
      requires Valid() && pid in cluster.rounds && cluster.rounds[pid].phase.Working?
      modifies this
      ensures Valid() && old(trace) <= trace
      ensures ok ==>
                && pid in cluster.rounds
                && cluster.rounds[pid].phase.Working? && cluster.rounds[pid].confirmed == Some(requested)
                && cluster.rounds[pid].execution == Some(Execution(cluster.rounds[pid].vmUid, epoch))
                && epoch >= requested >= 0
                && Floor(cluster.core, cluster.rounds[pid].name, cluster.rounds[pid].uid, requested)
      ensures !ok ==> HasFailed(pid)
    {
      var instance := cluster.rounds[pid];
      ok, requested, epoch := false, 0, 0;
      var ws, current := ReadForEpoch(pid);
      if !current || ws.body.requested < 0 {
        return;
      }
      requested := ws.body.requested;
      epoch := requested;
      var previous := ws.body.execution;
      if previous.Some? && previous.value.epoch > epoch {
        epoch := previous.value.epoch;
      }
      if previous.None? || previous.value.vmUid != instance.vmUid || previous.value.epoch != epoch {
        ok := StoreEpoch(pid, ws, Execution(instance.vmUid, epoch));
      } else {
        RunKeepsInv(trace);
        assert RoundInv(cluster.core, cluster.rounds[pid]);
        ok := true;
      }
    }

    /** The two reads: the Workspace, and the VM it must still own. */
    method ReadForEpoch(pid: nat) returns (ws: Object<Workspace>, current: bool)
      requires Valid() && pid in cluster.rounds && cluster.rounds[pid].phase.Working?
      modifies this
      ensures Valid() && old(trace) <= trace && pid in cluster.rounds
      ensures current && ws.body.requested >= 0 ==>
                cluster.rounds[pid] ==
                if ws.body.execution == Some(Settle(ws, old(cluster.rounds[pid].vmUid)))
                then old(cluster.rounds[pid]).(version := ws.version, execution := ws.body.execution, confirmed := Some(ws.body.requested))
                else old(cluster.rounds[pid]).(phase := EpochWrite(ws, Settle(ws, old(cluster.rounds[pid].vmUid))))
      ensures !current || ws.body.requested < 0 ==> HasFailed(pid)
    {
      var instance := cluster.rounds[pid];
      Others(pid);
      var stored := Stored(cluster.core, instance.name);
      Note(cluster, Act(pid, EpochGetWorkspace));
      if stored.None? {
        return Object("", 0, Workspace(0, false, None, None)), false;
      }
      ws := stored.value;
      Others(pid);
      current := ws.uid == instance.uid && OwnsCurrentVm(instance, ws);
      Note(cluster, Act(pid, EpochGetVm));
    }

    /** The status write: accepted only over the Workspace version that was read. */
    method StoreEpoch(pid: nat, ws: Object<Workspace>, next: Execution) returns (ok: bool)
      requires Valid() && pid in cluster.rounds && cluster.rounds[pid].phase == EpochWrite(ws, next)
      modifies this
      ensures Valid() && old(trace) <= trace
      ensures ok ==>
                && pid in cluster.rounds && cluster.rounds[pid].vmUid == old(cluster.rounds[pid].vmUid)
                && cluster.rounds[pid].phase.Working? && cluster.rounds[pid].confirmed == Some(ws.body.requested)
                && cluster.rounds[pid].execution == Some(next)
                && Floor(cluster.core, cluster.rounds[pid].name, cluster.rounds[pid].uid, ws.body.requested)
      ensures !ok ==> HasFailed(pid)
    {
      Others(pid);
      var before := cluster;
      var reply := Update(cluster.core.workspaces, cluster.rounds[pid].name, ws.version, ws.body.(execution := Some(next)));
      cluster := cluster.(core := cluster.core.(workspaces := reply.store));
      ok := reply.outcome == Done;
      Note(before, Act(pid, EpochPut));
      RunKeepsInv(trace);
      assert RoundInv(cluster.core, cluster.rounds[pid]);
    }

    /** reconcileManagementBootstrap. On success the document of the current identity exists and matches. */
    method ReconcileManagementBootstrap(pid: nat, token: string) returns (ok: bool, identity: string)
      requires Valid() && pid in cluster.rounds && cluster.rounds[pid].phase.Working?
      modifies this
      ensures Valid() && old(trace) <= trace
      ensures ok ==> identity in cluster.registry.documents && pid in cluster.rounds && cluster.rounds[pid].phase.Working?
                     && var doc, r := cluster.registry.documents[identity], cluster.rounds[pid];
                     doc.workspace == r.name && doc.workspaceUid == r.uid && doc.vmUid == r.vmUid
                     && doc.epoch >= 0 && identity == Identity(r.uid, r.vmUid, doc.epoch)
      ensures !ok ==> HasFailed(pid)
    {
      var instance := cluster.rounds[pid];
      ok, identity := false, "";
      var ws, current := ReadForBootstrap(pid);
      if !current {
        return;
      }
      identity := IdentityOf(ws, instance.vmUid);
      ok := EnsureDocument(pid, ws, token);
    }

    /** The two reads: a Workspace that is not stopping or resetting, and its current VM with a settled epoch. */
    method ReadForBootstrap(pid: nat) returns (ws: Object<Workspace>, current: bool)
      requires Valid() && pid in cluster.rounds && cluster.rounds[pid].phase.Working?
      modifies this
      ensures Valid() && old(trace) <= trace && pid in cluster.rounds
      ensures current ==> HasEpoch(ws) && ws.uid == cluster.rounds[pid].uid
                          && cluster.rounds[pid] == old(cluster.rounds[pid]).(phase := BootReadSecret(ws))
      ensures !current ==> HasFailed(pid)
    {
      var instance := cluster.rounds[pid];
      Others(pid);
      var stored := Stored(cluster.core, instance.name);
      Note(cluster, Act(pid, BootGetWorkspace));
      if stored.None? || stored.value.uid != instance.uid || stored.value.body.pending {
        return Object("", 0, Workspace(0, false, None, None)), false;
      }
      ws := stored.value;
      Others(pid);
      var state := ws.body.execution;
      current := OwnsCurrentVm(instance, ws) && state.Some? && state.value.vmUid == instance.vmUid
                 && state.value.epoch >= 0 && ws.body.requested >= 0 && ws.body.requested <= state.value.epoch;
      Note(cluster, Act(pid, BootGetVm));
    }

    /** The Secret part: accept a matching document or create it once. */
    method EnsureDocument(pid: nat, ws: Object<Workspace>, token: string) returns (ok: bool)
      requires Valid() && pid in cluster.rounds && HasEpoch(ws)
      requires cluster.rounds[pid].phase == BootReadSecret(ws) && ws.uid == cluster.rounds[pid].uid
      modifies this
      ensures Valid() && old(trace) <= trace
      ensures ok ==> pid in cluster.rounds && cluster.rounds[pid] == old(cluster.rounds[pid]).(phase := Working)
                     && var identity := IdentityOf(ws, cluster.rounds[pid].vmUid);
                     identity in cluster.registry.documents
                     && var doc := cluster.registry.documents[identity];
                     doc.workspace == cluster.rounds[pid].name && doc.workspaceUid == ws.uid && doc.vmUid == cluster.rounds[pid].vmUid
                     && doc.epoch == ws.body.execution.value.epoch
      ensures !ok ==> HasFailed(pid)
    {
      var instance := cluster.rounds[pid];
      var identity := IdentityOf(ws, instance.vmUid);
      Others(pid);
      var found := identity in cluster.registry.documents;
      var matches := found && Matches(cluster.registry.documents[identity], instance.name, ws, instance.vmUid, cluster.registry.now);
      Note(cluster, Act(pid, BootGetDocument));
      if found {
        return matches;
      }
      ok := CreateDocument(pid, ws, token);
    }

    /** The one write of the protocol. */
    method CreateDocument(pid: nat, ws: Object<Workspace>, token: string) returns (ok: bool)
      requires Valid() && pid in cluster.rounds && HasEpoch(ws)
      requires cluster.rounds[pid].phase == BootCreate(ws)
      modifies this
      ensures Valid() && old(trace) <= trace
      ensures ok ==> pid in cluster.rounds && cluster.rounds[pid] == old(cluster.rounds[pid]).(phase := Working)
                     && var identity := IdentityOf(ws, cluster.rounds[pid].vmUid);
                     identity in cluster.registry.documents
                     && var doc := cluster.registry.documents[identity];
                     doc.workspace == cluster.rounds[pid].name && doc.workspaceUid == ws.uid && doc.vmUid == cluster.rounds[pid].vmUid
                     && doc.epoch == ws.body.execution.value.epoch
      ensures !ok ==> HasFailed(pid)
    {
      var instance := cluster.rounds[pid];
      var identity := IdentityOf(ws, instance.vmUid);
      Others(pid);
      var before := cluster;
      ok := identity !in cluster.registry.documents;
      if ok {
        var now := cluster.registry.now;
        var doc := Document(instance.name, ws.uid, instance.vmUid, ws.body.execution.value.epoch, now, now + LIFETIME, token);
        cluster := cluster.(registry := cluster.registry.(documents := cluster.registry.documents[identity := doc]));
      }
      Note(before, Act(pid, BootPut(token)));
    }
  }
}
