// The two table scans a claim pass makes for a candidate row, as loops:
// `ready` and `resourcesFree` in internal/bitci/controller.go.
module Tables {
  import opened Common
  import opened Configuration
  import opened Store

  method ReadyVerdict(table: seq<Job>, batch: Batch, needs: seq<string>) returns (verdict: Verdict)
    ensures verdict == NeedsVerdict(table, batch, needs)
  {
    for k := 0 to |needs|
      invariant NeedsVerdict(table, batch, needs) == NeedsVerdict(table, batch, needs[k..])
    {
      var row := FirstRow(table, batch, needs[k], 0);
      if row.None? {
        return Missing;
      }
      var state := table[row.value].state;
      if state.Failed? || state.Cancelled? {
        return Blocked;
      }
      if !state.Passed? {
        return Waiting;
      }
      assert needs[k..][1..] == needs[k + 1..];
    }
    return Ready;
  }

  // Counts the holders of one resource and the least limit among them and the
  // claimant. Each distinct snapshot is validated once.
  method HeldAndLimit(table: seq<Job>, leases: set<Lease>, config: Config, resource: string, known: set<Config>)
    returns (held: nat, limit: int, readable: bool, snapshots: set<Config>)
    requires forall c :: c in known ==> ValidConfig(c)
    ensures readable <==> forall j :: j in Holders(table, leases, resource) ==> ValidConfig(table[j].origin.config)
    ensures readable ==> held == |Holders(table, leases, resource)|
    ensures readable ==> (held < limit <==> HasRoom(table, leases, config, resource))
    ensures readable ==>
      var own := if resource in config.resources then config.resources[resource] else 0;
      && limit <= own
      && (limit == own || exists j :: j in Holders(table, leases, resource) && limit == Limit(table[j].origin.config, resource))
      && forall j :: j in Holders(table, leases, resource) && resource in table[j].origin.config.resources ==>
           limit <= table[j].origin.config.resources[resource]
    ensures forall c :: c in snapshots ==> ValidConfig(c)
  {
    hide ValidConfig;
    var holders := Holders(table, leases, resource);
    var rest := holders;
    held, limit, snapshots := 0, Limit(config, resource), known;
    while rest != {}
      invariant rest <= holders && held + |rest| == |holders|
      invariant forall j :: j in holders - rest ==> ValidConfig(table[j].origin.config) && limit <= Limit(table[j].origin.config, resource)
      invariant limit <= Limit(config, resource)
      invariant limit == Limit(config, resource) || exists j :: j in holders && limit == Limit(table[j].origin.config, resource)
      invariant forall c :: c in snapshots ==> ValidConfig(c)
      decreases rest
    {
      var j :| j in rest;
      held := held + 1;
      var snapshot := table[j].origin.config;
      if snapshot !in snapshots {
        var valid := Validate(snapshot);
        if !valid {
          return held, limit, false, snapshots;
        }
        snapshots := snapshots + {snapshot};
      }
      if Limit(snapshot, resource) < limit {
        limit := Limit(snapshot, resource);
      }
      rest := rest - {j};
    }
    return held, limit, true, snapshots;
  }

  method ResourcesFree(table: seq<Job>, leases: set<Lease>, config: Config, resources: seq<string>) returns (room: Room)
    ensures room == RoomFor(table, leases, config, resources)
  {
    hide HasRoom, ValidConfig;
    var snapshots: set<Config> := {};
    for k := 0 to |resources|
      invariant RoomFor(table, leases, config, resources) == RoomFor(table, leases, config, resources[k..])
      invariant forall c :: c in snapshots ==> ValidConfig(c)
    {
      var held, limit, readable;
      held, limit, readable, snapshots := HeldAndLimit(table, leases, config, resources[k], snapshots);
      if !readable {
        return Unreadable;
      }
      if held >= limit {
        return Full;
      }
      assert resources[k..][1..] == resources[k + 1..];
    }
    return Free;
  }

  // What a claim pass decides for one row.
  datatype RowDecision = Leave | Close(row: Job) | Start | Broken

  method Decide(table: seq<Job>, leases: set<Lease>, free: Option<nat>, i: nat) returns (decision: RowDecision)
    requires i < |table|
    ensures decision.Leave? ==> PassedOver(table, leases, free, i, table[i])
    ensures decision.Close? ==> PassedOver(table, leases, free, i, decision.row)
    ensures decision.Close? ==>
      && table[i].state.Queued?
      && decision.row ==
           if SnapshotOk(table[i].origin) then table[i].(state := Cancelled)
           else table[i].(state := Failed, exitCode := Some(127))
    ensures decision.Start? ==> Eligible(table, leases, free, i)
    ensures decision.Broken? ==> SnapshotOk(table[i].origin)
    ensures decision.Broken? ==>
      || !DiskOk(table[i].origin.config.minFreeBytes, free)
      || NeedsVerdict(table, table[i].origin.batch, TaskOf(table[i].origin).needs).Missing?
      || RoomFor(table, leases, table[i].origin.config, TaskOf(table[i].origin).resources).Unreadable?
  {
    hide ValidConfig, RoomFor, NeedsVerdict;
    var job := table[i];
    if !job.state.Queued? {
      return Leave;
    }
    var valid := Validate(job.origin.config);
    if !valid || job.origin.task !in job.origin.config.tasks {
      return Close(Invalidated(job));
    }
    if !DiskOk(job.origin.config.minFreeBytes, free) {
      return Broken;
    }
    var task := TaskOf(job.origin);
    var verdict := ReadyVerdict(table, job.origin.batch, task.needs);
    if verdict.Missing? {
      return Broken;
    }
    if verdict.Blocked? {
      return Close(job.(state := Cancelled));
    }
    if !verdict.Ready? {
      return Leave;
    }
    var room := ResourcesFree(table, leases, job.origin.config, task.resources);
    if room.Unreadable? {
      return Broken;
    }
    return if room.Free? then Start else Leave;
  }

  // The rows a submission inserts, one by one, in dependency order.
  method InsertRows(plan: RetryPlan, batch: Batch, base: nat) returns (rows: seq<Job>)
    ensures rows == NewRows(plan, batch, base)
  {
    rows := [];
    for i := 0 to |plan.order|
      invariant |rows| == i && forall k :: 0 <= k < i ==> rows[k] == NewRow(plan, batch, base, k)
    {
      rows := rows + [NewRow(plan, batch, base, i)];
    }
  }

  // The newest attempt of a root: highest attempt, then highest id.
  method LatestAttempt(table: seq<Job>, root: nat) returns (latest: Option<nat>)
    ensures latest.Some? ==> Latest(table, root, latest.value)
    ensures latest.None? ==> forall j :: 0 <= j < |table| ==> table[j].origin.root != root
  {
    latest := None;
    for j := 0 to |table|
      invariant latest.Some? ==> latest.value < j && Latest(table[..j], root, latest.value)
      invariant latest.None? ==> forall i :: 0 <= i < j ==> table[i].origin.root != root
    {
      if table[j].origin.root == root && (latest.None? || table[latest.value].origin.attempt <= table[j].origin.attempt) {
        latest := Some(j);
      }
    }
    assert table[..|table|] == table;
  }

  // Those of `ids` that recorded a SHA, in their order.
  method RecordedOf(table: seq<Job>, ids: seq<nat>) returns (recorded: seq<nat>)
    requires forall k :: 0 <= k < |ids| ==> ids[k] < |table|
    ensures forall id :: id in recorded <==> id in ids && table[id].origin.ref.Some?
  {
    recorded := [];
    for k := 0 to |ids|
      invariant forall id :: id in recorded <==> id in ids[..k] && table[id].origin.ref.Some?
    {
      if table[ids[k]].origin.ref.Some? {
        recorded := recorded + [ids[k]];
      }
    }
    assert ids[..|ids|] == ids;
  }

  // `noActiveJobs`: nothing is queued or running.
  method NoActiveJobs(table: seq<Job>) returns (idle: bool)
    ensures idle <==> forall j :: 0 <= j < |table| ==> !Pending(table[j].state)
  {
    for j := 0 to |table|
      invariant forall i :: 0 <= i < j ==> !Pending(table[i].state)
    {
      if Pending(table[j].state) {
        return false;
      }
    }
    return true;
  }

  // The first row of a batch.
  method FirstOfBatch(table: seq<Job>, batch: Batch) returns (first: Option<nat>)
    ensures first.Some? ==> first.value < |table| && table[first.value].origin.batch == batch
    ensures first.None? ==> forall j :: 0 <= j < |table| ==> table[j].origin.batch != batch
  {
    for j := 0 to |table|
      invariant forall i :: 0 <= i < j ==> table[i].origin.batch != batch
    {
      if table[j].origin.batch == batch {
        return Some(j);
      }
    }
    return None;
  }

  // The batches that have rows and nothing left to protect.
  method FinishedBatches(table: seq<Job>) returns (batches: seq<Batch>)
    ensures NoDuplicates(batches)
    ensures forall batch :: batch in batches <==>
      !Protected(table, batch) && exists j :: 0 <= j < |table| && table[j].origin.batch == batch
  {
    hide Protected;
    batches := [];
    for j := 0 to |table|
      invariant NoDuplicates(batches)
      invariant forall batch :: batch in batches <==>
        !Protected(table, batch) && exists i :: 0 <= i < j && table[i].origin.batch == batch
    {
      var batch := table[j].origin.batch;
      if batch !in batches && !Protected(table, batch) {
        batches := batches + [batch];
      }
    }
  }

  // The row of each task of a batch.
  method BatchHistory(table: seq<Job>, batch: Batch) returns (history: map<string, nat>)
    ensures forall task :: task in history ==>
      history[task] < |table| && table[history[task]].origin.batch == batch && table[history[task]].origin.task == task
    ensures forall j :: 0 <= j < |table| && table[j].origin.batch == batch ==> table[j].origin.task in history
  {
    history := map[];
    for j := 0 to |table|
      invariant forall task :: task in history ==>
        history[task] < j && table[history[task]].origin.batch == batch && table[history[task]].origin.task == task
      invariant forall i :: 0 <= i < j && table[i].origin.batch == batch ==> table[i].origin.task in history
    {
      if table[j].origin.batch == batch {
        history := history[table[j].origin.task := j];
      }
    }
  }
}
