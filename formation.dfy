/** POST /apps/{app_id}/formations/{formation_id}: bring the number of jobs
    of one formation to the requested quantity. */
module Formations {

  import opened Wrappers
  import opened Cluster
  import opened Identity
  import opened RoundRobin
  import opened JobListing

  /** The request body: the desired quantity and a type field (the prefix
      uses the formation id of the path, not this field). */
  datatype Formation = Formation(quantity: int, typ: string)

  /** What the reconciliation asks of the cluster. */
  datatype Action =
    | NoAction
    | ScheduleJobs(request: Request)
    | StopJobs(jobs: seq<Job>)

  /** The handler's status, its response body and the action it took. */
  datatype FormationResult = FormationResult(status: int, formation: Option<Formation>, action: Action)

  const HostIdKey: string := "host_id"

  /** The configuration every job of a scale-up is created with. */
  const FormationConfig: Config :=
    Config("titanous/redis", ["/bin/cat"], [], false, true, true, false, false, false)

  /** The id prefix shared by the jobs of a formation. */
  function FormationPrefix(appId: string, formationId: string): string {
    appId + "-" + formationId + "."
  }

  /** job.Attributes["host_id"] = hostId, making the map first when it is nil. */
  function TagHost(job: Job, hostId: string): (t: Job)
    ensures t.id == job.id && t.config == job.config && t.attributes.Some?
    ensures HostIdKey in t.attributes.value && t.attributes.value[HostIdKey] == hostId
    ensures forall k :: k != HostIdKey ==>
      (k in t.attributes.value <==> job.attributes.Some? && k in job.attributes.value)
    ensures forall k :: k != HostIdKey && k in t.attributes.value ==>
      t.attributes.value[k] == job.attributes.value[k]
  {
    var attrs := if job.attributes.None? then map[] else job.attributes.value;
    job.(attributes := Some(attrs[HostIdKey := hostId]))
  }

  /** The selected jobs, each tagged with the host it was found on. */
  function Tagged(sel: seq<Placed>): (jobs: seq<Job>)
    ensures |jobs| == |sel|
  {
    seq(|sel|, k requires 0 <= k < |sel| => TagHost(sel[k].job, sel[k].hostId))
  }

  /** The jobs of the formation in a snapshot, in scan order. */
  function Matched(hosts: seq<Host>, prefix: string): seq<Job> {
    Tagged(Select(Placements(hosts), prefix))
  }

  lemma TaggedSnoc(sel: seq<Placed>, p: Placed)
    ensures Tagged(sel + [p]) == Tagged(sel) + [TagHost(p.job, p.hostId)]
  {
    assert forall k :: 0 <= k < |sel| ==> (sel + [p])[k] == sel[k];
  }

  /** Every matched job is a job of the formation found on some host of the
      snapshot, and carries that host's id in its "host_id" attribute; every
      job of the formation in the snapshot is matched, as often as it occurs. */
  lemma MatchedJobs(hosts: seq<Host>, prefix: string)
    ensures forall k :: 0 <= k < |Matched(hosts, prefix)| ==>
      var p := Select(Placements(hosts), prefix)[k];
      Matched(hosts, prefix)[k] == TagHost(p.job, p.hostId) &&
      StartsWith(p.job.id, prefix) &&
      exists i :: 0 <= i < |hosts| && hosts[i].id == p.hostId && p.job in hosts[i].jobs
    ensures forall p :: (multiset(Select(Placements(hosts), prefix))[p] ==
      if StartsWith(p.job.id, prefix) then multiset(Placements(hosts))[p] else 0)
  {
    var sel := Select(Placements(hosts), prefix);
    forall k | 0 <= k < |sel|
      ensures StartsWith(sel[k].job.id, prefix)
      ensures exists i :: 0 <= i < |hosts| && hosts[i].id == sel[k].hostId && sel[k].job in hosts[i].jobs
    {
      SelectMatches(Placements(hosts), prefix, sel[k]);
      PlacementsMembers(hosts, sel[k]);
    }
    forall p {
      SelectCounts(Placements(hosts), prefix, p);
    }
  }

  /** Scanning one more job adds it, tagged, when it belongs to the formation. */
  lemma MatchNext(hosts: seq<Host>, h: nat, j: nat, prefix: string)
    requires h < |hosts| && j < |hosts[h].jobs|
    ensures var job := hosts[h].jobs[j];
      Tagged(Select(Scanned(hosts, h, j + 1), prefix)) ==
      Tagged(Select(Scanned(hosts, h, j), prefix)) + (if StartsWith(job.id, prefix) then [TagHost(job, hosts[h].id)] else [])
  {
    var p := Placed(hosts[h].id, hosts[h].jobs[j]);
    ScanNext(hosts, h, j);
    SelectSnoc(Scanned(hosts, h, j), p, prefix);
    TaggedSnoc(Select(Scanned(hosts, h, j), prefix), p);
  }

  /** The scan over every host and job that collects the formation's jobs
      and tags each with its host. */
  method SelectFormationJobs(hosts: seq<Host>, prefix: string) returns (jobs: seq<Job>)
    ensures jobs == Matched(hosts, prefix)
  {
    jobs := [];
    var h := 0;
    while h < |hosts|
      invariant 0 <= h <= |hosts|
      invariant jobs == Tagged(Select(Placements(hosts[..h]), prefix))
    {
      var host := hosts[h];
      var j := 0;
      ScanStart(hosts, h);
      while j < |host.jobs|
        invariant 0 <= j <= |host.jobs|
        invariant jobs == Tagged(Select(Scanned(hosts, h, j), prefix))
      {
        var job := host.jobs[j];
        MatchNext(hosts, h, j, prefix);
        if StartsWith(job.id, prefix) {
          var tagged := TagHost(job, host.id);
          jobs := jobs + [tagged];
        }
        j := j + 1;
      }
      ScanEnd(hosts, h);
      h := h + 1;
    }
    assert hosts[..h] == hosts;
  }

  /** The host ids of the snapshot, in iteration order. */
  function HostIds(hosts: Snapshot): (ids: seq<string>)
    ensures |ids| == |hosts| && Distinct(ids)
    ensures forall i :: 0 <= i < |hosts| ==> ids[i] == hosts[i].id
  {
    seq(|hosts|, i requires 0 <= i < |hosts| => hosts[i].id)
  }

  /** The job made by the k-th randomID() call of a scale-up. */
  function NewJob(prefix: string, rng: nat -> Bytes16, k: nat): Job {
    Job(prefix + RandomId(rng(k)), None, FormationConfig)
  }

  /** The `n` new jobs of a scale-up, in the order they are made. */
  function NewJobs(prefix: string, rng: nat -> Bytes16, n: nat): (jobs: seq<Job>)
    ensures |jobs| == n
  {
    seq(n, k requires 0 <= k < n => NewJob(prefix, rng, k))
  }

  lemma NewJobsSnoc(prefix: string, rng: nat -> Bytes16, n: nat)
    ensures NewJobs(prefix, rng, n + 1) == NewJobs(prefix, rng, n) + [NewJob(prefix, rng, n)]
  {
  }

  /** Giving host `i` the next new job, in a pass that began after `start`
      jobs, extends the request to one more job. */
  lemma PlaceNext(hostIds: seq<string>, prefix: string, rng: nat -> Bytes16, start: nat, i: nat, req: Request)
    requires i < |hostIds| && SlotOf(start, |hostIds|) == 0
    requires req == Distribute(hostIds, NewJobs(prefix, rng, start + i))
    ensures req[hostIds[i] := Lookup(req, hostIds[i]) + [NewJob(prefix, rng, start + i)]] ==
      Distribute(hostIds, NewJobs(prefix, rng, start + i + 1))
  {
    SlotInPass(start, i, |hostIds|);
    NewJobsSnoc(prefix, rng, start + i);
    DistributeSnoc(hostIds, NewJobs(prefix, rng, start + i), NewJob(prefix, rng, start + i));
  }

  /** One pass of the inner loop over the hosts: each host gets the next new
      job until the pass ends or the jobs run out (`break outer`). */
  method PlacePass(hostIds: seq<string>, prefix: string, rng: nat -> Bytes16, diff: int,
                   req0: Request, left0: int, ghost placed0: nat)
    returns (req: Request, left: int, ghost placed: nat)
    requires |hostIds| > 0 && 0 < left0 && placed0 + left0 == diff
    requires SlotOf(placed0, |hostIds|) == 0
    requires req0 == Distribute(hostIds, NewJobs(prefix, rng, placed0))
    ensures left == if left0 <= |hostIds| then 0 else left0 - |hostIds|
    ensures placed + left == diff
    ensures req == Distribute(hostIds, NewJobs(prefix, rng, placed))
  {
    req, left := req0, left0;
    placed := placed0;
    var i := 0;
    while i < |hostIds|
      invariant 0 <= i <= |hostIds| && placed == placed0 + i
      invariant 0 < left && placed + left == diff
      invariant req == Distribute(hostIds, NewJobs(prefix, rng, placed))
      decreases |hostIds| - i
    {
      var host := hostIds[i];
      var job := NewJob(prefix, rng, diff - left);
      PlaceNext(hostIds, prefix, rng, placed0, i, req);
      req := req[host := Lookup(req, host) + [job]];
      placed := placed + 1;
      left := left - 1;
      if left == 0 {
        return;
      }
      i := i + 1;
    }
  }

  /** The labelled loop that fills the schedule request: pass after pass
      over the hosts, one new job per host, until `diff` jobs are placed. */
  method BuildScheduleRequest(hostIds: seq<string>, prefix: string, rng: nat -> Bytes16, diff: int)
    returns (req: Request)
    requires |hostIds| > 0 && diff > 0
    ensures req == Distribute(hostIds, NewJobs(prefix, rng, diff))
  {
    req := map[];
    var left := diff;
    ghost var placed: nat := 0;
    while true
      invariant 0 < left && placed + left == diff && SlotOf(placed, |hostIds|) == 0
      invariant req == Distribute(hostIds, NewJobs(prefix, rng, placed))
      decreases left
    {
      ghost var start := placed;
      req, left, placed := PlacePass(hostIds, prefix, rng, diff, req, left, placed);
      if left == 0 {
        return;
      }
      assert SlotOf(start + |hostIds|, |hostIds|) == SlotOf(start, |hostIds|);
    }
  }

  /** A negative requested quantity counts as zero. */
  function Clamp(quantity: int): (r: nat)
    ensures quantity >= 0 ==> r == quantity
    ensures quantity < 0 ==> r == 0
  {
    if quantity < 0 then 0 else quantity
  }

  /** Every new job of a scale-up belongs to the formation: its id is the
      prefix followed by a 22-character identifier. */
  lemma NewJobInFormation(prefix: string, rng: nat -> Bytes16, k: nat)
    ensures StartsWith(NewJob(prefix, rng, k).id, prefix)
    ensures |NewJob(prefix, rng, k).id| == |prefix| + 22
    ensures NewJob(prefix, rng, k).id[|prefix|..] == RandomId(rng(k))
  {
    var id := NewJob(prefix, rng, k).id;
    assert id[..|prefix|] == prefix;
  }

  /** New jobs made from different random bytes have different ids. */
  lemma NewJobIdsDistinct(prefix: string, rng: nat -> Bytes16, k1: nat, k2: nat)
    requires rng(k1) != rng(k2)
    ensures NewJob(prefix, rng, k1).id != NewJob(prefix, rng, k2).id
  {
    if NewJob(prefix, rng, k1).id == NewJob(prefix, rng, k2).id {
      NewJobInFormation(prefix, rng, k1);
      NewJobInFormation(prefix, rng, k2);
      RandomIdInjective(rng(k1), rng(k2));
    }
  }

  /** A job of another formation is never matched: when app ids hold no '-'
      and formation ids no '.', the prefixes of two different (app,
      formation) pairs never prefix one another's job ids. */
  lemma FormationIsolation(app: string, formation: string, other: string, otherFormation: string, rest: string)
    requires '-' !in app && '-' !in other && '.' !in formation && '.' !in otherFormation
    requires app != other || formation != otherFormation
    ensures !StartsWith(FormationPrefix(other, otherFormation) + rest, FormationPrefix(app, formation))
  {
    var id := FormationPrefix(other, otherFormation) + rest;
    if app != other {
      assert id == other + "-" + (otherFormation + "." + rest);
      DelimitedIsolation(app, other, '-', otherFormation + "." + rest);
      if StartsWith(id, FormationPrefix(app, formation)) {
        StartsWithHead(id, app + "-", formation + ".");
      }
    } else {
      assert id == (app + "-") + (otherFormation + "." + rest);
      assert FormationPrefix(app, formation) == (app + "-") + (formation + ".");
      StartsWithCommon(app + "-", otherFormation + "." + rest, formation + ".");
      DelimitedIsolation(formation, otherFormation, '.', rest);
    }
  }

  /** A job made by a scale-up is listed under its app with the formation
      id as its type, when the formation id holds no '.'. */
  lemma FormationJobType(appId: string, formationId: string, rng: nat -> Bytes16, k: nat)
    requires '.' !in formationId
    ensures var id := NewJob(FormationPrefix(appId, formationId), rng, k).id;
      StartsWith(id, appId + "-") && Entry(id, appId + "-").typ == formationId
  {
    var id := NewJob(FormationPrefix(appId, formationId), rng, k).id;
    assert id == (appId + "-") + (formationId + "." + RandomId(rng(k)));
    assert id[..|appId + "-"|] == appId + "-";
    assert id[|appId + "-"|..] == formationId + "." + RandomId(rng(k));
    TypeTokenOf(formationId, RandomId(rng(k)));
  }

  /** The schedule request of a scale-up by `diff` names only hosts of the
      snapshot, and exactly the first min(diff, hosts) of them. */
  lemma ScheduleRequestHosts(hostIds: seq<string>, prefix: string, rng: nat -> Bytes16, diff: nat)
    requires |hostIds| > 0 && Distinct(hostIds)
    ensures var req := Distribute(hostIds, NewJobs(prefix, rng, diff));
      (forall h :: h in req ==> h in hostIds) &&
      (forall i :: 0 <= i < |hostIds| ==> (hostIds[i] in req <==> i < diff))
  {
    DistributeKeys(hostIds, NewJobs(prefix, rng, diff));
  }

  /** It holds `diff` jobs in total, and per-host counts differ by at most one. */
  lemma ScheduleRequestCounts(hostIds: seq<string>, prefix: string, rng: nat -> Bytes16, diff: nat)
    requires |hostIds| > 0 && Distinct(hostIds)
    ensures var req := Distribute(hostIds, NewJobs(prefix, rng, diff));
      TotalJobs(req, hostIds) == diff &&
      forall i, k :: 0 <= i < |hostIds| && 0 <= k < |hostIds| ==>
        |Lookup(req, hostIds[i])| <= |Lookup(req, hostIds[k])| + 1
  {
    var jobs := NewJobs(prefix, rng, diff);
    DistributeTotal(hostIds, jobs);
    forall i, k | 0 <= i < |hostIds| && 0 <= k < |hostIds|
      ensures |Lookup(Distribute(hostIds, jobs), hostIds[i])| <= |Lookup(Distribute(hostIds, jobs), hostIds[k])| + 1
    {
      DistributeBalanced(hostIds, jobs, i, k);
    }
  }

  /** Three new jobs over two hosts: the first host gets the first and the
      third, the second host the second. */
  lemma ThreeOnTwoHosts(prefix: string, rng: nat -> Bytes16, h1: string, h2: string)
    requires h1 != h2
    ensures var req := Distribute([h1, h2], NewJobs(prefix, rng, 3));
      Lookup(req, h1) == [NewJob(prefix, rng, 0), NewJob(prefix, rng, 2)] &&
      Lookup(req, h2) == [NewJob(prefix, rng, 1)]
  {
    var j0, j1, j2 := NewJob(prefix, rng, 0), NewJob(prefix, rng, 1), NewJob(prefix, rng, 2);
    assert NewJobs(prefix, rng, 3) == [j0, j1, j2];
    ThreeOverTwo(h1, h2, j0, j1, j2);
  }

  /** Every one of the `diff` new jobs is in the request: the k-th on host
      `hostIds[SlotOf(k, |hostIds|)]`. */
  lemma ScheduleRequestHoldsAll(hostIds: seq<string>, prefix: string, rng: nat -> Bytes16, diff: nat, k: nat)
    requires |hostIds| > 0 && k < diff
    ensures NewJob(prefix, rng, k) in
      Lookup(Distribute(hostIds, NewJobs(prefix, rng, diff)), hostIds[SlotOf(k, |hostIds|)])
  {
    DistributeContainsAll(hostIds, NewJobs(prefix, rng, diff), k);
  }

  /** When the random source gives different bytes to each of the `diff`
      identifiers, the new jobs of the request all have different ids. */
  lemma ScheduleRequestIdsUnique(prefix: string, rng: nat -> Bytes16, diff: nat)
    requires forall k1, k2 :: 0 <= k1 < k2 < diff ==> rng(k1) != rng(k2)
    ensures forall k1, k2 :: 0 <= k1 < k2 < diff ==> NewJob(prefix, rng, k1).id != NewJob(prefix, rng, k2).id
  {
    forall k1, k2 | 0 <= k1 < k2 < diff
      ensures NewJob(prefix, rng, k1).id != NewJob(prefix, rng, k2).id
    {
      NewJobIdsDistinct(prefix, rng, k1, k2);
    }
  }

  /** Every job in it is one of the `diff` new jobs: a fresh job of the
      formation with no attributes and the fixed configuration. */
  lemma ScheduleRequestJobs(hostIds: seq<string>, prefix: string, rng: nat -> Bytes16, diff: nat, h: string, x: Job)
    requires |hostIds| > 0
    requires x in Lookup(Distribute(hostIds, NewJobs(prefix, rng, diff)), h)
    ensures x.attributes.None? && x.config == FormationConfig && StartsWith(x.id, prefix)
    ensures exists k :: 0 <= k < diff && x == NewJob(prefix, rng, k)
  {
    DistributeJobs(hostIds, NewJobs(prefix, rng, diff), h, x);
    NewJobsMember(prefix, rng, diff, x);
  }

  lemma NewJobsMember(prefix: string, rng: nat -> Bytes16, n: nat, x: Job)
    requires x in NewJobs(prefix, rng, n)
    ensures x.attributes.None? && x.config == FormationConfig && StartsWith(x.id, prefix)
    ensures exists k :: 0 <= k < n && x == NewJob(prefix, rng, k)
  {
    var k :| 0 <= k < n && NewJobs(prefix, rng, n)[k] == x;
    NewJobInFormation(prefix, rng, k);
  }

  /** The control flow of the labelled loop as written, for `hostCount` hosts
      and `left` jobs still to place: whether `break outer` is reached within
      `passes` passes of the outer `for`. A pass over `hostCount` hosts places
      one job per host and breaks as soon as none is left. */
  function LoopExitsAsWritten(hostCount: nat, left: int, passes: nat): bool
    requires left > 0
    decreases passes
  {
    passes > 0 &&
    (left <= hostCount || LoopExitsAsWritten(hostCount, left - hostCount, passes - 1))
  }

  /** A pass as `PlacePass` makes it (its postcondition on `left`) is one
      step of the control flow as written: the loop exits within one pass
      more from `left0` exactly when the pass leaves nothing or the loop
      exits within the remaining passes from what the pass left. */
  lemma PassIsLoopStep(hostCount: nat, left0: int, left: int, passes: nat)
    requires left0 > 0 && left == if left0 <= hostCount then 0 else left0 - hostCount
    ensures left == 0 <==> left0 <= hostCount
    ensures left0 <= hostCount ==> LoopExitsAsWritten(hostCount, left0, passes + 1)
    ensures left0 > hostCount ==>
      (LoopExitsAsWritten(hostCount, left0, passes + 1) <==> LoopExitsAsWritten(hostCount, left, passes))
  {
  }

  /** With no hosts the inner loop places nothing and the outer loop never
      ends, however many passes it is given. */
  lemma {:induction false} NoHostsLoopNeverExits(left: int, passes: nat)
    requires left > 0
    ensures !LoopExitsAsWritten(0, left, passes)
    decreases passes
  {
    if passes > 0 {
      NoHostsLoopNeverExits(left, passes - 1);
    }
  }

  /** With at least one host the loop ends within `left` passes. */
  lemma {:induction false} HostsLoopExits(hostCount: nat, left: int)
    requires hostCount > 0 && left > 0
    ensures LoopExitsAsWritten(hostCount, left, left)
    decreases left
  {
    if left > hostCount {
      HostsLoopExits(hostCount, left - hostCount);
      PassesMonotone(hostCount, left - hostCount, left - hostCount, left - 1);
    }
  }

  lemma {:induction false} PassesMonotone(hostCount: nat, left: int, passes: nat, more: nat)
    requires left > 0 && passes <= more && LoopExitsAsWritten(hostCount, left, passes)
    ensures LoopExitsAsWritten(hostCount, left, more)
    decreases passes
  {
    if left > hostCount {
      PassesMonotone(hostCount, left - hostCount, passes - 1, more - 1);
    }
  }

  /** POST /apps/{app_id}/formations/{formation_id}. The scheduler's answers
      to the state query and to the schedule call are `state` and
      `scheduler`; `rng(k)` are the bytes of the k-th identifier made. */
  method ChangeFormation(state: StateReply, appId: string, formationId: string, req: Formation,
                         rng: nat -> Bytes16, scheduler: ScheduleReply)
    returns (res: FormationResult)
    ensures state.StateFailed? ==> res == FormationResult(500, None, NoAction)
    ensures state.State? ==>
      var prefix := FormationPrefix(appId, formationId);
      var matched := Matched(state.hosts, prefix);
      var wanted := Formation(Clamp(req.quantity), req.typ);
      var diff := Clamp(req.quantity) - |matched|;
      if diff == 0 then
        res == FormationResult(200, Some(wanted), NoAction)
      else if diff < 0 then
        res == FormationResult(200, Some(wanted), StopJobs(matched[..-diff]))
      else if |state.hosts| == 0 then
        res == FormationResult(500, None, NoAction)
      else
        res.action == ScheduleJobs(Distribute(HostIds(state.hosts), NewJobs(prefix, rng, diff))) &&
        if ScheduleSucceeded(scheduler) then res.status == 200 && res.formation == Some(wanted)
        else res.status == 500 && res.formation == None
  {
    if state.StateFailed? {
      return FormationResult(500, None, NoAction);
    }
    var hosts := state.hosts;
    var prefix := FormationPrefix(appId, formationId);
    var jobs := SelectFormationJobs(hosts, prefix);
    var quantity := req.quantity;
    if quantity < 0 {
      quantity := 0;
    }
    var wanted := Formation(quantity, req.typ);
    var diff := quantity - |jobs|;
    if diff > 0 {
      if |hosts| == 0 {
        return FormationResult(500, None, NoAction);
      }
      var request := BuildScheduleRequest(HostIds(hosts), prefix, rng, diff);
      if !ScheduleSucceeded(scheduler) {
        return FormationResult(500, None, ScheduleJobs(request));
      }
      return FormationResult(200, Some(wanted), ScheduleJobs(request));
    } else if diff < 0 {
      return FormationResult(200, Some(wanted), StopJobs(jobs[..-diff]));
    }
    return FormationResult(200, Some(wanted), NoAction);
  }
}
