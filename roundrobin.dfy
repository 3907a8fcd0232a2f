/** The distribution of new jobs over hosts in a scale-up: a loop that
    passes over the hosts again and again, giving each host one new job per
    pass, until every new job is placed. */
module RoundRobin {

  import opened Cluster

  type Request = map<string, seq<Job>>

  /** The jobs a request places on host `h` (none when `h` is not a key). */
  function Lookup(req: Request, h: string): seq<Job> {
    if h in req then req[h] else []
  }

  /** The request after the round-robin loop placed `jobs`, in order: the
      j-th job goes to host `hostIds[SlotOf(j, |hostIds|)]`, appended after the
      jobs that host already got. */
  function Distribute(hostIds: seq<string>, jobs: seq<Job>): Request
    requires |hostIds| > 0
    decreases |jobs|
  {
    if |jobs| == 0 then map[]
    else
      var prev := Distribute(hostIds, jobs[..|jobs| - 1]);
      var h := hostIds[SlotOf(|jobs| - 1, |hostIds|)];
      prev[h := Lookup(prev, h) + [jobs[|jobs| - 1]]]
  }

  /** Number of jobs a request places on the hosts `hostIds`. */
  function TotalJobs(req: Request, hostIds: seq<string>): nat
    decreases |hostIds|
  {
    if |hostIds| == 0 then 0
    else TotalJobs(req, hostIds[..|hostIds| - 1]) + |Lookup(req, hostIds[|hostIds| - 1])|
  }

  lemma DistributeSnoc(hostIds: seq<string>, jobs: seq<Job>, x: Job)
    requires |hostIds| > 0
    ensures Distribute(hostIds, jobs + [x]) ==
      var prev := Distribute(hostIds, jobs);
      var h := hostIds[SlotOf(|jobs|, |hostIds|)];
      prev[h := Lookup(prev, h) + [x]]
  {
    assert (jobs + [x])[..|jobs|] == jobs;
  }

  /** The position of the j-th new job within its pass (j % hosts). */
  function SlotOf(j: nat, hosts: nat): (r: nat)
    requires hosts > 0
    ensures r < hosts
    ensures j < hosts ==> r == j
    decreases j
  {
    if j < hosts then j else SlotOf(j - hosts, hosts)
  }

  /** The number of complete passes before the j-th new job (j / hosts). */
  function PassOf(j: nat, hosts: nat): nat
    requires hosts > 0
    decreases j
  {
    if j < hosts then 0 else 1 + PassOf(j - hosts, hosts)
  }

  /** The job after the j-th goes to the next host, or starts a new pass. */
  lemma {:induction false} NextSlot(j: nat, hosts: nat)
    requires hosts > 0
    ensures SlotOf(j + 1, hosts) == if SlotOf(j, hosts) == hosts - 1 then 0 else SlotOf(j, hosts) + 1
    ensures PassOf(j + 1, hosts) == if SlotOf(j, hosts) == hosts - 1 then PassOf(j, hosts) + 1 else PassOf(j, hosts)
    decreases j
  {
    if j + 1 > hosts {
      NextSlot(j - hosts, hosts);
    }
  }

  /** Within a pass that starts at slot 0, the i-th job of the pass goes to
      host i. */
  lemma {:induction false} SlotInPass(start: nat, i: nat, hosts: nat)
    requires hosts > 0 && SlotOf(start, hosts) == 0 && i < hosts
    ensures SlotOf(start + i, hosts) == i
    decreases start
  {
    if start >= hosts {
      SlotInPass(start - hosts, i, hosts);
    }
  }

  /** Keys of the request: only hosts of the snapshot, and host `i` exactly
      when at least `i + 1` jobs were placed (the first pass stops early
      when there are fewer new jobs than hosts). */
  lemma {:induction false} DistributeKeys(hostIds: seq<string>, jobs: seq<Job>)
    requires |hostIds| > 0 && Distinct(hostIds)
    ensures forall h :: h in Distribute(hostIds, jobs) ==> h in hostIds
    ensures forall i :: 0 <= i < |hostIds| ==> (hostIds[i] in Distribute(hostIds, jobs) <==> i < |jobs|)
    decreases |jobs|
  {
    if |jobs| > 0 {
      var n := |jobs| - 1;
      DistributeKeys(hostIds, jobs[..n]);
    }
  }

  /** Every job of the request is one of the placed jobs. */
  lemma {:induction false} DistributeJobs(hostIds: seq<string>, jobs: seq<Job>, h: string, x: Job)
    requires |hostIds| > 0
    requires x in Lookup(Distribute(hostIds, jobs), h)
    ensures x in jobs
    decreases |jobs|
  {
    var n := |jobs| - 1;
    var prev := Distribute(hostIds, jobs[..n]);
    if x != jobs[n] {
      assert x in Lookup(prev, h);
      DistributeJobs(hostIds, jobs[..n], h, x);
    }
  }

  /** Every placed job is in the request: the j-th job is on host
      `hostIds[SlotOf(j, |hostIds|)]`. */
  lemma {:induction false} DistributeContainsAll(hostIds: seq<string>, jobs: seq<Job>, j: nat)
    requires |hostIds| > 0 && j < |jobs|
    ensures jobs[j] in Lookup(Distribute(hostIds, jobs), hostIds[SlotOf(j, |hostIds|)])
    decreases |jobs|
  {
    var n := |jobs| - 1;
    if j < n {
      var prev, h := Distribute(hostIds, jobs[..n]), hostIds[SlotOf(j, |hostIds|)];
      DistributeContainsAll(hostIds, jobs[..n], j);
      assert jobs[..n][j] == jobs[j];
      assert Lookup(prev, h) <= Lookup(Distribute(hostIds, jobs), h);
    }
  }

  /** Three jobs over two hosts: the first and third on the first host,
      the second on the second. */
  lemma ThreeOverTwo(h1: string, h2: string, x0: Job, x1: Job, x2: Job)
    requires h1 != h2
    ensures Lookup(Distribute([h1, h2], [x0, x1, x2]), h1) == [x0, x2]
    ensures Lookup(Distribute([h1, h2], [x0, x1, x2]), h2) == [x1]
  {
    var hs := [h1, h2];
    DistributeSnoc(hs, [], x0);
    assert [] + [x0] == [x0];
    var m1 := Distribute(hs, [x0]);
    assert Lookup(m1, h1) == [x0] && Lookup(m1, h2) == [];
    DistributeSnoc(hs, [x0], x1);
    assert [x0] + [x1] == [x0, x1];
    var m2 := Distribute(hs, [x0, x1]);
    assert Lookup(m2, h1) == [x0] && Lookup(m2, h2) == [x1];
    assert SlotOf(2, 2) == 0;
    DistributeSnoc(hs, [x0, x1], x2);
    assert [x0, x1] + [x2] == [x0, x1, x2];
  }

  /** Host `i` receives one job per complete pass, plus one in the last,
      partial pass when it comes before the point where the loop stopped. */
  lemma {:induction false} DistributeShare(hostIds: seq<string>, jobs: seq<Job>, i: nat)
    requires |hostIds| > 0 && Distinct(hostIds) && i < |hostIds|
    ensures |Lookup(Distribute(hostIds, jobs), hostIds[i])| ==
      PassOf(|jobs|, |hostIds|) + (if i < SlotOf(|jobs|, |hostIds|) then 1 else 0)
    decreases |jobs|
  {
    if |jobs| > 0 {
      var n := |jobs| - 1;
      var prev, s := Distribute(hostIds, jobs[..n]), SlotOf(n, |hostIds|);
      DistributeShare(hostIds, jobs[..n], i);
      NextSlot(n, |hostIds|);
      assert Distribute(hostIds, jobs) == prev[hostIds[s] := Lookup(prev, hostIds[s]) + [jobs[n]]];
      assert i != s ==> hostIds[i] != hostIds[s];
      assert |Lookup(Distribute(hostIds, jobs), hostIds[i])| ==
        |Lookup(prev, hostIds[i])| + (if i == s then 1 else 0);
    }
  }

  /** Per-host counts differ by at most one. */
  lemma DistributeBalanced(hostIds: seq<string>, jobs: seq<Job>, i: nat, k: nat)
    requires |hostIds| > 0 && Distinct(hostIds) && i < |hostIds| && k < |hostIds|
    ensures |Lookup(Distribute(hostIds, jobs), hostIds[i])| <= |Lookup(Distribute(hostIds, jobs), hostIds[k])| + 1
  {
    DistributeShare(hostIds, jobs, i);
    DistributeShare(hostIds, jobs, k);
  }

  lemma {:induction false} TotalAppend(req: Request, hostIds: seq<string>, h: string, x: Job)
    requires Distinct(hostIds)
    ensures TotalJobs(req[h := Lookup(req, h) + [x]], hostIds) ==
      TotalJobs(req, hostIds) + (if h in hostIds then 1 else 0)
    decreases |hostIds|
  {
    if |hostIds| > 0 {
      var init := hostIds[..|hostIds| - 1];
      TotalAppend(req, init, h, x);
      assert h in hostIds <==> h in init || h == hostIds[|hostIds| - 1];
      assert h == hostIds[|hostIds| - 1] ==> h !in init;
    }
  }

  lemma {:induction false} TotalEmpty(hostIds: seq<string>)
    ensures TotalJobs(map[], hostIds) == 0
    decreases |hostIds|
  {
    if |hostIds| > 0 {
      TotalEmpty(hostIds[..|hostIds| - 1]);
    }
  }

  /** The request holds exactly as many jobs as were placed. */
  lemma {:induction false} DistributeTotal(hostIds: seq<string>, jobs: seq<Job>)
    requires |hostIds| > 0 && Distinct(hostIds)
    ensures TotalJobs(Distribute(hostIds, jobs), hostIds) == |jobs|
    decreases |jobs|
  {
    if |jobs| > 0 {
      var n := |jobs| - 1;
      var h := hostIds[SlotOf(n, |hostIds|)];
      DistributeTotal(hostIds, jobs[..n]);
      TotalAppend(Distribute(hostIds, jobs[..n]), hostIds, h, jobs[n]);
      assert h in hostIds;
    } else {
      TotalEmpty(hostIds);
    }
  }
}
