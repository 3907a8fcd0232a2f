/** The cluster state the scheduler reports and the job records it holds.
    The scheduler itself is outside the model: its replies are inputs. */
module Cluster {

  import opened Wrappers

  /** A container configuration: the fields the API layer sets. */
  datatype Config = Config(
    image: string,
    cmd: seq<string>,
    env: seq<string>,
    attachStdin: bool,
    attachStdout: bool,
    attachStderr: bool,
    stdinOnce: bool,
    openStdin: bool,
    tty: bool)

  /** A scheduled job. `attributes` is None for a nil attribute map. */
  datatype Job = Job(id: string, attributes: Option<map<string, string>>, config: Config)

  datatype Host = Host(id: string, jobs: seq<Job>)

  /** No id occurs twice: the keys of a Go map. */
  predicate Distinct(ids: seq<string>) {
    forall i, j :: 0 <= i < j < |ids| ==> ids[i] != ids[j]
  }

  predicate DistinctHostIds(hosts: seq<Host>) {
    Distinct(seq(|hosts|, i requires 0 <= i < |hosts| => hosts[i].id))
  }

  /** The scheduler's state: a map from host id to host, given here in the
      order one iteration over the map visits it. The key of each entry is
      taken to be the `id` field of its host. */
  type Snapshot = hosts: seq<Host> | DistinctHostIds(hosts)

  /** The answer of the scheduler's state query. */
  datatype StateReply = StateFailed | State(hosts: Snapshot)

  /** The answer of the scheduler's schedule call: a transport error, or a
      response whose success flag may be false. */
  datatype ScheduleReply = ScheduleFailed | Scheduled(success: bool)

  predicate ScheduleSucceeded(reply: ScheduleReply) {
    reply.Scheduled? && reply.success
  }

  /** strings.HasPrefix */
  predicate StartsWith(s: string, prefix: string) {
    |prefix| <= |s| && s[..|prefix|] == prefix
  }

  /** A shared head does not change whether one string starts with another. */
  lemma StartsWithCommon(c: string, s: string, p: string)
    ensures StartsWith(c + s, c + p) <==> StartsWith(s, p)
  {
    if |c + p| <= |c + s| {
      assert (c + s)[..|c + p|] == c + s[..|p|];
      if (c + s)[..|c + p|] == c + p {
        assert s[..|p|] == (c + s)[..|c + p|][|c|..];
      }
    }
  }

  /** Starting with `p + q` implies starting with `p`. */
  lemma StartsWithHead(s: string, p: string, q: string)
    requires StartsWith(s, p + q)
    ensures StartsWith(s, p)
  {
    assert s[..|p|] == s[..|p + q|][..|p|];
  }

  /** Two different names free of the delimiter `d`, each followed by `d`,
      never prefix one another: `x + d` is not a prefix of `y + d + rest`. */
  lemma DelimitedIsolation(x: string, y: string, d: char, rest: string)
    requires d !in x && d !in y && x != y
    ensures !StartsWith(y + [d] + rest, x + [d])
  {
    var id, p := y + [d] + rest, x + [d];
    if |p| <= |id| {
      var k: nat;
      if |x| < |y| {
        k := |x|;
        assert id[k] == y[k] && p[k] == d;
      } else if |x| > |y| {
        k := |y|;
        assert id[k] == d && p[k] == x[k];
      } else {
        k :| 0 <= k < |x| && x[k] != y[k];
        assert id[k] == y[k] && p[k] == x[k];
      }
      assert id[..|p|][k] != p[k];
    }
  }

  /** A job together with the host it was found on. */
  datatype Placed = Placed(hostId: string, job: Job)

  /** Every job of the snapshot, host after host, in scan order. */
  function Placements(hosts: seq<Host>): (ps: seq<Placed>)
    ensures |hosts| == 0 ==> ps == []
    decreases |hosts|
  {
    if |hosts| == 0 then []
    else Placements(hosts[..|hosts| - 1]) + PlacedOn(hosts[|hosts| - 1])
  }

  /** The jobs of one host, each paired with that host's id. */
  function PlacedOn(host: Host): (ps: seq<Placed>)
    ensures |ps| == |host.jobs|
    ensures forall k :: 0 <= k < |ps| ==> ps[k] == Placed(host.id, host.jobs[k])
  {
    seq(|host.jobs|, k requires 0 <= k < |host.jobs| => Placed(host.id, host.jobs[k]))
  }

  lemma PlacementsNext(hosts: seq<Host>, n: nat)
    requires n < |hosts|
    ensures Placements(hosts[..n + 1]) == Placements(hosts[..n]) + PlacedOn(hosts[n])
  {
    assert hosts[..n + 1][..n] == hosts[..n];
  }

  /** The placements a scan has visited after `j` jobs of host `h`. */
  function Scanned(hosts: seq<Host>, h: nat, j: nat): seq<Placed>
    requires h < |hosts| && j <= |hosts[h].jobs|
  {
    Placements(hosts[..h]) + PlacedOn(hosts[h])[..j]
  }

  lemma ScanStart(hosts: seq<Host>, h: nat)
    requires h < |hosts|
    ensures Scanned(hosts, h, 0) == Placements(hosts[..h])
  {
    assert Placements(hosts[..h]) + PlacedOn(hosts[h])[..0] == Placements(hosts[..h]);
  }

  lemma ScanNext(hosts: seq<Host>, h: nat, j: nat)
    requires h < |hosts| && j < |hosts[h].jobs|
    ensures Scanned(hosts, h, j + 1) == Scanned(hosts, h, j) + [Placed(hosts[h].id, hosts[h].jobs[j])]
  {
    assert PlacedOn(hosts[h])[..j + 1] == PlacedOn(hosts[h])[..j] + [Placed(hosts[h].id, hosts[h].jobs[j])];
  }

  lemma ScanEnd(hosts: seq<Host>, h: nat)
    requires h < |hosts|
    ensures Scanned(hosts, h, |hosts[h].jobs|) == Placements(hosts[..h + 1])
  {
    assert PlacedOn(hosts[h])[..|hosts[h].jobs|] == PlacedOn(hosts[h]);
    PlacementsNext(hosts, h);
  }

  /** A placement is in the scan exactly when its job is on its host. */
  lemma {:induction false} PlacementsMembers(hosts: seq<Host>, p: Placed)
    ensures p in Placements(hosts) <==> exists i :: 0 <= i < |hosts| && hosts[i].id == p.hostId && p.job in hosts[i].jobs
    decreases |hosts|
  {
    if |hosts| > 0 {
      var init, last := hosts[..|hosts| - 1], hosts[|hosts| - 1];
      PlacementsMembers(init, p);
      if p in PlacedOn(last) {
        var k :| 0 <= k < |PlacedOn(last)| && PlacedOn(last)[k] == p;
        assert last.jobs[k] == p.job;
      }
      if p.job in last.jobs && last.id == p.hostId {
        var k :| 0 <= k < |last.jobs| && last.jobs[k] == p.job;
        assert PlacedOn(last)[k] == p;
      }
      forall i | 0 <= i < |init| ensures init[i] == hosts[i] { }
    }
  }

  /** The placements whose job id starts with `prefix`, in scan order. */
  function Select(ps: seq<Placed>, prefix: string): seq<Placed>
    decreases |ps|
  {
    if |ps| == 0 then []
    else
      var p := ps[|ps| - 1];
      Select(ps[..|ps| - 1], prefix) + (if StartsWith(p.job.id, prefix) then [p] else [])
  }

  lemma SelectSnoc(ps: seq<Placed>, p: Placed, prefix: string)
    ensures Select(ps + [p], prefix) == Select(ps, prefix) + (if StartsWith(p.job.id, prefix) then [p] else [])
  {
    assert (ps + [p])[..|ps|] == ps;
  }

  /** Selection keeps every matching placement as often as it occurs and
      drops every other one. */
  lemma {:induction false} SelectCounts(ps: seq<Placed>, prefix: string, p: Placed)
    ensures multiset(Select(ps, prefix))[p] == if StartsWith(p.job.id, prefix) then multiset(ps)[p] else 0
    decreases |ps|
  {
    if |ps| > 0 {
      var init, last := ps[..|ps| - 1], ps[|ps| - 1];
      SelectCounts(init, prefix, p);
      assert ps == init + [last];
    }
  }

  /** Only matching placements are selected. */
  lemma SelectMatches(ps: seq<Placed>, prefix: string, p: Placed)
    requires p in Select(ps, prefix)
    ensures p in ps && StartsWith(p.job.id, prefix)
  {
    SelectCounts(ps, prefix, p);
  }
}
