/** GET /apps/{app_id}/jobs: list the jobs of one app with their type. */
module JobListing {

  import opened Cluster

  /** One entry of the listing: the job id and its type token. */
  datatype Listed = Listed(id: string, typ: string)

  /** strings.Split(rest, ".")[0]: the text before the first '.', or all of
      `rest` when it holds no '.'. */
  function TypeToken(rest: string): (t: string)
    ensures |t| <= |rest| && t == rest[..|t|]
    ensures '.' !in t
    ensures |t| == |rest| || rest[|t|] == '.'
    decreases |rest|
  {
    if |rest| == 0 || rest[0] == '.' then [] else [rest[0]] + TypeToken(rest[1..])
  }

  /** The type token is the text before the first '.', and a remainder
      without '.' is its own type. */
  lemma {:induction false} TypeTokenOf(token: string, rest: string)
    requires '.' !in token
    ensures TypeToken(token + "." + rest) == token
    ensures TypeToken(token) == token
    decreases |token|
  {
    if |token| > 0 {
      TypeTokenOf(token[1..], rest);
      assert (token + "." + rest)[1..] == token[1..] + "." + rest;
    }
  }

  /** The listing entry of a job whose id starts with `prefix`. */
  function Entry(id: string, prefix: string): Listed
    requires StartsWith(id, prefix)
  {
    Listed(id, TypeToken(id[|prefix|..]))
  }

  /** The entries for the scanned jobs whose id starts with `prefix`. */
  function Listing(ps: seq<Placed>, prefix: string): seq<Listed>
    decreases |ps|
  {
    if |ps| == 0 then []
    else
      var p := ps[|ps| - 1];
      Listing(ps[..|ps| - 1], prefix) + (if StartsWith(p.job.id, prefix) then [Entry(p.job.id, prefix)] else [])
  }

  lemma ListingSnoc(ps: seq<Placed>, p: Placed, prefix: string)
    ensures Listing(ps + [p], prefix) ==
      Listing(ps, prefix) + (if StartsWith(p.job.id, prefix) then [Entry(p.job.id, prefix)] else [])
  {
    assert (ps + [p])[..|ps|] == ps;
  }

  lemma ListingNext(hosts: seq<Host>, h: nat, j: nat, prefix: string)
    requires h < |hosts| && j < |hosts[h].jobs|
    ensures var id := hosts[h].jobs[j].id;
      Listing(Scanned(hosts, h, j + 1), prefix) ==
      Listing(Scanned(hosts, h, j), prefix) + (if StartsWith(id, prefix) then [Entry(id, prefix)] else [])
  {
    ScanNext(hosts, h, j);
    ListingSnoc(Scanned(hosts, h, j), Placed(hosts[h].id, hosts[h].jobs[j]), prefix);
  }

  /** The listing has one entry per selected job, in scan order, carrying
      that job's id and the type token that follows the prefix. */
  lemma {:induction false} ListingOfSelection(ps: seq<Placed>, prefix: string)
    ensures |Listing(ps, prefix)| == |Select(ps, prefix)|
    ensures forall k :: 0 <= k < |Select(ps, prefix)| ==>
      StartsWith(Select(ps, prefix)[k].job.id, prefix) &&
      Listing(ps, prefix)[k] == Entry(Select(ps, prefix)[k].job.id, prefix)
    decreases |ps|
  {
    if |ps| > 0 {
      ListingOfSelection(ps[..|ps| - 1], prefix);
    }
  }

  /** GET /apps/{app_id}/jobs with the scheduler's state query answered by
      `reply`: 500 when the query fails, otherwise 200 and one entry per
      job whose id starts with `app_id + "-"`. */
  method GetJobList(reply: StateReply, appId: string) returns (status: int, jobs: seq<Listed>)
    ensures reply.StateFailed? ==> status == 500 && jobs == []
    ensures reply.State? ==> status == 200 && jobs == Listing(Placements(reply.hosts), appId + "-")
  {
    if reply.StateFailed? {
      return 500, [];
    }
    var hosts := reply.hosts;
    var prefix := appId + "-";
    jobs := [];
    var h := 0;
    while h < |hosts|
      invariant 0 <= h <= |hosts|
      invariant jobs == Listing(Placements(hosts[..h]), prefix)
    {
      var host := hosts[h];
      var j := 0;
      ScanStart(hosts, h);
      while j < |host.jobs|
        invariant 0 <= j <= |host.jobs|
        invariant jobs == Listing(Scanned(hosts, h, j), prefix)
      {
        var job := host.jobs[j];
        ListingNext(hosts, h, j, prefix);
        if StartsWith(job.id, prefix) {
          var typ := TypeToken(job.id[|prefix|..]);
          jobs := jobs + [Listed(job.id, typ)];
        }
        j := j + 1;
      }
      ScanEnd(hosts, h);
      h := h + 1;
    }
    assert hosts[..h] == hosts;
    status := 200;
  }

  /** Prefix isolation between apps: when app ids hold no '-', a job of app
      `other` is never listed for a different app `app` (so `app1` does not
      pick up `app10-web.x`). */
  lemma AppPrefixIsolation(app: string, other: string, rest: string)
    requires '-' !in app && '-' !in other && app != other
    ensures !StartsWith(other + "-" + rest, app + "-")
  {
    DelimitedIsolation(app, other, '-', rest);
  }
}
