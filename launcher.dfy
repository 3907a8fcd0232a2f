/** POST /apps/{app_id}/jobs: run one job on a host, optionally attached
    to the caller's connection. */
module Launcher {

  import opened Wrappers
  import opened Cluster
  import opened Identity
  import opened RoundRobin
  import opened JobListing
  import opened Attach

  predicate DistinctKeys(env: seq<(string, string)>) {
    Distinct(seq(|env|, i requires 0 <= i < |env| => env[i].0))
  }

  /** The environment map of the request, in the order one iteration over
      the map visits it. */
  type Env = env: seq<(string, string)> | DistinctKeys(env)

  /** The decoded request body. */
  datatype NewJobRequest = NewJobRequest(cmd: seq<string>, env: Env, attach: bool, tty: bool, columns: int, lines: int)

  /** The streams of an attach request. */
  datatype AttachFlag = FlagStdout | FlagStderr | FlagStdin | FlagStream

  /** The attach request sent to the host agent. */
  datatype AttachRequest = AttachRequest(jobId: string, flags: set<AttachFlag>, height: int, width: int)

  /** What the handler did: its status, the content type it set, the attach
      request it built (before the registry is asked, so it is built even
      when it is never sent), the schedule request it sent, and the session
      that was streamed over the hijacked connection. */
  datatype RunOutcome = RunOutcome(
    status: int,
    contentType: string,
    attachRequest: Option<AttachRequest>,
    scheduled: Option<Request>,
    streamed: Option<Session>)

  const HijackContentType: string := "application/vnd.flynn.hijack"

  /** The host the job goes to: the first host one iteration over the state
      visits, or "" when there is none. */
  function PickHost(hosts: Snapshot): (id: string)
    ensures |hosts| == 0 ==> id == ""
    ensures |hosts| > 0 ==> exists i :: 0 <= i < |hosts| && hosts[i].id == id
  {
    if |hosts| == 0 then "" else hosts[0].id
  }

  /** The `key=value` entries of the job's environment. */
  function EnvLines(env: seq<(string, string)>): (lines: seq<string>)
    ensures |lines| == |env|
  {
    seq(|env|, i requires 0 <= i < |env| => env[i].0 + "=" + env[i].1)
  }

  /** The loop that formats the environment. */
  method FormatEnv(env: Env) returns (lines: seq<string>)
    ensures lines == EnvLines(env)
  {
    lines := [];
    var i := 0;
    while i < |env|
      invariant 0 <= i <= |env|
      invariant lines == EnvLines(env[..i])
    {
      var (k, v) := env[i];
      lines := lines + [k + "=" + v];
      i := i + 1;
    }
    assert env[..i] == env;
  }

  /** Length of the key of an environment entry: up to the first '='. */
  function KeyLength(line: string): (n: nat)
    ensures n <= |line| && '=' !in line[..n]
    ensures n == |line| || line[n] == '='
    decreases |line|
  {
    if |line| == 0 || line[0] == '=' then 0 else 1 + KeyLength(line[1..])
  }

  /** An environment entry read back as key and value, splitting at the
      first '=' (an entry without '=' is a key with an empty value). */
  function ParseEnvLine(line: string): (string, string) {
    var n := KeyLength(line);
    if n == |line| then (line, "") else (line[..n], line[n + 1..])
  }

  /** Formatting loses nothing when keys hold no '=': every entry reads back
      as the key and value it was made from. */
  lemma EnvRoundTrip(env: seq<(string, string)>)
    requires forall i :: 0 <= i < |env| ==> '=' !in env[i].0
    ensures forall i :: 0 <= i < |env| ==> ParseEnvLine(EnvLines(env)[i]) == env[i]
  {
    forall i | 0 <= i < |env|
      ensures ParseEnvLine(EnvLines(env)[i]) == env[i]
    {
      EntryRoundTrip(env[i].0, env[i].1);
    }
  }

  lemma EntryRoundTrip(key: string, value: string)
    requires '=' !in key
    ensures ParseEnvLine(key + "=" + value) == (key, value)
  {
    var line := key + "=" + value;
    KeyAt(key, value);
    assert line[..|key|] == key;
    assert line[|key| + 1..] == value;
  }

  lemma {:induction false} KeyAt(key: string, value: string)
    requires '=' !in key
    ensures KeyLength(key + "=" + value) == |key|
    decreases |key|
  {
    if |key| > 0 {
      KeyAt(key[1..], value);
      assert (key + "=" + value)[1..] == key[1..] + "=" + value;
    }
  }

  /** The id of a one-off job: app id, "-run." and a fresh identifier. */
  function RunJobId(appId: string, b: Bytes16): string {
    appId + "-run." + RandomId(b)
  }

  /** A one-off job is listed under its app with type "run". */
  lemma RunJobListed(appId: string, b: Bytes16)
    ensures StartsWith(RunJobId(appId, b), appId + "-")
    ensures Entry(RunJobId(appId, b), appId + "-") == Listed(RunJobId(appId, b), "run")
  {
    var id := RunJobId(appId, b);
    assert id == (appId + "-") + ("run" + "." + RandomId(b));
    assert id[..|appId + "-"|] == appId + "-";
    assert id[|appId + "-"|..] == "run" + "." + RandomId(b);
    TypeTokenOf("run", RandomId(b));
  }

  /** The container of a one-off job: image "ubuntu", the requested command
      and environment, stdout and stderr attached, stdin attached and closed
      after the first client detaches, stdin kept open only for an attached
      job, and a terminal only when asked for. */
  function RunConfig(r: NewJobRequest, env: seq<string>): (c: Config)
    ensures c.image == "ubuntu" && c.cmd == r.cmd && c.env == env
    ensures c.attachStdin && c.attachStdout && c.attachStderr && c.stdinOnce
    ensures c.openStdin <==> r.attach
    ensures c.tty <==> r.tty
  {
    Config("ubuntu", r.cmd, env, true, true, true, true, r.attach, r.tty)
  }

  /** The attach request for a job: all three streams, streaming, and a
      zero terminal size (the requested columns and lines are not passed). */
  function RunAttachRequest(jobId: string): AttachRequest {
    AttachRequest(jobId, {FlagStdout, FlagStderr, FlagStdin, FlagStream}, 0, 0)
  }

  /** POST /apps/{app_id}/jobs. `body` is None when the request body does not
      decode; `state` and `scheduler` are the scheduler's answers, `b` the
      random bytes of the job id, `discover` and `dial` the registry and the
      agents, and `hijackOk` whether the connection could be taken over. */
  method RunJob(body: Option<NewJobRequest>, state: StateReply, appId: string, b: Bytes16,
                discover: string -> Services, dial: string -> Link, scheduler: ScheduleReply, hijackOk: bool)
    returns (out: RunOutcome)
    ensures body.None? || state.StateFailed? || PickHost(state.hosts) == "" ==>
      out == RunOutcome(500, "", None, None, None)
    ensures body.Some? && state.State? && PickHost(state.hosts) != "" ==>
      var r, host := body.value, PickHost(state.hosts);
      var job := Job(RunJobId(appId, b), None, RunConfig(r, EnvLines(r.env)));
      var attached := LorneAttach(host, discover, dial);
      out.attachRequest == (if r.attach then Some(RunAttachRequest(job.id)) else None) &&
      if r.attach && attached.Refused? then
        out.status == 500 && out.contentType == "" && out.scheduled == None && out.streamed == None
      else
        out.scheduled == Some(map[host := [job]]) &&
        if !ScheduleSucceeded(scheduler) then out.status == 500 && out.contentType == "" && out.streamed == None
        else if r.attach then
          out.status == 200 && out.contentType == HijackContentType &&
          out.streamed == (if hijackOk then Some(attached.session) else None)
        else out.status == 200 && out.contentType == "" && out.streamed == None
    ensures out.streamed.Some? ==> Delivers(out.streamed.value)
  {
    if body.None? || state.StateFailed? {
      return RunOutcome(500, "", None, None, None);
    }
    var r := body.value;
    var hostId := PickHost(state.hosts);
    if hostId == "" {
      return RunOutcome(500, "", None, None, None);
    }
    var env := FormatEnv(r.env);
    var config := Config("ubuntu", r.cmd, env, true, true, true, true, false, false);
    if r.tty {
      config := config.(tty := true);
    }
    if r.attach {
      config := config.(attachStdin := true, stdinOnce := true, openStdin := true);
    }
    var job := Job(RunJobId(appId, b), None, config);
    var attachRequest: Option<AttachRequest> := None;
    var session: Option<Session> := None;
    if r.attach {
      attachRequest := Some(RunAttachRequest(job.id));
      var attached := LorneAttach(hostId, discover, dial);
      if attached.Refused? {
        return RunOutcome(500, "", attachRequest, None, None);
      }
      session := Some(attached.session);
    }
    var request := map[hostId := [job]];
    if !ScheduleSucceeded(scheduler) {
      return RunOutcome(500, "", attachRequest, Some(request), None);
    }
    if r.attach {
      if !hijackOk {
        return RunOutcome(200, HijackContentType, attachRequest, Some(request), None);
      }
      return RunOutcome(200, HijackContentType, attachRequest, Some(request), session);
    }
    return RunOutcome(200, "", attachRequest, Some(request), None);
  }
}
