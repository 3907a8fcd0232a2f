# flynn-api server core, modelled in Dafny

This project models the request handlers of the Flynn API server
(`server.go`). Everything that talks to the network is treated as data passed in.

- **Job listing** (`GET /apps/{app_id}/jobs`). The handler scans the scheduler's cluster state. It keeps every job whose id starts with `app_id + "-"` and reports the text up to the next `.` as the job's type.
- **Formation reconciliation** (`POST /apps/{app_id}/formations/{formation_id}`). The handler:
  - clamps the requested quantity at zero;
  - collects the jobs of the formation, meaning the ids that start with `app_id-formation_id.`;
  - tags each collected job with the `host_id` attribute of its host;
  - compares the count with the quantity.
  - On scale-up it fills a host → new-jobs schedule request round-robin over the hosts.
  - On scale-down it picks the first surplus jobs to stop.
- **Job identifiers** (`randomID`). Sixteen random bytes are encoded in URL-safe base64 (section 5 of RFC 4648, with padding) and the trailing `=` characters are trimmed.
- **Attach handshake** (`lorneAttach`). The handler finds the host agent's attach service, connects and sends the attach request. It then switches on the status byte(s) the agent sends back: `AttachError`, `AttachWaiting`, or anything else.
- **One-off jobs** (`POST /apps/{app_id}/jobs`). The handler:
  - picks a host;
  - formats the environment as `k=v` strings;
  - builds the `app-run.<id>` job with its stdin/tty flags;
  - optionally attaches before scheduling;
  - schedules the job on that host.

External answers are inputs of the model:

- the scheduler's state and schedule replies (`Cluster.StateReply`, `Cluster.ScheduleReply`);
- the service registry (`Attach.Services`);
- the agent behind an address (`Attach.Link`);
- the random bytes (`rng(k)` is the k-th `randomID()` call of a request);
- whether the HTTP connection could be hijacked.

A Go map the code ranges over (the state, the env map) is a sequence in one iteration order with distinct keys.

Modules and files:

| file | module | contents |
|---|---|---|
| `wrappers.dfy` | `Wrappers` | `Option` |
| `identity.dfy` | `Identity` | base64url encoder, reference decoder, `RandomId` |
| `cluster.dfy` | `Cluster` | jobs, hosts, snapshots, scan order, prefix selection |
| `listing.dfy` | `JobListing` | `getJobList` |
| `roundrobin.dfy` | `RoundRobin` | the distribution the scale-up loop produces, and its counting lemmas |
| `formation.dfy` | `Formations` | `changeFormation` |
| `attach.dfy` | `Attach` | `lorneAttach` and its handshake |
| `launcher.dfy` | `Launcher` | `runJob` |

Two behaviours of the code the model keeps as they are:

- Scale-down calls nothing: the loop over the surplus jobs is an empty stub. The model records which jobs would be stopped (the `StopJobs` action of `Formations.ChangeFormation`) and issues no call.
- The host of a one-off job is the first key the state map yields. It is not checked to be alive, and an empty host id is treated like "no hosts".

## Model

| member | source | states |
|---|---|---|
| Identity.Encode | server.go:349 | computes `base64.URLEncoding.Encode`: four alphabet characters per group of three bytes, the last group padded with `=`; its properties are stated by `DecodeEncode`, `EncodeLength` and `EncodeShape` |
| Identity.SextetRoundTrip | server.go:349 | each of the 64 base64url characters decodes back to the 6-bit value it encodes |
| Identity.DecodeEncode | server.go:349 | the padded base64url encoding of any byte sequence decodes back to exactly that sequence |
| Identity.EncodeLength | server.go:344-349 | the encoding has 4 characters per started group of 3 bytes (24 for 16 bytes, the size of `enc`) |
| Identity.EncodeShape | server.go:349 | the encoding is URL-safe alphabet characters followed by exactly the 0, 1 or 2 `=` padding characters the length calls for |
| Identity.TrimPadding | server.go:350 | `bytes.TrimRight(enc, "=")` keeps a prefix of its input, drops only `=` and leaves no trailing `=` |
| Identity.RandomIdPadded | server.go:342-350 | for 16 bytes the trimmed text is the padded encoding minus its two `=` |
| Identity.RandomId | server.go:342-351 | an identifier has 22 characters, all from A-Z a-z 0-9 `-` `_`, so it contains no `=` |
| Identity.RandomIdInjective | server.go:342-351 | different random bytes give different identifiers |
| Cluster.Placements | server.go:64-65 | computes the (host, job) pairs of the nested `range` over the state and each host's jobs, in scan order; stated by `PlacementsMembers` |
| Cluster.Select | server.go:66 | computes the pairs whose job id starts with the prefix, in scan order; stated by `SelectCounts` and `SelectMatches` |
| Cluster.PlacementsMembers | server.go:64-65 | the scan visits a (host, job) pair exactly when that job is in that host's job list |
| Cluster.SelectCounts | server.go:66 | prefix selection keeps every job whose id starts with the prefix, as often as it occurs, and drops all others |
| Cluster.SelectMatches | server.go:93 | only jobs of the scan whose id starts with the prefix are selected |
| Cluster.StartsWith | server.go:66 | `strings.HasPrefix`: the id is at least as long as the prefix and begins with it; stated by `StartsWithCommon`, `StartsWithHead` and `DelimitedIsolation` |
| Cluster.StartsWithCommon | server.go:89 | a shared head does not change whether an id starts with a prefix |
| Cluster.StartsWithHead | server.go:89 | an id that starts with `app-formation.` starts with `app-` |
| Cluster.DelimitedIsolation | server.go:62-66 | `x + d` never prefixes `y + d + rest` for different `d`-free names `x`, `y` |
| JobListing.Entry | server.go:67-68 | computes the listed job for one id: the id and the type token after the prefix; stated by `TypeTokenOf` and `RunJobListed` |
| JobListing.Listing | server.go:64-71 | computes the listed jobs of a scan for a prefix; stated by `ListingOfSelection` and `GetJobList` |
| JobListing.TypeToken | server.go:67 | the type is the longest `.`-free prefix of the text after the app prefix: all of it when there is no `.` |
| JobListing.TypeTokenOf | server.go:67 | for `token.rest` with `.`-free `token` the type is `token`, and a `.`-free remainder is its own type |
| JobListing.ListingOfSelection | server.go:64-71 | one entry per job whose id starts with `app-`, in scan order, carrying its id and type |
| JobListing.GetJobList | server.go:55-74 | 500 and no entries when the state query fails; otherwise 200 and the entries of the scan for the prefix `app_id + "-"` |
| JobListing.AppPrefixIsolation | server.go:62-66 | with `-`-free app ids, no job of one app is listed for another |
| RoundRobin.Distribute | server.go:117-126 | computes the host → jobs request the round-robin loop builds from a sequence of new jobs; stated by `DistributeKeys`, `DistributeJobs`, `DistributeContainsAll`, `DistributeShare`, `DistributeBalanced` and `DistributeTotal` |
| RoundRobin.SlotOf | server.go:117-126 | the host position of the j-th new job is below the host count, and is j itself during the first pass |
| RoundRobin.NextSlot | server.go:118-124 | the next job goes to the next host, or to the first host at the start of a new pass |
| RoundRobin.SlotInPass | server.go:118-124 | within a pass, the i-th job of the pass goes to host i |
| RoundRobin.DistributeKeys | server.go:114-126 | the request names only hosts of the state, and host i exactly when more than i jobs were placed |
| RoundRobin.DistributeJobs | server.go:120 | every job of the request is one of the placed jobs |
| RoundRobin.DistributeContainsAll | server.go:118-121 | every placed job is in the request: the j-th on host `j mod hosts` of the iteration order |
| RoundRobin.DistributeShare | server.go:117-126 | host i gets one job per complete pass plus one if it comes before the stopping point of the last pass |
| RoundRobin.DistributeBalanced | server.go:117-126 | per-host job counts differ by at most one |
| RoundRobin.DistributeTotal | server.go:117-126 | the request holds exactly as many jobs as were placed |
| Formations.FormationPrefix | server.go:89 | computes `app_id + "-" + formation_id + "."`; stated by `FormationIsolation` and `FormationJobType` |
| Formations.TagHost | server.go:94-97 | a tagged job has `host_id` set to its host, every other attribute unchanged, and a map created when it was nil |
| Formations.Matched | server.go:89-101 | computes the formation's jobs of the state, each tagged with its host; stated by `MatchedJobs` |
| Formations.MatchedJobs | server.go:89-101 | each collected job is a formation job found on a host of the state, tagged with that host; every formation job of the state is collected, as often as it occurs |
| Formations.SelectFormationJobs | server.go:90-101 | the nested scan collects exactly the tagged formation jobs, in scan order |
| Formations.HostIds | server.go:119 | the hosts the loop ranges over, one id per host, all distinct |
| Formations.Clamp | server.go:103-105 | a negative quantity becomes 0, any other is kept |
| Formations.NewJob | server.go:120 | computes the k-th new job: id `prefix + randomID()` from the k-th random bytes, the fixed config, no attributes; stated by `NewJobInFormation` and `NewJobsMember` |
| Formations.NewJobs | server.go:120 | computes the first n new jobs, in the order the loop makes them; stated by `NewJobsMember` and `ScheduleRequestJobs` |
| Formations.NewJobInFormation | server.go:120 | a new job's id is the formation prefix followed by a 22-character identifier |
| Formations.NewJobIdsDistinct | server.go:120 | new jobs made from different random bytes have different ids |
| Formations.NewJobsMember | server.go:108-120 | every new job has no attributes, the `titanous/redis` config and the formation prefix |
| Formations.FormationIsolation | server.go:89-93 | with `-`-free app ids and `.`-free formation ids, a job of another (app, formation) is never collected |
| Formations.FormationJobType | server.go:120 | for a formation id without `.`, a job made by a scale-up is listed under its app with the formation id as its type |
| Formations.ScheduleRequestHosts | server.go:114-126 | a scale-up by diff names only hosts of the state, exactly the first min(diff, hosts) of them |
| Formations.ScheduleRequestCounts | server.go:117-126 | a scale-up by diff places exactly diff jobs, and per-host counts differ by at most one |
| Formations.ThreeOnTwoHosts | server.go:117-126 | 3 new jobs over 2 hosts: the first host gets the first and third, the second host the second |
| Formations.ScheduleRequestJobs | server.go:108-120 | every job in the request is one of the diff new jobs of the formation, with no attributes and the fixed config |
| RoundRobin.ThreeOverTwo | server.go:117-126 | three jobs over two hosts: the first and third on the first host, the second on the second |
| Formations.ScheduleRequestHoldsAll | server.go:117-126 | every one of the diff new jobs is in the request, the k-th on host `k mod hosts` |
| Formations.ScheduleRequestIdsUnique | server.go:120 | when the random source gives each identifier different bytes, the diff new jobs have pairwise different ids |
| Formations.PlacePass | server.go:119-125 | one pass of the inner loop gives each host the next new job; it ends with none left exactly when at most one pass's worth was left, and otherwise with one job fewer per host |
| Formations.BuildScheduleRequest | server.go:114-126 | with at least one host, the labelled loop ends with the round-robin distribution of the diff new jobs |
| Formations.LoopExitsAsWritten | server.go:117-126 | computes whether the labelled loop as written reaches `break outer` within a number of passes: each pass places one job per host and breaks once none is left; stated by `NoHostsLoopNeverExits`, `HostsLoopExits` and `PassIsLoopStep` |
| Formations.PassIsLoopStep | server.go:119-125 | one pass as `PlacePass` makes it is one step of the loop as written: it leaves none exactly when at most one pass's worth was left, and otherwise the loop exits one pass later than it would from what is left |
| Formations.NoHostsLoopNeverExits | server.go:117-126 | with no hosts the labelled loop never reaches `break outer`, however many passes it runs |
| Formations.HostsLoopExits | server.go:117-126 | with at least one host the labelled loop ends within diff passes |
| Formations.ChangeFormation | server.go:82-141 | covers every case: 500 when the state query fails; 200 with the clamped formation and no action when the count matches; 200 and the first `-diff` collected jobs to stop on scale-down; on scale-up with no hosts, 500 and no request (corrected, see Findings); otherwise the round-robin request, then 200 with the clamped formation, or 500 and no formation when the schedule call errs or reports failure |
| Attach.ServiceName | server.go:265 | computes the registry name `flynn-lorne-attach.<host>` of a host's attach service |
| Attach.Handshake | server.go:303-339 | computes the switch on the first status byte; stated by `HandshakeBytes`, `HandshakeSend` and `HandshakeComplete` |
| Attach.AfterWaiting | server.go:316-334 | computes what the background read of the second status byte starts; stated by `HandshakeBytes` |
| Attach.OutputDoneAsWritten | server.go:283-300 | computes whether `attach()` as written reports on its channel after a clean end of output: only when there is no input; stated by `LorneAttachAsWritten` and `StreamNeverEndsAsWritten` |
| Attach.HandshakeBytes | server.go:303-339 | the call fails exactly on an empty stream or a first `AttachError`, with the rest as message; after `AttachWaiting` a second `AttachError` fails later with the rest; any other byte streams what follows it |
| Attach.HandshakeSend | server.go:303-339 | the handshake reads back every reply an agent can send (ready, reject, wait then ready/reject, hang-ups) with messages and output unchanged |
| Attach.HandshakeComplete | server.go:308-339 | every stream is the encoding of an agent reply, or has an unknown status byte and behaves like success |
| Attach.LorneAttachAsWritten | server.go:264-339 | with no online address the attach returns no error and the nil-channel session of server.go:271; with an input, a streamed session never reports its end |
| Attach.LorneAttach | server.go:264-339 | corrected (see Findings): with no online address the attach is refused, and, for an agent that eventually closes its connection, every session it starts reports on its channel, a streamed one once the agent's output ends |
| Attach.LorneAttachNeverStalls | server.go:269-300 | the corrected attach never returns the nil-channel stall of server.go:271, and every session it starts reports on its channel once the agent closes the connection; without an input it agrees with the code as written wherever that does not stall, and it refuses exactly as the code as written does |
| Attach.StreamNeverEndsAsWritten | server.go:283-300 | on an agent that accepts and sends two bytes, with an input that ends, the code as written streams them and never reports the end, while the corrected attach reports it |
| Attach.LorneAttachFirstAddress | server.go:269-273 | only the agent behind the first online address decides the outcome |
| Attach.LorneAttachStarted | server.go:264-316 | an attach starts only after a successful connect and send and a first status byte other than `AttachError` |
| Launcher.PickHost | server.go:175-184 | the chosen host is a host of the state, and "" when there is none |
| Launcher.FormatEnv | server.go:186-189 | the loop makes one `key=value` entry per environment variable, in iteration order |
| Launcher.EnvRoundTrip | server.go:186-189 | when keys have no `=`, each entry splits back at its first `=` into its key and value |
| Launcher.EnvLines | server.go:186-189 | computes one `k=v` string per environment entry, in iteration order; stated by `FormatEnv` and `EnvRoundTrip` |
| Launcher.KeyLength | server.go:188 | reference parser, not in the source: the key of an entry ends at its first `=`; used by `EnvRoundTrip` to read entries back |
| Launcher.RunJobId | server.go:193 | computes `app_id + "-run." + randomID()`; stated by `RunJobListed` |
| Launcher.RunJobListed | server.go:193 | a one-off job id `app-run.<id>` is listed under its app with type `run` |
| Launcher.RunConfig | server.go:194-211 | image `ubuntu`, the requested cmd and env, stdout/stderr/stdin attached, stdin-once set, OpenStdin exactly for attached jobs, Tty exactly when requested |
| Launcher.RunAttachRequest | server.go:219-224 | computes the attach request: the job id, the stdout, stderr, stdin and stream flags, and height and width 0 |
| Launcher.RunJob | server.go:161-262 | corrected (see Findings): covers every case for an agent that eventually closes its connection: 500 for an undecodable body, a failed state query or no host; an attached job whose attach is refused gets 500 and is not scheduled; otherwise exactly the one job is scheduled on the chosen host; 500 if scheduling fails; an attached job then gets 200 with the hijack content type and streams its session, which reports its end once the agent's output ends and the agent closes the connection; other jobs get 200 |

## Left out

- HTTP routing, JSON marshalling and logging (`main`, tigertonic, the `json` decode of the body). An undecodable body is the input `None`.
- The scheduler client, the service registry, `net.Dial` and the gob encoding of the attach request. Their outcomes are inputs. The attach request is kept as data (`Launcher.AttachRequest`), not as bytes.
- Goroutines, pipes, `io.Copy` loops, channel signalling and the connection hijack (server.go:213-259, server.go:283-301). A started session is summarised as the bytes streamed after the status byte(s) and whether its channel then reports the end.
- The bytes copied from the caller to the agent. Only whether that input ever ends is modelled (`Attach.Input`), for the code as written; a transport error on either copy is not.
- Attach.LorneAttach: every agent is taken to close its connection once it has sent its bytes (an `Attach.Link` is a finite stream that ends with the close). An agent that keeps the connection open without sending more is not modelled. The source then blocks for ever, both as written and corrected, in one of four places: the first status read (server.go:304), the read of an error message (server.go:310, server.go:324), the background read of the second status byte after `AttachWaiting` (server.go:318), or the output copy (server.go:295).
- Attach.LorneAttachNeverStalls: "every started session reports on its channel" holds only for agents that close their connection, as the line above says. Otherwise the session never reports and the caller waits at server.go:257 for ever.
- Launcher.RunJob: covers every case only for agents that close their connection, as above. With an agent that never closes, the handler either never replies (a blocked first read) or waits at server.go:257 for ever after replying 200.
- Attach.HandshakeBytes: the closing of the agent connection is not modelled. The source closes it after a failed send (server.go:279), a failed first read (server.go:305), an `AttachError` (server.go:311), a failed second read or a second `AttachError` (server.go:319, server.go:325), and when `attach()` returns (server.go:286). A session attached before a schedule call that fails, or before a hijack that fails, is never read by `runJob`, so its `attach()` goroutine never returns and that connection stays open (server.go:225-245).
- `ioutil.ReadAll` transport errors while reading an agent's error message (server.go:312-314, server.go:326-329). The model reads the message as the rest of the stream.
- `crypto/rand`: the random bytes are inputs. The panic on a failed read is not modelled, and nothing is claimed about the bytes being random.
- The numeric values of the lorne status constants are not visible. They are taken as 0 (success), 1 (waiting) and 2 (error); the proofs use only that they differ. The attach flags are a set of named flags rather than a bit mask.
- `getJobLog` and the scale-down stop call are empty stubs in the source. Scale-down is modelled as the list of jobs it would stop.
- Formations.BuildScheduleRequest: Go may range over the state map in a different order on each pass. The model uses one order for every pass. The counts (diff in total, at most one apart) hold either way; which hosts of the last pass get a job may differ.
- Formations.SelectFormationJobs: the source sets `host_id` on the snapshot's own job objects in place. The model returns tagged copies.
- Launcher.PickHost: Go's map iteration picks an arbitrary first host; the model takes the first host of the iteration order it is given.
- Go's 64-bit `int` for the quantity and `diff`. Model integers are unbounded, so overflow is not modelled.
- The `type` field of the formation request body is only echoed back in the response.
- The `tty_columns` and `tty_lines` fields of a one-off job request: the source never passes them on, and the attach request has height and width 0.
- The state map's key is taken to be the `ID` field of its host. The source tags jobs with `host.ID` (server.go:97) but schedules on the map key (server.go:119-120, server.go:177). The model uses one id for both, and the distinct host ids of a snapshot stand for the distinct keys of the map.
- Formations.FormationIsolation: app ids are assumed to hold no `-` and formation ids no `.`. The source does not enforce this. Without it, app `a` with formation `b-c` and app `a-b` with formation `c` share the prefix `a-b-c.`.
- JobListing.AppPrefixIsolation: app ids are assumed to hold no `-`. Without it, the listing for app `a` takes a job `a-b-web.x` of app `a-b`, with type `b-web`.
- `Launcher.KeyLength` and `Launcher.ParseEnvLine` are a reference parser written for the environment round-trip lemma. The source never parses environment entries.
- `Identity.Decode` is a reference decoder written for the round-trip lemma. It is not a model of Go's decoder.

## Findings

| source | as written | input that shows it | evidently intended | confidence | as-written member | corrected member |
|---|---|---|---|---|---|---|
| server.go:117-126 | the labelled `outer` loop only leaves through `break outer` once `diff` reaches 0, and each pass decrements `diff` once per host | a state with no hosts and a quantity above the matched count (for example diff = 1): the inner `range` is empty, so `diff` never changes and the handler never returns | reply 500 without building or sending a schedule request | not executed | Formations.NoHostsLoopNeverExits | Formations.ChangeFormation |
| server.go:269-272 | with no online address `lorneAttach` returns the registry call's nil error and a nil channel | a registry answer with an empty address list: `runJob` schedules the job, hijacks the connection and then blocks forever on the nil channel at server.go:257 | return an error, so that `runJob` replies 500 and schedules nothing | not executed | Attach.LorneAttachAsWritten | Attach.LorneAttach |
| server.go:283-300 | after a clean end of the agent's output `attach()` runs `errChan <- <-inErr`; when `in` is non-nil nothing ever sends on or closes `inErr`, and `runJob` always passes a non-nil `in` | any attached one-off job whose agent streams its output and closes the connection: `runJob` waits at server.go:257 forever and never closes the caller's connection | the end of the output copy ends the session and is reported on `errChan`, whatever the input copy does; `runJob` then closes the caller's connection, which also stops the input copy | not executed | Attach.StreamNeverEndsAsWritten | Attach.LorneAttach |
