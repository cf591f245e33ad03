# A verified model of the phone farm

The farm publishes short videos from real phones. An agent next to the phones (`apps/device-agent`) routes
their traffic through proxies, drives the apps on their screens and reads their profiles; an API and an
orchestrator (`apps/api`, `apps/orchestrator`, `packages`) schedule the work and charge for it. This project
models the parts whose correctness is not visible in one function, and proves what they promise. Everything
is a Dafny model of the code's behaviour; I/O is a parameter.

| module | models |
|---|---|
| `Socks5` | the SOCKS5 client of the gateway (RFC 1928, RFC 1929), fed with chunks of any size |
| `Limiter` | the semaphore on connections to one upstream: FIFO queue, timeouts, release closures |
| `Tunnel` | the retry loop of `openTunnel` and its slots |
| `Addresses`, `Text` | the two IPv6 decoders and the SOCKS address encoder, on text |
| `Gateway` | the proxy manager as a state machine, one step from one `await` to the next |
| `StickyRouting`, `TaskLease` | what every run of that machine keeps |
| `ProxyManager` | the manager as a class whose methods take those steps and keep what they must |
| `Ports` | port allocation for the phones' gateways |
| `Handlers` | request handlers that take the phone's mutex, then the manager's lease, beside everything else the manager does; the publish handler with its hold |
| `Publish`, `PublishFlow`, `ProfileStats` | a publishing run: decisions, driver, profile check |
| `UiDump`, `Entities` | the parsers of UI dumps and their entity decoders |
| `Mp3` | the frame walker that measures voice-overs |
| `Credits` | reserves, refunds and charges as interleaved database transactions |
| `Windows`, `Cron`, `FarmScheduler` | publish windows, cron expressions, scheduled runs |

Code that updates objects or loops over variables is a class or a method with a loop, proved against a
specification function (`Feed`, `Step`, `Walk`, `ProfileOf`, ...); the promises are lemmas about that
function over every run. Decisions, tables and texts are functions.

## Hypotheses

Stated in the lemmas, and each needed; the lemma in brackets is a run that fails without it.

- Routing: no mode change is in flight (`StickyRouting.ModeChangeInFlightIsStale`; if listing the phones throws
  inside `setMode`, the change stays in flight for good), and no configuration is removed while that phone's
  gateway is still starting (`StickyRouting.ClearDuringStartBreaksRouting`).
- Lease: the active phone is configured at the start (`TaskLease.ReapplyMovesProxyOffUnconfiguredPhone`); no
  switch to a phone without configuration (`TaskLease.SwitchToNewPhoneTakesTheProxy`); no forced switch away
  from the leased phone (`TaskLease.ForcedSwitchTakesTheProxy`); its configuration is not removed
  (`TaskLease.ClearTakesTheProxy`); no change to shared mode while no phone is active
  (`TaskLease.ModeChangeTakesTheProxy`); a re-application does not pick a phone whose configuration has been
  removed meanwhile (`TaskLease.StalePickGoesDirect`).
- Ports: no configuration is removed while its phone's gateway starts on a port that only the configuration
  shows to the search (`Ports.ClearDuringStartSharesPort`). A removal can lead to two gateways on one port if and
  only if it is of this kind (`Ports.ClearSharesPortIff`).

Two conventions of the model:

- Publishing: "tapped" means that a tap marked as Share came back without an error. A tap that reached the phone
  and whose call then failed counts as not made, as in the code; so does the unmarked tap on a confirmation
  that appears before Share.
- Scheduler: a tick is atomic, and the clock does not go back.

## Where the code falls short of its own words

Each is proved, with its exact condition and an input:

- A create answers "queue unavailable", and a cancel succeeds, also when giving the reserve back has failed: the
  failure is only logged. On these answers the reserve is back if and only if a release of the job went through
  (`Credits.AnswersMeanRefundIff`, `Credits.UnavailableWithoutRefund`).
- An active job can run without its reserve: without errors, exactly if somebody set it active again after it had
  stopped, or if the failure of its enqueue could not be noted (`Credits.ReserveIsBackIff`). Retries do so
  (`Credits.RetriedWithoutReserve`), but also a recompose, which does not look at the status
  (`Credits.RecomposedWithoutReserve`), and the pipeline's workers, which write their progress over a cancel
  (`Credits.RevivedWithoutReserve`). If the release failed, a restarted job still holds its reserve
  (`Credits.RetriedWithLostReserve`).
- The rule that the home shop must be reached from a home address looks at the country of the phone's proxy; but its
  hosts are on the list of hosts never to be proxied, which comes first, and so it decides nothing: the shop is
  reached directly, through a home proxy never (`StickyRouting.HomeRuleDecidesNothing`).
- The cron search calls itself standard, but for the values a field can take, a list is read as the union of its
  items if and only if it begins with a step to which the others add nothing, or holds plain numbers alone or
  numbers for all values beside a star, or nothing in it is a value of the field (`Cron.ListMeansUnionIff`):
  `1-5,10` matches nothing, and `*/5,7` drops the 7 (`Cron.RangeAndNumber`, `Cron.StepThenNumber`).
- With jitter, a match of a cron schedule can be run many times: after a run the next one is for the same match if
  and only if the run began before the match (`FarmScheduler.SameMatchAgainIff`). A schedule for nine o'clock with
  ten minutes of jitter runs twenty times for one nine o'clock (`FarmScheduler.TwentyRunsForOneMatch`).
- A cron schedule whose next match is over fourteen days off stays listed as active and never runs again: after
  a run, a toggle or a save, if and only if it has no next run within the horizon (`FarmScheduler.RunThenSilentIff`,
  `FarmScheduler.ToggledSilentIff`, `FarmScheduler.SavedSilentIff`). Nine o'clock on the first of the month runs
  once (`FarmScheduler.MonthlyIsDueOnce`).
- The gateway's IPv6 decoder takes a dotted quad for one hexadecimal group: `::ffff:1.2.3.4` becomes `::ffff:1`
  (`Addresses.DottedTailIsMisread`). It reads a legal spelling as the address it denotes, and agrees with the
  API's decoder, if and only if there is no quad, or only zeros from the compression on
  (`Addresses.GatewayReadsIff`, `Addresses.DecodersAgreeIff`).
- The profile reader's entity decoder inverts escaping only for texts without `&quot;` and `&#10;`
  (`Entities.ProfileDecodeInverts`, an equivalence).
- An attribute is read from an earlier attribute's value if that value ends like it (`UiDump.TagAttr` says what
  is read; `UiDump.TextCanHideClass`).
- A domain name longer than 255 bytes is not transmitted intact (`Addresses.DomainTargetReadsBack`, an
  equivalence).

## Model

| member | source | states |
|---|---|---|
| Socks5.ChunkingIndependent | apps/device-agent/src/proxy-forwarder.ts:584-652 | For every byte stream and every split, stage, messages written and outcome are those of the whole stream at once; on success the rest plus the undelivered chunks is what follows the handshake |
| Socks5.ChunkedVerdict | apps/device-agent/src/proxy-forwarder.ts:584-652 | The outcome and the messages of any split are positional functions of the bytes |
| Socks5.StreamVerdict | apps/device-agent/src/proxy-forwarder.ts:590-649 | The buffer loop computes the verdict read off by position, for all three address types and every error |
| Socks5.AcceptsExactlyHandshakes | apps/device-agent/src/proxy-forwarder.ts:593-647 | The client succeeds if and only if the stream starts with a well-formed handshake (authentication only with usable credentials), keeping exactly the rest |
| Socks5.AuthMessageReadsBack | apps/device-agent/src/proxy-forwarder.ts:606-615 | The RFC 1929 message parses back to the stored credentials |
| Socks5.GreetingReadsBack | apps/device-agent/src/proxy-forwarder.ts:649-649 | By section 3 of RFC 1928 the greeting offers exactly "no authentication" and "username/password" |
| Socks5.RequestReadsBack | apps/device-agent/src/proxy-forwarder.ts:586-586 | By section 4 of RFC 1928 the request reads as version 5, CONNECT, the target and port its address bytes decode to, and nothing behind them |
| Socks5.RequestForIpv4 | apps/device-agent/src/proxy-forwarder.ts:154-158 | For a dotted IPv4 target it reads as CONNECT to those octets and port |
| Socks5.RequestForIpv6 | apps/device-agent/src/proxy-forwarder.ts:154-159 | For an IPv6 target it reads as CONNECT to the address the spelling denotes if and only if the gateway can read the spelling |
| Socks5.RequestForName | apps/device-agent/src/proxy-forwarder.ts:160-161 | For a name it reads as CONNECT to that name if and only if the name has at most 255 bytes |
| Socks5.MessagesSayRight | apps/device-agent/src/proxy-forwarder.ts:584-652 | What is written: the greeting; then, as the server chose, the credentials and, once they are accepted, the CONNECT request, or the request at once; else nothing more |
| Socks5.Client.OnData | apps/device-agent/src/proxy-forwarder.ts:590-649 | One data event changes the handler's fields as the specification's step does |
| Socks5.Handshake | apps/device-agent/src/proxy-forwarder.ts:584-652 | Running the handler over chunks yields the verdict of the bytes and how many chunks were used; its messages, read back by the two standards, say the right things |
| Limiter.LimiterSafe | apps/device-agent/src/proxy-forwarder.ts:194-238 | In every run: active is the number of held slots, never above a positive maximum; a queue means the maximum is used; the queue is FIFO |
| Limiter.EachCallSettledOnce | apps/device-agent/src/proxy-forwarder.ts:208-237 | Each acquire is granted or rejected exactly once, and not at all while it waits |
| Limiter.ReleaseIsFinal | apps/device-agent/src/proxy-forwarder.ts:213-222 | A second release changes nothing, whatever happened in between |
| Limiter.StepKeepsInv | apps/device-agent/src/proxy-forwarder.ts:194-238 | Acquire, release and timer each keep count, cap, queue order and no overtaking |
| Limiter.ConnectionLimiter.Acquire | apps/device-agent/src/proxy-forwarder.ts:208-237 | Grants or queues the next call as specified |
| Limiter.ConnectionLimiter.Release | apps/device-agent/src/proxy-forwarder.ts:213-222 | Frees the slot once and serves the oldest waiter |
| Limiter.ConnectionLimiter.Expire | apps/device-agent/src/proxy-forwarder.ts:230-233 | A timer removes only its own waiter |
| Tunnel.OpenTunnel | apps/device-agent/src/proxy-forwarder.ts:466-499 | Every attempt but the last failed transiently with its pause ending inside the window; at most 12 attempts in 25 s and 4 in 3 s; the protocol is forgotten exactly after a final protocol error |
| Tunnel.BoundsAreReached | apps/device-agent/src/proxy-forwarder.ts:482-483 | Both bounds are attained |
| Tunnel.PausesThatFit | apps/device-agent/src/proxy-forwarder.ts:482-483 | The pauses of exactly 11 retries fit into 25 s, of 3 into 3 s |
| Tunnel.ClockCoversPauses | apps/device-agent/src/proxy-forwarder.ts:471-488 | By attempt n the clock has advanced by all earlier pauses |
| Tunnel.FinalFailures | apps/device-agent/src/proxy-forwarder.ts:55-61 | Which failures are final: wrong credentials, protocol errors, a refused target, a full queue, and rejections other than 403, 429, 500 and 502 to 504 |
| Tunnel.SlotsConserved | apps/device-agent/src/proxy-forwarder.ts:466-499 | Active slots are the calls at work plus their open sockets on every path; none leaks |
| Tunnel.QueuedOnlyWhenFull | apps/device-agent/src/proxy-forwarder.ts:467-467 | A call waits only while the cap is used up |
| Addresses.GatewayReadsIff | apps/device-agent/src/proxy-forwarder.ts:143-152 | For every legal spelling (groups, any `::`, dotted quad, zone): encoded as the address it denotes if and only if there is no quad, or the quad and all groups after the compression are zero |
| Addresses.GatewayReads | apps/device-agent/src/proxy-forwarder.ts:143-152 | What it encodes in every case: a quad is one group, the decimal digits of its first octet read as hexadecimal |
| Addresses.DottedTailIsMisread | apps/device-agent/src/proxy-forwarder.ts:143-152 | `::ffff:1.2.3.4` is `::ffff:1` for the gateway and `::ffff:102:304` for the API |
| Addresses.ApiReads | apps/api/src/routes/account-farm.routes.ts:374-412 | The other decoder reads every legal spelling, quads and zones included and in any letter case, as the address it denotes |
| Addresses.DecodersAgreeIff | apps/api/src/routes/account-farm.routes.ts:396-412 | The two decoders agree on a spelling if and only if the gateway can read it |
| Addresses.SameAddress | apps/api/src/routes/account-farm.routes.ts:396-412 | Two spellings are one address for the API if and only if they denote the same groups; of two readable ones, for the gateway too |
| Addresses.Ipv4TargetReadsBack | apps/device-agent/src/proxy-forwarder.ts:154-158 | A dotted IPv4 target decodes back by section 5 of RFC 1928 |
| Addresses.Ipv6TargetReadsBack | apps/device-agent/src/proxy-forwarder.ts:154-159 | An IPv6 target arrives as the address it spells, with its port, if and only if the gateway can read the spelling |
| Addresses.DomainTargetReadsBack | apps/device-agent/src/proxy-forwarder.ts:160-161 | A name decodes back if and only if it has at most 255 bytes |
| StickyRouting.RoutingIsSticky | apps/device-agent/src/proxy-forwarder.ts:1019-1049 | In every reachable state each open connection has exactly the route that `routeFor` gives now |
| StickyRouting.OnePhoneUsesTheProxy | apps/device-agent/src/proxy-manager.ts:345-377 | In shared mode only the active phone has proxied connections, through its own proxy |
| StickyRouting.OpenConnectionsObeyRules | apps/device-agent/src/proxy-manager.ts:345-377 | In every run, in terms of phones, hosts and proxies: no open connection is to a blackholed host; one to a listed or home host is direct; any other goes through its phone's own proxy if the phone may use it, and else is direct only where the policy lets it |
| StickyRouting.HomeRuleDecidesNothing | apps/device-agent/src/proxy-manager.ts:359-365 | The country of a phone's proxy never changes a decision: home hosts are always direct |
| StickyRouting.SwitchCutsOnlyTheTwoPhones | apps/device-agent/src/proxy-manager.ts:499-506 | A switch cuts the old and the new phone's connections and no others |
| StickyRouting.StepKeepsInv | apps/device-agent/src/proxy-manager.ts:623-777 | Every piece of every operation keeps decisions consistent |
| StickyRouting.ClearDuringStartBreaksRouting | apps/device-agent/src/proxy-manager.ts:730-742 | Removing a configuration while its gateway starts leads to a wrong route |
| StickyRouting.ModeChangeInFlightIsStale | apps/device-agent/src/proxy-manager.ts:765-773 | During the await of a mode change connections follow the old mode |
| TaskLease.LeaseAccounting | apps/device-agent/src/proxy-manager.ts:812-849 | In every run the count is the number of handles not given back, all of the leased phone; nobody sleeps on a free lease or on their own |
| TaskLease.LastReleaseWakesAll | apps/device-agent/src/proxy-manager.ts:836-839 | The last release frees the lease and wakes every sleeper |
| TaskLease.SecondReleaseIsHarmless | apps/device-agent/src/proxy-manager.ts:831-835 | Releasing again changes nothing, however much has happened |
| TaskLease.FailedWiringHoldsNothing | apps/device-agent/src/proxy-manager.ts:841-847 | When wiring fails, whatever has happened since the handle was taken, exactly this handle leaves the count; the last one frees the lease and wakes every sleeper |
| TaskLease.FailedAcquireHoldsNothing | apps/device-agent/src/proxy-manager.ts:815-847 | With nothing in between, a failed acquire leaves the lease exactly as it was |
| TaskLease.LeasedPhoneStaysActive | apps/device-agent/src/proxy-manager.ts:787-849 | From the return of an acquire to the release the leased phone is active and its traffic goes through its own proxy |
| TaskLease.OnePhoneAtATime | apps/device-agent/src/proxy-manager.ts:812-849 | All handles not given back are of one phone |
| TaskLease.SwitchToNewPhoneTakesTheProxy | apps/device-agent/src/proxy-manager.ts:791-801 | The lease check before an await does not protect the leased phone |
| TaskLease.ReapplyMovesProxyOffUnconfiguredPhone | apps/device-agent/src/proxy-manager.ts:754-757 | An active phone without configuration loses the proxy to a re-application |
| TaskLease.ForcedSwitchTakesTheProxy | apps/device-agent/src/proxy-manager.ts:791-801 | A forced switch takes the proxy from the leased phone |
| TaskLease.ClearTakesTheProxy | apps/device-agent/src/proxy-manager.ts:730-742 | So does removing its configuration |
| TaskLease.ModeChangeTakesTheProxy | apps/device-agent/src/proxy-manager.ts:765-773 | A change to shared mode that found no active phone picks one after its await, although another has the lease by then |
| TaskLease.StalePickGoesDirect | apps/device-agent/src/proxy-manager.ts:745-757 | A re-application can make a phone active whose configuration is gone; a task that then leases it goes out directly |
| ProxyManager.Manager.Dispatch | apps/device-agent/src/proxy-manager.ts:623-849 | After any event the lease is counted right, and unless a configuration is removed during its start or a mode change is in flight every open connection has the route of the current decision |
| ProxyManager.Manager.OnConnect | apps/device-agent/src/proxy-forwarder.ts:1019-1049 | Accepted if and only if the gateway listens, the host is not blackholed, and host, phone or policy allow it; the new connection and all open ones obey the routing rules |
| ProxyManager.Manager.AssignProxy | apps/device-agent/src/proxy-manager.ts:623-650 | The phone keeps no old connection and has the new proxy; it becomes active if and only if it was, or the mode is shared, it is asked for, and no other phone has the lease |
| ProxyManager.Manager.ClearProxyOf | apps/device-agent/src/proxy-manager.ts:730-742 | Configuration, gateway, connections and proxy of the phone are gone; decisions stay right unless its gateway was starting |
| ProxyManager.Manager.SwitchActiveDevice | apps/device-agent/src/proxy-manager.ts:787-801 | A permitted switch makes a configured phone active at once, and hands the shared proxy to another; one that the lease forbids changes nothing; decisions and counts stay right |
| ProxyManager.Manager.AssignAll | apps/device-agent/src/proxy-manager.ts:672-703 | Each phone ends with the proxy of its last entry; in shared mode, while nobody holds the lease, the first phone becomes active if and only if the active one is not in the batch; decisions stay right |
| ProxyManager.Manager.FinishModeChange | apps/device-agent/src/proxy-manager.ts:765-777 | The change ends with the picked phone active and no connection of the old mode left |
| ProxyManager.Manager.AcquireTaskLease | apps/device-agent/src/proxy-manager.ts:812-849 | Without a shared proxy nothing happens; else the caller has the next handle, or sleeps while another phone has the lease |
| ProxyManager.Manager.TryLease | apps/device-agent/src/proxy-manager.ts:815-843 | While another phone holds the lease nothing is taken and the caller sleeps on the list of callbacks; in every case all outstanding handles are of the leased phone and counted |
| ProxyManager.Manager.GiveBack | apps/device-agent/src/proxy-manager.ts:831-840 | Exactly one handle less is outstanding; the count says how many are left, and with the last the lease is free and nobody sleeps |
| Ports.AllocatePort | apps/device-agent/src/proxy-manager.ts:414-421 | The least free port from the base, at most the base plus the number of ports in use |
| Ports.PortBook.EnsureListener | apps/device-agent/src/proxy-manager.ts:384-412 | The part before the await claims a port that nobody else has |
| Ports.PortBook.ListenerStarted | apps/device-agent/src/proxy-manager.ts:402-407 | Finishing a start keeps all ports distinct |
| Ports.PortBook.ListenerFailed | apps/device-agent/src/proxy-manager.ts:402-409 | A start that fails frees its reservation, keeps the stored port, and keeps all ports distinct |
| Ports.PortBook.ClearProxy | apps/device-agent/src/proxy-manager.ts:730-742 | After a removal, further starts can bring two gateways to one port if and only if its phone is starting on a port that only the configuration shows; otherwise ports stay distinct |
| Ports.PortBook.EnsureAll | apps/device-agent/src/proxy-manager.ts:384-421 | Any number of starts begun before one finishes get pairwise distinct ports |
| Ports.PortsStayDistinct | apps/device-agent/src/proxy-manager.ts:384-421 | Over any run of starts, their ends and failures, configurations and removals that hide no port, starting and open gateways are on pairwise different ports |
| Ports.ClearSharesPortIff | apps/device-agent/src/proxy-manager.ts:730-737 | Some orderly run after a removal leads to two gateways on one port if and only if the phone is just starting on such a port |
| Ports.ClearDuringStartSharesPort | apps/device-agent/src/proxy-manager.ts:390-395 | Configured, started, removed while starting: the next phone is given the same port |
| Ports.DistinctPorts | apps/device-agent/src/proxy-manager.ts:384-421 | Distinct ownership means different ports of any two gateways |
| Ports.BegunKeepsDistinct | apps/device-agent/src/proxy-manager.ts:390-395 | Beginning a start keeps ports distinct |
| Ports.FinishedKeepsDistinct | apps/device-agent/src/proxy-manager.ts:402-409 | So does finishing one |
| Handlers.OneTaskPerPhone | apps/device-agent/src/index.ts:367-382 | Whatever else the manager does: at most one task drives a phone, and all tasks with a handle are of the leased phone |
| Handlers.WorkersHaveTheProxy | apps/device-agent/src/index.ts:367-382 | As long as nobody takes the proxy away by hand, a task at work on the shared proxy has its phone active and its traffic on that phone's own proxy |
| Handlers.GateRuns | apps/device-agent/src/proxy-manager.ts:812-849 | Under any interleaving of tasks the manager runs exactly as its own state machine does |
| Handlers.SomeTaskCanMove | apps/device-agent/src/index.ts:370-371 | Mutex before lease: while a task is unfinished some task can take its next step without a timeout; sleepers of the manager's waiting loop are woken when the tasks of the leased phone are through |
| Handlers.FarmDrains | apps/device-agent/src/index.ts:451-489 | Once requests stop, n tasks take at most 7n(n + 1) + n steps, and one more for each timer that wakes a sleeper in vain; when none can go further all are done, the lease is free, every handle given back, and nobody sleeps |
| Handlers.HandlePublish | apps/device-agent/src/index.ts:451-489 | Mutex and lease are given back exactly once; the lease by the 30 s timer exactly when a Share tap came back; the answer is retryable only if none has |
| Publish.PublishToDevice | apps/device-agent/src/publish.ts:72-350 | For all screens, clocks and failures: retryable implies no completed Share tap; ok if and only if posted is yes, and then the profile showed the post, or a screen confirmed it (or the main window was in front) while online with no upload left stuck; a checked run that is not ok has seen none of this; at most three Share taps, each right when made; the gallery file stays exactly while the outcome is open |
| Publish.CarefulAlways | apps/device-agent/src/publish.ts:151-232 | Each Share tap is on the post button of the screen just read, after a non-empty caption was typed; a repeated one only after two successive compose screens |
| Publish.Run.ComposeStep | apps/device-agent/src/publish.ts:157-208 | One turn of the compose loop keeps "nothing shared" or shares once; on a compose screen with nothing in the way, a turn that goes on has typed the missing caption, or tapped Share |
| Publish.Run.ComposeRun | apps/device-agent/src/publish.ts:151-208 | The compose loop ends, with one completed Share tap or with none and an answer, which is retryable only after eight unrecognised screens in a row or three minutes |
| Publish.Run.ConfirmTap | apps/device-agent/src/publish.ts:210-232 | At most two more taps, and never a retryable answer; it gives up only after three taps with the compose screen seen twice more, and goes on only when the last look was not at the compose screen |
| Publish.Run.UploadRun | apps/device-agent/src/publish.ts:234-279 | The wait ends; it reports the app's confirmation if and only if a screen or window since the last tap said so, says "offline" if and only if a screen did, and without a confirmation has waited a minute or more |
| Publish.Run.VerifyRun | apps/device-agent/src/publish.ts:281-305 | The profile is verified if and only if a reading without an upload shows a new post; otherwise three such readings were made, or an upload is stuck |
| Publish.Run.CheckPost | apps/device-agent/src/publish.ts:281-309 | Confirmed if and only if the profile showed the new post, or the app gave its word, was never seen offline, and the profile as read last shows no unfinished upload |
| Publish.Run.Execute | apps/device-agent/src/publish.ts:96-350 | The classification of results, errors caught included |
| Publish.OnlineMeans | apps/device-agent/src/publish.ts:246-246 | Online means that no screen read since the last tap said offline |
| Publish.AppHeardMeans | apps/device-agent/src/publish.ts:260-277 | The app's confirmation is a concrete screen or window |
| Publish.LeftUploadingMeans | apps/device-agent/src/publish.ts:303-309 | No unfinished upload: the last reading of the profile, if one succeeded, shows none |
| PublishFlow.DecisionIsSafe | apps/device-agent/src/publish-flow.ts:112-171 | On every screen: Share only before it was tapped, on the post button, with the caption done; errors never retryable; Next at most six times; taps only on visible enabled elements |
| PublishFlow.DialogsComeFirst | apps/device-agent/src/publish-flow.ts:112-127 | On a screen with a dialog, whatever else is on it: the permission is allowed, the draft kept |
| PublishFlow.BeforeComposeMeans | apps/device-agent/src/publish-flow.ts:128-150 | Before Share, by the labels on the screen, both ways: when the run gives up, chooses the target, confirms |
| PublishFlow.ComposeMeans | apps/device-agent/src/publish-flow.ts:150-171 | On the compose screen, both ways: caption typed if missing, else Share tapped; elsewhere Next at most six times, then tips closed |
| PublishFlow.AfterShareMeans | apps/device-agent/src/publish-flow.ts:220-233 | After Share, both ways: failed, asked to confirm, still uploading, confirmed, a tip to close |
| PublishFlow.SuccessIff | apps/device-agent/src/publish-flow.ts:112-233 | The app's confirmation is taken exactly from screens without dialog, failure, question or progress that say "posted" or show the home tab and no text field, and only after Share |
| PublishFlow.OneLineOfText | apps/device-agent/src/publish-flow.ts:220-233 | What one line of text on the screen means after Share |
| PublishFlow.PostButtonIsCandidate | apps/device-agent/src/publish-flow.ts:83-99 | The button found is a visible, enabled, unexcluded Share/Post label |
| PublishFlow.PostButtonIsLowest | apps/device-agent/src/publish-flow.ts:95-99 | The button found is the first of the labels that begin lowest; TikTok's begins at least as far from the top as from the lowest bottom edge |
| PublishFlow.PostButtonIff | apps/device-agent/src/publish-flow.ts:83-99 | One is found if and only if there is such a label, for TikTok in the lower half |
| PublishFlow.SamePostsAreNoNewPost | apps/device-agent/src/publish-flow.ts:192-201 | Same posts, views that never dropped, no upload in the grid: never taken for a new post |
| PublishFlow.UploadingTileLooksNew | apps/device-agent/src/publish-flow.ts:200-200 | With an uploading tile the same posts can look like a new one |
| PublishFlow.AddedPostIsSeenIff | apps/device-agent/src/publish-flow.ts:192-201 | An added post is recognised if and only if both post counts are known, the grid was not full, or the new post has no views yet or clearly fewer than the newest before |
| ProfileStats.ParseProfileDump | apps/device-agent/src/profile-stats.ts:130-178 | The pass over the counted nodes computes the specified grid |
| ProfileStats.NoUploadIffAllViewsKnown | apps/device-agent/src/profile-stats.ts:145-178 | No upload badge if and only if every tile has a view count |
| ProfileStats.GridIsTheTiles | apps/device-agent/src/profile-stats.ts:154-178 | The tiles are distinct nodes in reading order, exactly those of the counted nodes, each with its own views |
| ProfileStats.CollectTiles | apps/device-agent/src/profile-stats.ts:154-165 | The tile map holds each tile once, first number kept, uploading ones without views |
| ProfileStats.FindTile | apps/device-agent/src/profile-stats.ts:156-158 | The nearest enclosing tile, or the node itself |
| ProfileStats.TileIsAThird | apps/device-agent/src/profile-stats.ts:156-157 | A tile is as wide as a third of the screen within three tenths of it, and higher than six tenths |
| ProfileStats.CountedMeans | apps/device-agent/src/profile-stats.ts:151-153 | Counted are the numbers and percentages below the header and above the bottom bar |
| ProfileStats.OrderedByRows | apps/device-agent/src/profile-stats.ts:166-167 | Reading order is by rows of forty pixels, then from left to right |
| ProfileStats.PinnedIff | apps/device-agent/src/profile-stats.ts:175-175 | A tile is pinned if and only if some path of child links leads from a pinned node up to it |
| UiDump.ParseInvertsPrint | apps/device-agent/src/ui-automation.ts:39-64 | Parsing a printed forest gives the preorder list with the true parents and an empty stack |
| UiDump.ParseUi | apps/device-agent/src/ui-automation.ts:39-64 | The loop with its stack computes the specified parse |
| UiDump.TagAttr | apps/device-agent/src/ui-automation.ts:30-36 | What is read for every attribute of every tag, the misreading included |
| UiDump.AttributeReadsBack | apps/device-agent/src/ui-automation.ts:30-36 | An attribute reads back as its value unless an earlier value ends like it |
| UiDump.FieldsReadBack | apps/device-agent/src/ui-automation.ts:45-58 | Every field of an element is the attribute the dump has for it, unless an earlier value ends like it |
| UiDump.TextCanHideClass | apps/device-agent/src/ui-automation.ts:30-36 | A text ending like an attribute's name hides that attribute |
| UiDump.SuchATextExists | apps/device-agent/src/ui-automation.ts:30-36 | Such a text exists for every attribute |
| UiDump.ParseIsAcyclic | apps/device-agent/src/ui-automation.ts:39-64 | Parents precede their children on every input |
| UiDump.ClickTarget | apps/device-agent/src/ui-automation.ts:96-100 | The nearest clickable ancestor or self, else the element itself |
| UiDump.ParseUiTree | apps/device-agent/src/profile-stats.ts:65-88 | The second parser has the same parents, and its child lists are exactly the nodes with that parent |
| Entities.DecodeInvertsEscape | apps/device-agent/src/ui-automation.ts:30-36 | The ordered replacements undo escaping on every string (XML 1.0, section 4.6) |
| Entities.EscapeIsSafe | apps/device-agent/src/ui-automation.ts:30-36 | Escaped text holds no quote, bracket or newline |
| Entities.ProfileDecodeInverts | apps/device-agent/src/profile-stats.ts:60-63 | The other decoder undoes its escaping if and only if the text has no `&quot;` and no `&#10;` |
| Entities.ProfileDecodeCounterexample | apps/device-agent/src/profile-stats.ts:60-63 | A text that it gets wrong |
| Mp3.FramesAreLong | packages/ai/src/mp3.ts:41-49 | Every frame has at least 24 bytes, so the walk advances |
| Mp3.RatesFollowSteps | packages/ai/src/mp3.ts:7-15 | The bit rates follow the steps of the standard: even steps, or four (or two) to the octave |
| Mp3.SampleRatesHalve | packages/ai/src/mp3.ts:16-20 | MPEG2 halves the sample rates, MPEG2.5 halves them again |
| Mp3.FieldsReadBack | packages/ai/src/mp3.ts:33-40 | Every legal header, packed into its bytes, is read back with all its fields |
| Mp3.LengthIsExact | packages/ai/src/mp3.ts:41-49 | The computed length is the only one that a frame of this header can have: as many slots as its playing time needs at its bit rate, and the padding |
| Mp3.SyncsafeReadsBack | packages/ai/src/mp3.ts:25-27 | The size of a tag is read back from four bytes of seven bits, whatever the eighth bits are |
| Mp3.DurationSec | packages/ai/src/mp3.ts:22-56 | The loop ends on all inputs and sums the frames that the walk finds |
| Mp3.WellFormedIsExact | packages/ai/src/mp3.ts:22-56 | Optional tag, frames of the lengths their headers demand, filler between: exactly the frames are found |
| Mp3.WellFormedDuration | packages/ai/src/mp3.ts:22-56 | The duration of such a stream is its playing time, to within half a hundredth of a second |
| Mp3.RoundedIsNearest | packages/ai/src/mp3.ts:55-55 | The result is a multiple of a hundredth, at most half a hundredth off |
| Mp3.TotalIsPlayingTime | packages/ai/src/mp3.ts:51-51 | The sum over found frames is the playing time of the stream |
| Mp3.TagIsSkipped | packages/ai/src/mp3.ts:24-28 | A tag with any body is skipped whole |
| Mp3.WalkFindsUsable | packages/ai/src/mp3.ts:34-44 | Only headers inside the tables are counted |
| Credits.BooksBalance | apps/api/src/lib/video-job.ts:80-208 | Under every interleaving the balance is the initial one plus the ledger, and the initial one less spending and unreturned reserves; every entry shows the balance it left; reserves never overdraw |
| Credits.RequestsAreServed | apps/api/src/lib/video-job.ts:80-256 | In every run each thread is at a statement of the request that it came with, with its numbers |
| Credits.AnswersMatchRequests | apps/api/src/lib/video-job.ts:80-256 | "Created" is answered to a create, for a job that reserved the cost asked for; "insufficient" names that cost; a finished charge has entered its credits, once negated, for its job |
| Credits.InsufficientMeansLow | apps/api/src/lib/video-job.ts:86-89 | "Insufficient" is answered only if in some state of the run, when this request looked, the balance was below its cost |
| Credits.RefundedAtMostOnce | apps/api/src/lib/video-job.ts:178-208 | At most one refund per job, exactly its reserve |
| Credits.ReserveIsBackIff | apps/api/src/lib/video-job.ts:151-256 | When all requests are answered without errors, a job's reserve is back if and only if the job was once failed, cancelled or completed, or its failed enqueue could not be noted; for an active job, if and only if a retry, a recompose or a worker set it active after it had stopped, or it was not noted |
| Credits.UnmarkedWithoutReserve | apps/api/src/lib/video-job.ts:153-168 | Without any restart: marking fails, the refund works, and the job stays active without a reserve |
| Credits.RevivedWithoutReserve | apps/orchestrator/src/workers/gpt-script.worker.ts:597-597 | Created, cancelled, repaid; a worker writes its progress, and the job is active without a reserve |
| Credits.RecomposedWithoutReserve | apps/api/src/routes/admin.routes.ts:776-824 | Created, completed, settled; an administrator recomposes, and the job is active without a reserve |
| Credits.AnswersMeanRefundIff | apps/api/src/lib/video-job.ts:151-168 | After "queue unavailable" and after a successful cancel the reserve is back if and only if some release of the job went through; with no other request for it, if and only if this one did not fail |
| Credits.UnavailableWithoutRefund | apps/api/src/lib/video-job.ts:163-168 | The release fails, is logged, the answer is "queue unavailable", and the credits are gone |
| Credits.RetriedWithoutReserve | apps/api/src/routes/admin.routes.ts:534-568 | Created, cancelled, retried: the job is active and its reserve is back with the tenant |
| Credits.RetriedWithLostReserve | apps/api/src/lib/video-job.ts:249-256 | If the release of that cancel fails, the cancel still succeeds and the retried job's reserve is still taken |
| Credits.StepKeepsInv | apps/api/src/lib/video-job.ts:80-256 | Every statement of every request, and every error, keeps locks, books and coverage |
| Credits.Database.CreateVideoJob | apps/api/src/lib/video-job.ts:80-171 | The reserve is refused if and only if the balance is below the cost, and taken if and only if it covers it and the tenant's row is free; a statement of a create either leaves all money alone or adds the job together with the entry of its paid reserve; locks, books and coverage are kept |
| Credits.Database.ReleaseJobReserve | apps/api/src/lib/video-job.ts:178-208 | Once it is answered the reserve is back, with at most one refund ever, and every entry shows the balance it left |
| Credits.Database.FindRefund | apps/api/src/lib/video-job.ts:187-191 | The marker is found if and only if there is one |
| Credits.Database.CancelJobAndRelease | apps/api/src/lib/video-job.ts:241-248 | The claim succeeds if and only if the row is free and the job active; it is refused, changing no job, if and only if the job is not active |
| Credits.Database.ChangeStatus | apps/api/src/routes/admin.routes.ts:847-878 | Cancelling, marking and ending touch no reserve, and every job that has ended stays covered |
| Credits.Database.RestartJob | apps/orchestrator/src/pipeline/coordinator.ts:23-40 | Whoever sets a job active again takes no reserve for it, and no job forgets that it has ended |
| Credits.Database.ChargeCredits | apps/orchestrator/src/lib/credits.ts:21-46 | Balance and ledger change together by the amount asked for, and only when it is answered; reserves are untouched |
| Credits.Database.Abort | apps/api/src/lib/video-job.ts:80-256 | An error moves no money, ends the request, and frees every lock it held |
| Credits.Database.Serve | apps/api/src/lib/video-job.ts:80-256 | After any event the balance is the initial one plus the ledger, and the initial one less spending and unreturned reserves; locks and coverage are kept |
| Windows.AcceptedNeverCollide | apps/api/src/routes/autopilot.routes.ts:103-118 | Accepted windows: any two occurrences on the endless timeline stay in order and at least two minutes apart for every jitter |
| Windows.RefusedCanCollide | apps/api/src/routes/autopilot.routes.ts:110-112 | Refused ones have two occurrences that some jitter brings closer |
| Windows.GapsFillTheDay | apps/api/src/routes/autopilot.routes.ts:108-108 | The cyclic gaps add up to 1440 minutes |
| Windows.PrintedWindowsReadBack | apps/api/src/routes/autopilot.routes.ts:97-105 | The printed times are valid and parse back to the same minutes |
| Windows.CheckIsIdempotent | apps/api/src/routes/autopilot.routes.ts:103-118 | Checking the result again changes nothing |
| Windows.OnlyTheSetMatters | apps/api/src/routes/autopilot.routes.ts:104-104 | Order and repetition of the times do not matter |
| Windows.WarnedIff | apps/api/src/routes/autopilot.routes.ts:108-115 | A warning is given if and only if the windows are accepted and two are less than three hours apart; the gap it names is the smallest |
| Windows.TimesAre | apps/api/src/routes/autopilot.routes.ts:97-105 | The texts taken as times are exactly hours and minutes of a day, the hour with or without its zero, and each is read as what it says |
| Cron.FieldMeansItsSet | apps/api/src/lib/farm-scheduler.ts:60-76 | Each supported form of a field, as text, matches exactly the values it stands for |
| Cron.ListMeansUnionIff | apps/api/src/lib/farm-scheduler.ts:60-76 | Over the values of a field, a list of two or more items (numbers, ranges, steps, stars) matches exactly the union of its items if and only if it begins with a step to which the others add nothing, or holds only numbers, or numbers for all values beside a star, or nothing that is a value of the field |
| Cron.ListMeans | apps/api/src/lib/farm-scheduler.ts:60-76 | What every such list matches |
| Cron.BrokenListNeverRuns | apps/api/src/lib/farm-scheduler.ts:69-75 | A list with a range anywhere, or a step behind the front, and no step in front: the expression matches never |
| Cron.RangeAndNumber | apps/api/src/lib/farm-scheduler.ts:69-75 | `1-5,10` and `10,1-5` match nothing |
| Cron.StepThenNumber | apps/api/src/lib/farm-scheduler.ts:62-67 | `*/5,7` matches the multiples of five alone |
| Cron.UnusualItems | apps/api/src/lib/farm-scheduler.ts:73-74 | In a list a missing number counts as zero, and letters match nothing |
| Cron.SignedNumbers | apps/api/src/lib/farm-scheduler.ts:69-76 | `-5` is every value up to five, `+5` is five |
| Cron.NextCronIsLeast | apps/api/src/lib/farm-scheduler.ts:51-95 | The least match after the date, and none only if the horizon has none |
| Cron.NextCronIsNextHit | apps/api/src/lib/farm-scheduler.ts:51-95 | With fields given as sets: the least minute in the horizon whose minute, hour, day, month and weekday are each in the set of the field in that place, and none if and only if there is none |
| Cron.WeeklyRuns | apps/api/src/lib/farm-scheduler.ts:51-95 | "0 9 * * 1", searched from a Tuesday in June: the Monday after at nine |
| Cron.YearlyRuns | apps/api/src/lib/farm-scheduler.ts:51-95 | "0 0 1 1 *": found from Christmas Day, and from the second of January not within the horizon |
| Cron.NextCronDate | apps/api/src/lib/farm-scheduler.ts:51-95 | The minute loop computes it, and so the next such minute for fields given as sets |
| FarmScheduler.NextRunIsLater | apps/api/src/lib/farm-scheduler.ts:100-131 | A next run is later than now; cron matches are kept up to the jitter |
| FarmScheduler.IntervalRunsNext | apps/api/src/lib/farm-scheduler.ts:113-128 | An interval's next run is its minutes after now, give or take its jitter; thirty seconds from now if that is past |
| FarmScheduler.JitterIsSpread | apps/api/src/lib/farm-scheduler.ts:121-123 | Every shift of whole milliseconds from minus the jitter up to the jitter is taken by some draw |
| FarmScheduler.IntervalIsSpread | apps/api/src/lib/farm-scheduler.ts:113-128 | Every time within the jitter of the interval's end that is still to come is taken by some draw |
| FarmScheduler.RunsKeepTheirDistance | apps/api/src/lib/farm-scheduler.ts:161-220 | Over any ticks, toggles, saves and deletions: no run before it is due, a single run at most once, interval runs at least the interval less the jitter apart |
| FarmScheduler.StepKeepsInv | apps/api/src/lib/farm-scheduler.ts:161-462 | Every operation on the list keeps next runs behind all earlier ones |
| FarmScheduler.SameMatchAgainIff | apps/api/src/lib/farm-scheduler.ts:100-131 | After any history of the list: the run after a cron run is for the same match if and only if this run began before the match |
| FarmScheduler.MatchTwiceOnlyIfEarly | apps/api/src/lib/farm-scheduler.ts:189-215 | Over any run, one schedule runs a match twice only if the earlier run began before it; without jitter each match is run at most once |
| FarmScheduler.TwentyRunsForOneMatch | apps/api/src/lib/farm-scheduler.ts:120-128 | "0 9 * * *" with ten minutes of jitter, ticked every half-minute: twenty runs for one nine o'clock |
| FarmScheduler.SilentIff | apps/api/src/lib/farm-scheduler.ts:189-215 | No run of ticks ever starts an active schedule if and only if it has no next run |
| FarmScheduler.RunThenSilentIff | apps/api/src/lib/farm-scheduler.ts:189-215 | A schedule that is not single stays active after a run; it is never started again if and only if it has no next run from now, for cron within fourteen days |
| FarmScheduler.ToggledSilentIff | apps/api/src/lib/farm-scheduler.ts:446-462 | The same right after it is switched on |
| FarmScheduler.MonthlyIsDueOnce | apps/api/src/lib/farm-scheduler.ts:189-215 | "0 9 1 * *", saved on the first: due at nine, run once, silent for good |
| FarmScheduler.SavedSilentIff | apps/api/src/routes/account-farm.routes.ts:2624-2648 | An active schedule, as the route parses and saves it, is never started if and only if it is a cron schedule without an expression or match in the horizon, or a single run without a time or already past |
| FarmScheduler.FarmSchedulerService.Tick | apps/api/src/lib/farm-scheduler.ts:189-215 | Every due schedule is started, none before its due time or too soon after its last run; a single one is then switched off, another planned for later, and the rest stay as they were |
| FarmScheduler.FarmSchedulerService.ToggleSchedule | apps/api/src/lib/farm-scheduler.ts:446-462 | The schedule of that name, if any, is switched; it then has no next run if and only if it is off or there is none |
| FarmScheduler.FarmSchedulerService.SaveSchedule | apps/api/src/lib/farm-scheduler.ts:386-432 | The record is listed under its name, the others stay, and it has no next run if and only if it is inactive or there is none |

## Left out

- ADB, sockets, TLS, Redis, Prisma, BullMQ and the database engine: chunks, replies, lists and statements stand for them.
- `httpConnect` (apps/device-agent/src/proxy-forwarder.ts:556-578): its header limit and terminator search depend on how the stream is cut.
- Plain HTTP requests through the gateway (apps/device-agent/src/proxy-forwarder.ts:1127-1138): slot conservation is about `openTunnel` only.
- Publish.PublishToDevice: a tap that reached the phone although its call failed counts as not made, as in the code; swipes, keyboard handling, debug snapshots and the choice of share activity are not modelled.
- StickyRouting.OpenConnectionsObeyRules: the host lists are three bits of a target; matching names against them is not modelled.
- PublishFlow.DecisionIsSafe: which texts carry which label is abstract; the vocabularies are regular expressions over natural language.
- ProfileStats.ParseProfileDump: follower and post counts next to header labels, number parsing, and opening the profile are inputs; widths are compared exactly instead of in floating point.
- UiDump.ParseUi: the `bounds` attribute is not parsed.
- Addresses.DecodersAgreeIff: a zone name that contains a colon is outside `Spelling`; texts that are no legal address are not classified.
- Mp3.DurationSec: durations are exact; rounding is applied once, without floating point.
- Mp3.WellFormedIsExact: a stream without a tag must not begin with the bytes of one.
- Cron.FieldMeansItsSet: the calendar is a function from minute to fields, so time zones and daylight saving are not modelled; signs in lists and ranges, fractions and exponents in cron numbers are not either. Day of month and day of week are combined with "and", as in the code.
- FarmScheduler.RunsKeepTheirDistance: a tick is atomic; a toggle that overlaps a tick's read and write of the list can be lost in the original. What a run does is not modelled.
- Credits.BooksBalance: one tenant; the assets that a recompose asks for are one bit, and the status of a job's video, at which the coordinator looks too, is not modelled; shared locks that foreign keys take, and so deadlocks between a charge and a release, are not modelled, an aborted transaction is. The database's check that credits are not negative appears only as such an abort.
- Ports.PortsStayDistinct: the fallback to a random port when the chosen one is taken by another program, and the upper end of the port range.
- Limiter.LimiterSafe: timeouts are events that may fire at any time; how long they take is not modelled.
- Persistence of the proxy manager's state, IP checks, IP rotation, upstream pruning and transparent redirects.
- Language models, speech, mail, storage, authentication, the web interface and record-keeping routes: they would add only easy members.
