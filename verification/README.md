# Proofs about WebTransport Echo

A Dafny model of the parts of the public WebTransport echo server whose behaviour is
hard to see from one body, with proofs that hold for every input, every run and every
interleaving. `dafny verify dfyconfig.toml` checks all of it.

## What is modelled

**Budgets and sessions** (`main.go`, `legacy/main.go`, `rust/src/main.rs`).
`Ledger` is the budget every echo loop shares: pure operations, and the class that
mutates. `Window` proves what the lazily rolled 24-hour window guarantees over whole
runs. `RustTwin` is the Rust server's own budget and its simulation by the Go one.
`EchoMachine` is a process as a transition system: any number of sessions, watchers and
loops, one action per atomic step, a charge being two of them. `main.go` is the machine
without probe sessions; `legacy/main.go` mixes the two caps on one map; `rust/src/main.rs`
has no probes and one more way to end a session. `EchoSlots`, `EchoCharges`,
`EchoLifecycle` and `EchoEgress` prove what every reachable state keeps, `EchoIdentity`
what no step changes, and `EchoProgress` what each loop and session can do next.
`EchoRuns` has the pieces of runs from which `EchoWitness` reaches the corner cases of a
session's end and `EchoDays` the worst a day can see. `EchoWrites` follows each permitted
chunk to its write. `EchoMeter` is the spend closure of a session and ties it to the
machine's steps. `EchoStream` is the loop over one stream.

**PROXY header** (`proxy.go`). `ProxyHeader` is a pure parser of the whole stream,
`ProxyRoundTrip` prints headers and reads them back (sections 2.1 and 2.2 of the PROXY
protocol), `ProxyReader` is the buffered reader over arbitrary chunks, proved against
the parser.

**Observation record** (`observe.go`, `legacy/observe.go`). `Observation` has the writer
with its ceiling, the reader that merges files and tolerates a torn tail, and the two
together, over any coding of events that has three laws; `EventCode` is one.

**Trace and verdict** (`main.go`, `web/assets/wt.js`). `Verdict` runs the listener's
handlers as a state machine and proves what the page concludes from their record.

**Probe page and anchors** (`web/pages/probe.html`, `web/assets/wt.js`). `Probe` has the
cooperative stream workers, the windowed writer and the watchdog; `ProbeRun` joins the
page to the server's machine and shows why no run passes the probe budget, and
`ProbeWitness` carries each run to its end. `Anchors` has
the slug of a heading and the search for unused ids.

## What the proofs found

- The repository's README promises 2 GiB per process per day. A window does stay under
  that, but a sliding day can see two. `EchoDays.DayIsSafeExactly`, over everything the
  process can do next: a day is safe exactly when it begins with the open window, or
  once that has run out, or when it has nothing left to permit. The bound over any
  half-open k days is k + 1 windows of one byte less than the ceiling, and
  `EchoDays.EgressBoundIsAttained` is a run of a fresh process, of sessions within their
  budgets and reads within their buffers, that reaches it for every k.
- Section 2.1 of the PROXY protocol has a receiver ignore what follows `UNKNOWN`. The
  code never looks at that word: `ProxyRoundTrip.UnknownIgnoredExactly` says when an
  UNKNOWN line still reports an address, whatever its spacing and bytes, and
  `ProxyRoundTrip.UnknownCanReport` is one that does.
- A text header's port is any int64: `ProxyRoundTrip.AnyPortIsReported` gives the header
  for each, negative or above 65535, and `ProxyRoundTrip.PortInRangeExactly` says which
  fifth words stay in range.
- "unknown" is unreachable while a client's record is whole, but the 30-second window can
  leave only a closing: `Verdict.UnknownExactlyForClosings` and `Verdict.AgedOutIsUnknown`.
  Whatever is missing, the page never overstates: `Verdict.FilesNeverOverstate`.
- A refused upgrade has come further through the handler than a declined one, but the page
  ranks a decline above it. `Verdict.HandlerOrderFollowedExactly`: the page names the
  furthest stage of the handler exactly unless the record has both and no session, and
  `Verdict.DeclineHidesTheRefusal` is a run of the listener where it does not.
- A heading whose slug is empty is given the empty id, so it is no link target:
  `Anchors.FreeId` and `Anchors.SlugIsEmptyExactly` say exactly when.
- A Go session is closed for a report only with the first one made. A Rust session that
  breaks off on a refused datagram closes with the first report exactly when none is
  waiting or the same one is (`EchoLifecycle.RefusalOvertakesExactly`), and
  `EchoWitness.RefusedDatagramCanOvertake` builds a run from a fresh process in which a
  different one is, a datagram of one packet: 2047 sessions fill the window but for one
  budget.
- The Rust release underflows exactly when an entry that was zero from the start is
  released before its address is granted a session, `RustTwin.RustRunUnderflowsExactly`;
  a fresh budget has no such entry.
- The two budgets decide alike while counters fit an int64, and
  `RustTwin.WidthsAgreeExactlyBelowTwo63` says precisely where they would part;
  `EchoCharges.CountersFitInt64` shows no process gets there before it has started 2^47
  loops, so the ledger counts in unbounded integers.

## Model

| member | source | states |
|---|---|---|
| Ledger.Budgets.Roll | main.go:86-92 | the window restarts exactly when 24 hours have passed since it opened |
| Ledger.Budgets.TryAcquire | legacy/main.go:214-230 | the answer, its reason and the new budget, ceiling before cap, with the cap of the kind of session |
| Ledger.Budgets.Free | main.go:108-116 | one slot less, and no entry left at zero |
| Ledger.Budgets.TrySpend | main.go:119-132 | every charge counts, refused or not, and a warning is logged only when the latch was down |
| Window.PermittedFromHere | main.go:119-132 | what is left of the open window plus k further windows bounds what k more openings can permit |
| Window.EgressInAnyDays | main.go:64-92 | over any run on a monotone clock, no half-open k days permit more than k + 1 windows of ceiling less one |
| Window.DayIsSafeExactly | main.go:86-132 | in spends of any size, down to a byte, the day from a given moment permits less than the ceiling exactly when it starts with the open window, after it, or with that window used up |
| EchoDays.DayIsSafeExactly | README.md:139 | whatever the process does next, the day that begins now sees less than the ceiling, under exactly those three conditions |
| EchoDays.EgressBoundIsAttained | main.go:86-189 | a run of a fresh process of either kind sees exactly k + 1 windows' worth in k days, for every k |
| Window.WindowsOpenADayApart | main.go:85-92 | n openings take at least n days |
| Window.LatchTracksTheCeiling | main.go:127-131 | the latch is up exactly while the window's count is at or past the ceiling |
| Window.OneWarningPerWindow | main.go:127-131 | a run logs at most one warning more than it opens windows |
| Window.LatchUpWasWarned | main.go:127-131 | a run that leaves the latch up and opened no window has logged exactly the warning that raised it |
| RustTwin.RustBudgets.TryAcquire | rust/src/main.rs:56-68 | makes the entry before the cap is checked, yet keeps no zero entries |
| RustTwin.RustBudgets.Free | rust/src/main.rs:70-78 | on a budget without zero entries the subtraction cannot underflow, and none is left |
| RustTwin.RustBudgets.TrySpend | rust/src/main.rs:81-96 | the count, the latch and the answer of the Rust spend |
| RustTwin.OneCallAgrees | rust/src/main.rs:48-96 | without zero entries, one Rust call is one Go call with the same reply |
| RustTwin.RustSimulatesGo | rust/src/main.rs:48-96 | over any run of calls at the same clock readings: same replies, same reasons, same last state, no underflow |
| RustTwin.RustRunUnderflowsExactly | rust/src/main.rs:56-78 | from any ledger a run underflows exactly when a zero entry is released before its address is granted a session, and is otherwise the Go run |
| RustTwin.WidthsAgreeExactlyBelowTwo63 | rust/src/main.rs:81-87 | int64 and u64 counters decide a spend alike exactly when the sum fits an int64 |
| EchoSlots.SlotsConserved | main.go:94-116 | in every reachable state the map counts the slots held, has no zero entry, at most four an address and one probe, and is empty when none is held |
| EchoSlots.AdmittedExactlyUnderTheCap | legacy/main.go:149-155 | in every reachable state, iff the ceiling is not reached and the address holds fewer slots than its cap (none for a probe), exactly one session is added, of that address and kind; otherwise none |
| EchoSlots.RefusedForExactly | legacy/main.go:214-230 | the reason of a refusal, for both kinds: the ceiling whenever it is reached, otherwise the cap |
| EchoCharges.ChargesConserved | main.go:178-189 | bytes accepted by all sessions are those added to the process counter over all windows plus those between the two steps |
| EchoCharges.PermittedWithinBudget | main.go:166-189 | no session's loops are permitted more than its budget, and each loop is refused at most once |
| EchoCharges.PassedExactlyWithinTheBudget | legacy/main.go:105-110 | a session admitted as a probe has a chunk passed exactly while all its loops have read stays within 64 MiB, any other within 1 MiB |
| EchoCharges.OvershootBounded | main.go:178-189 | counters pass the budget and the ceiling by at most one chunk a loop |
| EchoCharges.CountersFitInt64 | main.go:119-132 | with at most 2^47 loops started, the next charge of either counter is the same in int64, in u64 and in unbounded integers |
| EchoLifecycle.ClosedOnceAndTruthfully | main.go:168-203 | closed at most once, released at most once and exactly once at the end; a Go close carries the first report or the lifetime, and every close reason is true |
| EchoLifecycle.LifetimeClosesExactly | main.go:168-203 | a live session can be closed for its lifetime exactly from 120 s after its upgrade (600 s for a probe), and is then, whether or not a reason waits |
| EchoLifecycle.EveryExitCloses | main.go:191-203 | only four steps end a live session, and each closes it once with its own reason but for the departed peer |
| EchoLifecycle.FailedUpgradeGivesBack | main.go:415-423 | a failed upgrade gives exactly one slot back and is never served or closed |
| EchoIdentity.LoopsEndForGood | main.go:147-164 | a loop that has returned, reported or broken off is never moved again |
| EchoProgress.LoopCanAlwaysStep | main.go:147-216 | in every reachable state what a loop can do next: any chunk that fits its buffer while it reads, the second check after the first, a report after a refusal, nothing once over |
| EchoProgress.SessionCanAlwaysStep | main.go:191-218 | and what a session can: no slot is held that cannot be given back |
| EchoProgress.RustHasNoProbes | rust/src/main.rs:56-68 | no reachable session of the Rust server is a probe's |
| EchoLifecycle.RefusalOvertakesExactly | rust/src/main.rs:190-224 | a Rust session that breaks off closes with the datagram's refusal, which is the first reason reported exactly when nothing else is waiting |
| EchoWitness.RefusedDatagramCanOvertake | rust/src/main.rs:190-224 | a run from a fresh process that closes with the ceiling, for a datagram of 1024 bytes, while the echo budget is waiting |
| EchoLifecycle.NothingRejectedWithinBudget | main.go:178-183 | while what was read stays within the budget nothing is rejected or reported |
| EchoLifecycle.FirstReasonNeedNotClose | main.go:191-203 | with a reason waiting the watcher can still close for the lifetime, or not at all |
| EchoWitness.ReasonCanWait | main.go:170-203 | a run of either server to a live session with a reason waiting, which a departing peer leaves unsaid |
| EchoEgress.ActionMakesItsCall | main.go:178-203 | an action changes the shared budget by its one call |
| EchoEgress.MachineRunsTheLedger | main.go:75-132 | a run of the process is one run of the budget, permit by permit |
| EchoEgress.ProcessEgressInAnyDays | main.go:64-132 | all loops of all sessions together echo at most k + 1 windows' worth in any k days |
| EchoEgress.PermitsAreAllTheEcho | main.go:147-189 | the permits so bounded are everything the loops were permitted |
| EchoEgress.WindowsHoldAllCharges | main.go:86-132 | what the open window counts and what each closed one had counted is every byte accepted but for those between the two steps |
| EchoWrites.WrittenInAnyDays | main.go:147-164 | all loops together write at most k + 1 windows' worth in any k days, and one chunk for each loop that was permitted it before and wrote it inside |
| EchoWrites.SentWithinBudget | main.go:166-218 | no client is sent more than its session's budget on all its streams and datagrams |
| EchoWrites.PermittedIsWritten | main.go:152-159 | while no write fails, a loop with no chunk in hand has written exactly what it was permitted |
| EchoMeter.Meter.Spend | main.go:178-189 | the counter always moves, the budget is asked only within it, and the first refusal is what the channel keeps |
| EchoMeter.RustMeter.Charge | rust/src/main.rs:100-108 | counts, asks and refuses as the Go closure does, naming the same budget |
| EchoMeter.UninterruptedCharge | main.go:170-189 | the closure run without interruption is a run of the machine with the same outcome |
| EchoStream.EchoStream | main.go:147-164 | for any reads, refusals and write failures the output is a faithful prefix of the input, and the send side is closed once |
| EchoStream.RustEchoStream | rust/src/main.rs:242-258 | the same of the Rust loop, up to a read of no bytes |
| EchoStream.InputsAgree | rust/src/main.rs:249-252 | the two loops see the same input when no read is empty before the end |
| ProxyHeader.UntouchedExactlyWithoutAPrefix | proxy.go:67-81 | nothing is consumed iff there are fewer than twelve bytes or neither prefix |
| ProxyHeader.BlockReportsExactly | proxy.go:106-135 | from the bytes of a block: when it reports, the address and port it reports, and what is consumed |
| ProxyHeader.UnendedLineReportsNothing | proxy.go:84-88 | a text header without its newline takes everything and reports nothing |
| ProxyHeader.OnlyUnicodeSpaces | proxy.go:89 | what separates fields is one of Unicode's white-space characters in UTF-8 |
| ProxyHeader.SpacesAreUnicodes | proxy.go:89 | and each of those does |
| ProxyHeader.AtoiExactly | proxy.go:93 | a number is an optional sign and digits whose value fits an int64 |
| ProxyHeader.FamilyExactly | proxy.go:97 | the first dot, colon or percent sign decides between IPv4, IPv6 and no address |
| ProxyHeader.MoreBytesChangeNothing | proxy.go:69-135 | once a header is complete, what follows cannot change its meaning or length |
| ProxyReader.Reader.Peek | proxy.go:70-73 | shows the next bytes however they were chunked and consumes none |
| ProxyReader.Reader.ReadLine | proxy.go:85-88 | takes through the first newline, or everything when there is none |
| ProxyReader.ReadFull | proxy.go:137-147 | fills the buffer with exactly the next bytes, or takes all that were left |
| ProxyReader.ReadProxyV1 | proxy.go:84-102 | the address and remainder of the pure text parser |
| ProxyReader.ReadProxyV2 | proxy.go:106-135 | the address and remainder of the pure block parser |
| ProxyReader.ReadProxyHeader | proxy.go:69-81 | for every chunking, the address and remainder of the pure parser on the whole stream |
| ProxyReader.ProxyConn.constructor | proxy.go:45-63 | reports the header's address or else the peer's, and leaves the stream behind the header |
| ProxyRoundTrip.FieldsOfText | proxy.go:89 | cutting words apart gives them back, whatever white space is between them |
| ProxyRoundTrip.EveryTextIsSpacedWords | proxy.go:89 | every text is its own fields with some white space between them |
| ProxyRoundTrip.LineIsReadBack | proxy.go:84-102 | every line, with any white space between its words, is taken exactly and reports from its third and fifth words |
| ProxyRoundTrip.QuadsExactly | proxy.go:97 | a text is read as an IPv4 address iff it is a printed quad, and then as the sixteen bytes of that quad |
| ProxyRoundTrip.PortInRangeExactly | proxy.go:89-101 | a reported port is a TCP port exactly when the digits of the fifth word stand for less than 65536, and for zero after a minus sign |
| ProxyRoundTrip.AnyPortIsReported | proxy.go:89-101 | every int64, in range or not, is the port of some header |
| ProxyRoundTrip.V1Tcp4RoundTrip | proxy.go:84-102 | every TCP4 line yields its source address and port and leaves the payload |
| ProxyRoundTrip.V1Tcp6RoundTrip | proxy.go:84-102 | the same for TCP6, given the IPv6 parser reads the printed source |
| ProxyRoundTrip.UnknownIgnoredExactly | proxy.go:89-101 | exactly when an UNKNOWN line reports no address, over every line |
| ProxyRoundTrip.UnknownCanReport | proxy.go:89-101 | an UNKNOWN line that reports one |
| ProxyRoundTrip.V2RoundTrip | proxy.go:106-131 | every IPv4 or IPv6 block with any extension yields its source and leaves the payload |
| ProxyRoundTrip.LocalBlock | proxy.go:117-120 | a LOCAL block reports nothing and takes sixteen bytes and its length |
| Observation.Observer.constructor | observe.go:53-57 | no file and an empty record |
| Observation.Observer.Record | observe.go:59-85 | after any records the file holds exactly the kept suffix and size is its length |
| Observation.KeptWithinCeiling | legacy/observe.go:64-75 | the file is within the ceiling or holds one event, the last |
| Observation.NothingDroppedExactlyUnderCeiling | observe.go:73-76 | nothing is dropped while all fits, something is once it does not |
| Observation.TornRead | observe.go:104-121 | any byte prefix of a file gives exactly its complete events |
| Observation.ReadersFindWhatIsComplete | observe.go:96-121 | over any observers and any cuts, exactly the complete kept events of the address since the cutoff |
| Observation.ReadObservations | observe.go:98-129 | what the files hold for the address, in time order, each with its time, port, kind and detail as often as it was found |
| Observation.AnsweringExactly | observe.go:115-120 | exactly the events of the address that are no older than the cutoff, as often as they are there |
| Verdict.VerdictIsHighestStage | web/assets/wt.js:244-252 | on a non-empty record the verdict is the highest stage in it |
| Verdict.UnknownExactlyForClosings | web/assets/wt.js:244-252 | unknown iff the record is closings alone |
| Verdict.HandlerOrderFollowedExactly | main.go:408-429 | the verdict is the stage the handler came furthest to, exactly unless the record has a refusal and a decline and no session |
| Verdict.DeclineHidesTheRefusal | web/assets/wt.js:244-252 | a run of the listener shown as declined whose last request was refused |
| Verdict.DroppingNeverRaises | web/assets/wt.js:244-252 | losing events never raises the stage |
| Verdict.FurthestFollowsTheEvent | main.go:392-428 | each recorded step moves a client's furthest stage to what the event shows |
| Verdict.VerdictIsFurthestStage | main.go:392-428 | for every interleaving the page shows the furthest stage the client reached, never unknown |
| Verdict.VerdictTellsWhatCame | web/assets/wt.js:244-266 | the verdict told by the client's own connections to the port asked about: a session opened, else turned away, else any request, else any connection, else none |
| Verdict.OnPortExactly | web/assets/wt.js:265 | the events of the port asked about, or all when none is |
| Verdict.OtherPortsNeverMatter | web/assets/wt.js:263-266 | records that agree on the port asked about have the same verdict |
| Verdict.VerdictThroughTheFiles | observe.go:98-129 | the same through the files of all processes while what each recorded fits under its ceiling |
| Verdict.PartNeverOverstates | web/assets/wt.js:244-252 | from any part of the record the stage shown is one the client has reached |
| Verdict.FilesNeverOverstate | observe.go:96-129 | the same through files that are torn, rotated, aged or missing |
| Verdict.AgedOutIsUnknown | main.go:497-501 | the freshness window can leave a closing alone, shown as unknown |
| Probe.StreamsInFlightBounded | web/pages/probe.html:202-231 | closed at most opened at most asked, sixteen in flight, each number opened is held or closed, once and not both, and a clean finish closes each of 1..count once |
| Probe.WriterStaysInWindow | web/pages/probe.html:164-198 | at most five MiB unechoed, never more than the target rounded up, exactly that at the end |
| Probe.StopOpensNothing | web/pages/probe.html:213-214 | once stopped, no worker opens a stream |
| Probe.StopWritesNothing | web/pages/probe.html:180-181 | once stopped, the writer hands nothing more over |
| ProbeRun.RunsStayWithinTheBudget | web/pages/probe.html:275-282 | in every interleaving of page and server the page's session is charged at most what the page has given, and never rejected, reported or closed over the 64 MiB budget |
| ProbeWitness.TargetIsEchoed | web/pages/probe.html:275-282 | each run, on a fresh server, reaches its end: a live probe session, all its bytes sent, charged, permitted and echoed, every stream closed |
| ProbeRun.EchoWasHandedOver | web/pages/probe.html:164-258 | each loop of the page's session has a source of its own and is permitted no more than was handed over on it |
| Probe.StallWatch.Stalled | web/pages/probe.html:153-161 | a stall is called iff the value has read the same for over eight seconds |
| Anchors.SlugIsIdempotent | web/assets/wt.js:352-354 | a slug has only slug characters and is its own slug |
| Anchors.SlugHyphenatesWords | web/assets/wt.js:352-354 | words with spaces become the same words with hyphens |
| Anchors.SlugOfSpreadWords | web/assets/wt.js:352-354 | words become themselves less what is left out of them, with one hyphen for whatever white space and punctuation stands between two |
| Anchors.SpacesAreUnicodes | web/assets/wt.js:352-354 | the browser's white space is Unicode's, but for the next-line control and with the byte order mark |
| Anchors.StripIsAFilter | web/assets/wt.js:353 | stripping keeps letters, digits, underscores, hyphens and white space, and nothing else |
| Anchors.CandidateSpelled | web/assets/wt.js:362-363 | the candidates are the slug, then the slug, a hyphen and a decimal numeral from 2 on |
| Anchors.SlugIsEmptyExactly | web/assets/wt.js:352-354 | a slug is empty exactly when the trimmed text has no word character, white space or hyphen |
| Anchors.FreeId | web/assets/wt.js:360-363 | the search stops, at the first free candidate; the id is empty exactly for an empty free slug |
| Anchors.InitAnchors | web/assets/wt.js:356-365 | every heading keeps its id or is given the first candidate that neither the page nor an earlier heading has, and no two share a given one |
| Anchors.PunctuationHasAnEmptySlug | web/assets/wt.js:352-354 | a heading that gives the empty id |

## Left out

- Ledger.Spent: adds in unbounded integers, not int64; the widths are compared in RustTwin and the overshoot bound keeps counters in range.
- Ledger.Budgets.Roll: one clock reading stands for the two that the source takes one after the other.
- EchoMeter.Meter.Spend: the atomic add and the mutex are one goroutine's calls here; the interleavings are the machine's.
- EchoLifecycle.ClosedOnceAndTruthfully: safety only; that a waiting watcher is eventually scheduled is not stated.
- EchoStream.Charger: the answers are an arbitrary script, so the loop is proved against every interleaving; the machine's own answers are in EchoWrites, which counts the bytes written and does not name them.
- ProxyRoundTrip.V1Tcp6RoundTrip: the text form of an IPv6 address is a parameter, assumed to read back what was printed.
- ProxyReader.Reader: a read that yields no bytes and no error, and an error that later clears, are not modelled.
- Observation.Codec: JSON is a parameter with three laws (it decodes what it encoded, an encoding is a non-empty line, no proper prefix of one decodes); `EventCode.ACodecIsLawful` gives a coding that has them.
- Observation.SortByTime: one of the orders the library's unstable sort may return; only what any of them satisfies is stated.
- Observation.Observer.Record: file operations are taken to succeed, and a nil observer is not modelled.
- Anchors.Slug: lower-casing is a parameter with two laws (an ASCII text becomes its ASCII lower case, no text keeps an ASCII capital).
- Verdict.Listener: the listeners of all processes are one state machine, and which process holds which record is any split of its log.
- The Rust session's 200 ms grace before a close, and that its close is a QUIC-level one.
- QUIC, HTTP/3, TLS, WebTransport and qlog: library code, seen as abstract events.
- Certificates, hash publishing, flags, page rendering, assets and basic auth: plumbing with no hard state.
- The datagrams of the probe page beyond their bytes, that its runs' parts come one after the other, and the page's drawing.
- The spellings of an address (normalizeAddress, clientAddress): thin string cases over library calls.
