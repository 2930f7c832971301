# Reptile, in Dafny

Reptile is a kill switch for a WireGuard tunnel: a daemon polls the tunnel, proves by a probe where its traffic leaves,
and kills the configured programs when that proof has been missing for long enough. This project models the daemon's
decisions and proves what they guarantee over every run.

## How it is laid out

| modules | subject |
|---|---|
| `Wrappers`, `Selection`, `Text`, `Address` | picking from lists, Go's string functions, decimal numbers and IPv4 text as far as the program uses them |
| `Config`, `ConfigOps` | validity, loading, the list codec, the difference of two configurations, `config set` |
| `Agent`, `Watchdog`, `Tunnel`, `Egress`, `Reload` | the daemon's parts: classes for the objects it updates, each method proved against a function on values, and lemmas about that function |
| `Daemon`, `DaemonRuns`, `DaemonFrames`, `DaemonCache`, `DaemonInvariants`, `DaemonConfig`, `DaemonProbes` | the parts running together as a transition system: poll loop, any number of forced probes and any number of reloads, interleaved at the steps their locks make atomic; what every step keeps |
| `DaemonTheorems`, `DaemonTraces`, `DaemonOverlap`, `DaemonReaders` | the claims about whole runs, about the actions of a run that made each poll, probe and reload what it is, about overlapping reloads and about what readers of the live configuration see |
| `DaemonObjects` | the shared objects, arrays included, following the transition system operation by operation |
| `SignalPool`, `Killer` | the bounded worker pool and the SIGTERM/SIGKILL protocol on top of it |
| `Handler`, `History`, `LogPipeline` | the log line printer, its parser with the ring of recent entries, and the two end to end |
| `Firewall` | from the Endpoint lines of a wg-quick file to the packets the generated chain lets out |

The classes and the transition system use the same functions (`Cycle`, `Evaluated`, `Invalidated`, `CheckPasses`,
`Written`, `Applied`, `Effective`), and `DaemonObjects` shows of each locked operation that it takes objects which hold a
state to objects which hold the next one. So what is proved of runs is about what the methods do.

What the program takes from outside is a parameter: an HTTP or DNS answer, a `wg show` dump, a process listing, the
clock. Library parsers (`time.ParseDuration`, `regexp`, `url.Parse`, `url.ParseRequestURI`, `net.SplitHostPort`, the
colon-separated forms of `net.ParseIP`, `net.IP.String`, `strconv.Quote`) are arbitrary functions. Where something more
is needed of one it is a precondition; the only case is that distinct addresses have distinct texts (`CanonicalText`).

## Where the code and its own words part

- The comment on `cycle` (internal/app/watchdog.go:17-18) says that from confirmation on the killer runs at every poll.
  It does not once `down_cycles_to_kill` has been raised during the outage: `RaisedThresholdSuspendsKills` is such a run,
  and `KillCharacterisation` and `KillsPersist` give the exact condition.
- `Validate` parses the probe URL with `url.ParseRequestURI`, `eg.Apply` with `url.Parse`, and the second can refuse what
  the first accepts (a fragment with a malformed escape behind a query). A saved valid configuration can thus be refused
  by a reload. That reload still changes nothing; `Reload` states exactly when a reload succeeds.
- `diffKeys` compares rendered text. A list change that only moves commas between separators and elements goes
  unreported: `DiffMissesCommas` is an example, `ListDiffExact` the exact condition.
- `Live.Get` promises a snapshot (internal/app/live.go:14). At start-up the egress checker's zone list and the live
  configuration's are one array, and `eg.Apply` writes into it in place, so until the reload is installed a reader can see
  zones of the new configuration mixed with the old. `LiveChangesExactly` says when what a reader sees changes,
  `TornRead` is a reachable instance, `LiveConfigValid` shows that what is seen is valid throughout, and
  `CheckersAgreeAfterReload` that the sharing has no effect once the reload is installed.
- Reload requests are not serialised (internal/app/main.go:253-280). Agreement of the checkers with the live
  configuration survives every overlap of reloads of a set of files if and only if the acceptable ones among them ask the
  checkers for the same settings (`OverlapExactly`); reloads that do not overlap always keep it (`CheckersAgree`).
- A record whose text holds a newline before its last visible character does not survive the log: `RoundTripExactly`.

## Model

| member | source | states |
|---|---|---|
| DaemonTheorems.DetectionBound | internal/app/watchdog.go:73-124 | In every interleaving: if every probe from t on fails, lifetime and thresholds are at most TTL and D and polls are at most P apart, some poll begun between t + TTL and t + TTL + D*P kills |
| DaemonTheorems.LatePollUnsafe | internal/app/egress.go:141-159 | Once probes have failed for a whole TTL no poll can be judged safe, whatever forced probes and reloads ran in between |
| DaemonTheorems.ProofWitness | internal/app/main.go:214-232 | Every poll judged safe under verification has a successful probe behind its verdict: under the settings in force at that verdict, after the last invalidation or reconfiguration, and made by that evaluation or younger than the TTL |
| DaemonTheorems.NoReuseAfterFailure | internal/app/egress.go:172-183 | After a poll with a failed tunnel, a later safe poll rests on a probe made after that poll's invalidation |
| DaemonTheorems.VerdictExplained | internal/app/egress.go:141-159 | A poll given a verdict has it exactly as the probe behind it, under the settings in force, proved the exit or not |
| DaemonTraces.PollExplained | internal/app/watchdog.go:87-118 | Every recorded poll of a run: its tunnel was up iff the dump read by its own check shows a positive handshake time no older than the limit the checker held; verification and threshold are those of the configuration live at its own tick; a kill went for the targets live at its own cycle |
| DaemonTraces.SafeExactly | internal/app/watchdog.go:111-118 | A recorded poll is safe iff that dump shows a fresh handshake and, where the configuration at its tick asks for verification, the probe behind its verdict proved the exit |
| DaemonTraces.PublishTraced | internal/app/watchdog.go:117-123 | Every poll of a run publishes the label and streak after all polls so far, the reason of the last of them and the proof held when it read it, after its own cycle |
| DaemonTraces.RecordTraced | internal/app/main.go:214-232 | Each part of a poll comes from its own actions: the check found up or down with its reason, the evaluation answered with verdict and reason, and nothing else decided it |
| DaemonTraces.ProbeExplained | internal/app/main.go:300-310 | A forced probe found the tunnel up iff the dump of its own check shows a fresh handshake, and verified iff the configuration live at its request asked for it |
| DaemonTraces.InstalledFromFile | internal/app/main.go:255-277 | What an installation installs is, setting by setting, the file its own reload read, but for interface, socket path and log file, which stay the start-up ones; without overlap both checkers then hold what that file says |
| DaemonTraces.ReportTraced | internal/app/main.go:262-278 | Every installed reload reports on the file its own loading read against the configuration live at its own preparation: exactly the keys whose shown text differs |
| DaemonTheorems.CacheEconomy | internal/app/egress.go:145-155 | Without invalidation, reconfiguration or forced probe a window of length W sees at most W/TTL + 1 probes |
| DaemonTheorems.ProbesSpaced | internal/app/egress.go:146-152 | In such a stretch n probes span at least (n - 1) * TTL |
| DaemonTheorems.CacheIsTransparent | internal/app/egress.go:141-159 | In every reachable state, if a probe would now come out as the last valid one did, a cached evaluation equals a fresh one apart from `Probed` |
| DaemonTheorems.LiveConfigValid | internal/app/main.go:253-280 | Even with overlapping reloads the live configuration is always valid, every threshold used was at least 1, and interface, socket path and log file stay the start-up ones, in the cell and in both checkers |
| DaemonTheorems.RestartReported | internal/app/main.go:262-269 | Every successful reload reports a start-up key as needing a restart exactly when the file's value differs from the start-up value |
| DaemonTheorems.CheckersAgree | internal/app/main.go:266-276 | With reloads that never overlapped, both checkers hold what the live configuration asks whenever no reload is half done |
| DaemonTheorems.CheckersAgreeAfterReload | internal/app/main.go:270-278 | In particular right after every successful reload, zones included |
| DaemonTheorems.FailedReloadChangesNothing | internal/app/main.go:255-275 | A reload that ends without installing changes no state but its own place; it was refused because the file did not load to a valid configuration or url.Parse refused its URL, never by the tunnel checker |
| DaemonTheorems.ProbePublishes | internal/app/main.go:300-317 | In every interleaving a forced probe with verification on and the tunnel up publishes "up" iff a network probe forced since its request proved the exit, with the country and address proved; with the tunnel down it publishes "down" after an invalidation since its request; the streak stays |
| DaemonTheorems.ProbesApart | internal/app/main.go:304-310 | No two forced probes under way answer for the same network probe or invalidation |
| DaemonTheorems.ProbeAnswersItself | internal/app/main.go:300-317 | In every run the event a forced probe answers for lies between its own request and its answer |
| DaemonTheorems.RequestTraced | internal/app/main.go:172-175 | What a request is remembered by is the history as it was when that very request came in |
| DaemonOverlap.OverlapExactly | internal/app/main.go:253-280 | From a quiet state in agreement, however reloads of a set of files overlap and whatever polls and probes run in between, the checkers agree with the live configuration whenever no reload is half done, if and only if all the files that reloads accept ask for the same egress settings and the same tunnel settings |
| DaemonOverlap.SameAskAgrees | internal/app/main.go:262-278 | The positive half: where all accepted files ask for the same, no overlap breaks agreement |
| DaemonOverlap.CrossedReloads | internal/app/main.go:270-276 | The negative half: any two accepted files have a schedule in which both reloads succeed, both checkers end with what one asks for and the cell with the other |
| DaemonReaders.LiveChangesExactly | internal/app/live.go:14-26 | What a reader of the live configuration sees changes exactly at an installation of a different configuration, and when a reload writes a different zone into an array the cell still shares |
| DaemonReaders.ReconfiguringShows | internal/app/egress.go:97 | The in-place write leaves the live configuration as it was iff the array is not shared, does not fit, or gets the same zones where the cell shows them |
| DaemonReaders.TornRead | internal/app/main.go:262-276 | A reachable state in which a reader sees zones that neither the old configuration nor the new one lists |
| DaemonTheorems.PublishedStreak | internal/app/main.go:298-317 | Whatever forced probes publish, the published streak is the length of the unsafe suffix of the published polls |
| DaemonTheorems.KillsExactly | internal/app/watchdog.go:111-118 | In every reachable state poll i killed exactly when the unsafe polls ending at i had reached that poll's threshold |
| DaemonTheorems.KillsHaveTargets | internal/app/main.go:199-209 | Every kill went for a valid target list, the one live at the kill, whatever reloads came since the poll began |
| DaemonTheorems.NextInv | internal/app/main.go:199-280 | Every enabled step of the poll loop, a probe or a reload keeps the whole invariant |
| DaemonTheorems.RunInv | internal/app/main.go:158-249 | The invariant holds at every state of every run |
| DaemonCache.EvaluateKeeps | internal/app/egress.go:141-159 | An evaluation keeps the cache tied to the recorded history, and its answer is that of the latest valid probe, made now or younger than the TTL |
| DaemonCache.LastProbeMeaning | internal/app/egress.go:172-183 | The latest valid probe is the one followed by nothing but verdicts |
| DaemonCache.ReconfigureKeeps | internal/app/egress.go:86-101 | Applying new settings drops all proof and keeps the history consistent |
| DaemonConfig.ReconfiguringGood | internal/app/egress.go:97 | Writing zones into the shared array leaves what the live configuration shows valid and its wiring unchanged |
| Watchdog.KillCharacterisation | internal/app/watchdog.go:21-41 | The streak is the length of the maximal unsafe suffix, and a poll kills iff it is unsafe and that length has reached its own threshold |
| Watchdog.StreakIsSuffix | internal/app/watchdog.go:29-31 | The streak is the maximal unsafe suffix; the quiet safe state is reached exactly after a safe poll |
| Watchdog.TotalKills | internal/app/watchdog.go:14-20 | With a constant threshold D the kills of a run are the sum over its unsafe blocks of max(0, length - D + 1) |
| Watchdog.KillsPersist | internal/app/watchdog.go:17-18 | After a kill the next unsafe poll kills iff its threshold is at most the extended streak; in particular if the threshold did not rise |
| Watchdog.RaisedThresholdSuspendsKills | internal/app/watchdog.go:17-33 | A raised threshold suspends kills while the label is still down |
| Watchdog.LabelMeaning | internal/app/watchdog.go:127-132 | The label is unknown until the first safe or killing poll and then reflects the latest such poll |
| Watchdog.UpBetweenDowns | internal/app/watchdog.go:35-40 | Two "tunnel DOWN" lines always have a "tunnel UP" line between them, even with changing thresholds |
| Watchdog.LinesExact | internal/app/watchdog.go:20-40 | What each poll logs: "tunnel UP" iff it is safe and the one before was not, the count towards the threshold below it, "tunnel DOWN" iff it is the first kill of its unsafe block, otherwise nothing |
| Watchdog.DownMeaning | internal/app/watchdog.go:36-40 | Down is announced exactly while some poll of the current unsafe block has killed |
| Watchdog.Runner.Run | internal/app/watchdog.go:48-125 | Over any sequence of ticks and heartbeats the streak is the unsafe suffix of the ticks by their own answers, the kills are the ticks at which that suffix had reached their threshold, the last tick's state, reason and proof are published, and state, whole log and ticker settings are those of the run of its polls |
| Watchdog.KillsOfTicks | internal/app/watchdog.go:111-118 | The kills of a run counted from the answers of its ticks: tunnel, verification switch, exit, threshold |
| Watchdog.NoticesMeaning | internal/app/watchdog.go:88-109 | A changed interval is told once with its new value, an unchanged one not at all, an invalid configuration with its error |
| Watchdog.AnnouncementsOfLog | internal/app/watchdog.go:117-121 | The announcements in that log are exactly the lines of the run's polls, in order |
| Watchdog.Runner.Tock | internal/app/watchdog.go:87-123 | One pass of the loop body: UP and streak 0 iff the tunnel was up and the exit, where it is verified, proved; otherwise the streak grows by one and a kill follows iff it has reached the threshold; the reason of the last checker consulted is published; notices and lines are logged in order and the durations adopted or kept |
| Watchdog.Runner.ApplyDurations | internal/app/watchdog.go:88-109 | Parsable durations are adopted, unparsable ones leave the previous settings; exactly the notices for what changed or failed are logged |
| Watchdog.Runner.Beat | internal/app/watchdog.go:80-84 | A heartbeat logs state, streak, address and country, and nothing when heartbeats are off |
| Agent.StreakIsLastPolls | internal/app/agent.go:33-46 | Under any mix of poll and probe writes the streak is the last poll's, and 0 before the first |
| Agent.Store.Set | internal/app/agent.go:33-38 | A poll write replaces every field |
| Agent.Store.SetProbe | internal/app/agent.go:40-46 | A probe write replaces every field but the streak |
| Agent.Store.Snapshot | internal/app/agent.go:48-62 | The snapshot is the current content |
| Tunnel.ParseLatestHandshake | internal/app/tunnel.go:29-45 | The result is the largest positive parsable timestamp of a line with at least five fields, 0 if there is none |
| Tunnel.LatestDecides | internal/app/tunnel.go:90-98 | Comparing the latest timestamp with the limit decides whether some peer is fresh |
| Tunnel.OrderAndNoiseIrrelevant | internal/app/tunnel.go:25-28 | The verdict depends only on which handshake lines occur, not on order, repetition or malformed lines |
| Tunnel.PeersReportMeaning | internal/app/tunnel.go:90-97 | A failing check says that no peer has shaken hands, or the age of the freshest handshake and the limit it exceeds |
| Tunnel.CheckMeaning | internal/app/tunnel.go:77-99 | The check passes iff some line of the dump has a fifth field that reads as a positive time no older than the limit, in nanoseconds |
| Tunnel.TunnelChecker.Check | internal/app/tunnel.go:77-99 | Passes iff some peer's handshake is fresh enough in whole seconds; otherwise names the reason that applies |
| Tunnel.TunnelChecker.Apply | internal/app/tunnel.go:61-71 | All-or-nothing; never touches the interface |
| Address.ReverseInvolution | internal/app/egress.go:274-281 | Reversing twice through dotted-decimal text gives the same address, and the same text for dotted-decimal input (section 2.1 of RFC 5782) |
| Address.ReverseOrder | internal/app/egress.go:280 | The reversed name lists the octets in opposite order |
| Address.DottedParse | internal/app/egress.go:276 | Dotted-decimal text has one spelling per address, so parsing and printing are inverse |
| Egress.ProbeMeaning | internal/app/egress.go:192-244 | A probe is OK iff the response is a readable 200 with the expected non-empty country, the pinned address if any, and an address clean in all zones if any; then it has recorded what it proved |
| Egress.ListedNamesFirstZone | internal/app/egress.go:246-272 | A listing verdict names the first zone whose successful lookup holds a listed answer |
| Egress.FirstListingOnTexts | internal/app/egress.go:246-292 | On texts: for an IPv4 address each zone is asked for the reversed octets before it; if every lookup fails or holds only addresses outside 127.0.0.0/8 or inside 127.255.255.0/24 no zone is named, and the first with another 127.x.y.z answer is |
| Egress.ProbeOnTexts | internal/app/egress.go:192-244 | An exit in the expected country with an IPv4 text is OK iff no zone says listed, and otherwise listed in the first that does |
| Egress.ProbeFailureNamed | internal/app/egress.go:193-208 | Each failure before the body is read has its own reason, and only a read body is recorded |
| Egress.ReadBodyRecorded | internal/app/egress.go:211-230 | A read body is recorded, country in upper case and both trimmed, whatever it is judged to be; a missing or wrong country is named |
| Egress.AddressJudged | internal/app/egress.go:226-244 | In the right country: a wrong address iff one is expected and another was seen, no address iff zones are to be asked and none was seen, each reason with the address it is about |
| Egress.EvaluateMeaning | internal/app/egress.go:141-159 | An evaluation probes iff forced, nothing is held or the lifetime is over; a cached answer leaves the cache alone, a probe sets verdict, reason and time, and country and address only if the body was read |
| Egress.FirstZoneMeaning | internal/app/egress.go:256-271 | The zone search finds the first listing zone, or shows that none lists |
| Egress.CacheRefinesFresh | internal/app/egress.go:145-158 | With an unchanged world a cached evaluation equals a fresh one apart from `Probed`, and stays so |
| Egress.BackingKept | internal/app/egress.go:180-223 | "Held and OK implies country and address meet the current expectations", and "the HTTP client matches the current settings", are kept by evaluate, Invalidate and Apply |
| Egress.ValidIsApplicable | internal/app/egress.go:65-84 | For a valid configuration Apply can only fail at url.Parse |
| Egress.EgressChecker.Evaluate | internal/app/egress.go:141-159 | New state and answer are those of the evaluation function: cached, or probed and recorded |
| Egress.EgressChecker.RunProbe | internal/app/egress.go:192-244 | Computes the probe's verdict and records the observation exactly when the body was read |
| Egress.EgressChecker.Blacklisted | internal/app/egress.go:246-272 | Returns the first listing zone of the current slice, none for a non-IPv4 address |
| Egress.EgressChecker.Invalidate | internal/app/egress.go:174-183 | Drops verdict and observation and nothing else |
| Egress.EgressChecker.ReplaceZones | internal/app/egress.go:97 | The in-place append: the new zones at the front of the old array if they fit, the rest of it unchanged, else a new array and the old one untouched |
| Egress.EgressChecker.Apply | internal/app/egress.go:65-102 | Fails without any change or swaps every setting, drops the client and all proof |
| Reload.BuildCheckers | internal/app/main.go:118-142 | From a loaded configuration the checkers start in agreement with the cell and share its zone array |
| Reload.Prepare | internal/app/main.go:255-269 | Succeeds iff the file loads to a valid configuration; then yields, setting by setting, the file's values but for the three start-up ones, and the report; errors name their cause |
| Reload.Install | internal/app/main.go:270-276 | Changes nothing, or leaves both checkers in agreement with the new live configuration and no cached proof |
| Reload.Reload | internal/app/main.go:253-280 | Succeeds iff file, validation and url.Parse accept; on failure nothing is changed; on success the live configuration holds every setting of the file but the three start-up ones, both checkers hold what the file says, and the report is as promised, although the zone arrays may have been shared |
| Reload.EffectiveFields | internal/app/main.go:266-269 | Every key but interface, socket_path and log_file takes the file's value |
| Reload.AgreeingHoldFile | internal/app/main.go:270-275 | Checkers in agreement with it hold the file's URL, patterns, durations, country, address, zones and ping target one by one |
| Reload.ProbeNow | internal/app/main.go:300-317 | A forced probe evaluates afresh or invalidates, and publishes exactly that answer with its reason, address and country, keeping the streak |
| Reload.EffectiveValid | internal/app/main.go:266-269 | Substituting the start-up keys keeps a configuration valid |
| Reload.Live.Get | internal/app/live.go:15-19 | Reads the configuration as the shared array shows it |
| Reload.Live.Set | internal/app/live.go:22-26 | Replaces the configuration and ends the sharing |
| DaemonObjects.StartDaemon | internal/app/main.go:158-171 | The objects made at start-up hold an initial state of the transition system |
| DaemonObjects.CheckTunnel | internal/app/main.go:214-216 | The checker's answer is the one the poll's next state carries |
| DaemonObjects.InvalidateProof | internal/app/main.go:216-218 | Invalidating the object is the transition's clearing step |
| DaemonObjects.EvaluateProof | internal/app/main.go:221-222 | Evaluating the object is the transition's evaluation, cached or probed |
| DaemonObjects.PublishPoll | internal/app/watchdog.go:122-123 | Reading the proof and publishing it are the last two steps of a poll |
| DaemonObjects.PrepareReload | internal/app/main.go:262-269 | What a reload sets aside is read off the cell as the transition says |
| DaemonObjects.ReloadEgressChecker | internal/app/main.go:270-272 | Applying to the egress checker object, with its in-place write to the shared array, is the transition's egress step |
| DaemonObjects.ReloadTunnelChecker | internal/app/main.go:273-275 | Applying to the tunnel checker object is the transition's tunnel step |
| DaemonObjects.InstallConfig | internal/app/main.go:276 | Setting the cell is the transition's installation, which ends the sharing |
| Config.Validate | internal/app/config.go:105-188 | Silent iff the configuration is valid; otherwise what the error says of the configuration is true and every check made before it passes |
| Config.ValidateTargets | internal/app/config.go:109-129 | Silent iff the targets are non-empty, well-formed and distinct; otherwise the named target has the named defect |
| Config.ValidMeaning | internal/app/config.go:105-188 | Validity spelled out on the texts: characters and lengths, no target twice, no outer blanks, country, address, scheme and host, capture groups, zones, threshold, least durations |
| Text.ByteLenMeaning | internal/app/config.go:116 | The length of a target is that of its UTF-8 text: lengths add up and each character takes the fewest bytes it fits |
| Config.DurationsMeaning | internal/app/config.go:190-212 | Each duration is read from its own key; on failure the first key in order whose text does not parse is named |
| Config.LoadMeaning | internal/app/config.go:80-103 | Each kind of unusable file has its own error; a decoded one is taken as it stands but for the normalised country and the trimmed address |
| Config.LoadStable | internal/app/config.go:80-103 | A loaded configuration written back and loaded again is unchanged |
| ConfigOps.SplitList | internal/app/config_ops.go:194-204 | Trimming the parts in place yields the specified list |
| ConfigOps.ListMeaning | internal/app/config_ops.go:194-204 | The list of a text is what stands between its commas, each part trimmed; a text of blanks alone is no list |
| ConfigOps.SplitInvertsJoin | internal/app/config_ops.go:194-204 | Splitting inverts joining on lists of trimmed, non-empty, comma-free elements |
| ConfigOps.SplitJoinSplit | internal/app/config_ops.go:194-204 | Split, join, split is split, on every string |
| ConfigOps.NamesSorted | internal/app/config_ops.go:46 | The rows stand in strict lexicographic order of their keys |
| ConfigOps.DiffKeys | internal/app/config_ops.go:70-79 | The loop collects the specified keys |
| ConfigOps.DiffExact | internal/app/config_ops.go:68-79 | The difference lists, strictly sorted, exactly the keys whose text differs; for configurations with plain list elements exactly the keys whose fields differ |
| ConfigOps.ListDiffExact | internal/app/config_ops.go:39-42 | A list key is reported iff the lists differ after cutting every element at its commas |
| ConfigOps.DiffMissesCommas | internal/app/config_ops.go:42 | Two different lists of extra rules that diffKeys does not tell apart |
| ConfigOps.ClassifyReload | internal/app/main.go:282-296 | The loop files every key under the specified headings |
| ConfigOps.ReportMeaning | internal/app/main.go:282-296 | A report demands a restart for exactly the start-up keys that differ, a firewall reload for exactly the firewall keys that differ, and loses no differing key |
| ConfigOps.KeyNamedMeaning | internal/app/config_ops.go:122-190 | A name is dispatched to a key iff it is that key's name |
| ConfigOps.FieldAfterApply | internal/app/config_ops.go:122-192 | Applying a pair sets the named field to the normalised value and leaves the others |
| ConfigOps.ApplyText | internal/app/config_ops.go:124-187 | By name: the keys that take any text, and which setting each of them sets |
| ConfigOps.ApplyDuration | internal/app/config_ops.go:126-143 | By name: the duration keys take exactly the texts that parse as durations |
| ConfigOps.ApplyList | internal/app/config_ops.go:176-183 | By name: the list keys take the list of the text |
| ConfigOps.ApplyParsed | internal/app/config_ops.go:144-175 | By name: what patterns, threshold, switch and country accept, and what they store |
| ConfigOps.ParseBoolMeaning | internal/app/config_ops.go:150-155 | The accepted spellings of the switch |
| ConfigOps.SetToShown | internal/app/config_ops.go:22-48 | Setting a key of a valid loaded configuration to the text shown for it changes nothing, iff list elements hold no comma or outer blank, the threshold has 64 bits and the country is set |
| Text.ParseItoa | internal/app/config_ops.go:27 | The threshold shown reads back as itself |
| ConfigOps.FoldSucceeds | internal/app/config_ops.go:96-100 | The pairs are accepted iff each is acceptable by itself |
| ConfigOps.FoldMeaning | internal/app/config_ops.go:96-100 | Each named key ends with the normalised value of its last occurrence, each other key with its loaded value |
| ConfigOps.ApplyPairs | internal/app/config_ops.go:96-100 | The loop computes the fold and stops at the first rejection |
| ConfigOps.ConfigStore.SetKeys | internal/app/config_ops.go:85-118 | Succeeds iff the arguments pair up, the file loads, every pair is accepted, the result is valid and it can be written; the file is unchanged on error and the complete valid result on success |
| ConfigOps.StoredReadsBack | internal/app/config_ops.go:105-117 | What was stored loads back as itself |
| SignalPool.EverySchedule | internal/app/killer.go:60-91 | In every schedule at most min(n, 32) signals are in flight, only the final state is stuck, the length is bounded, and in the final state every process was signalled once and has its own answer |
| SignalPool.NextInv | internal/app/killer.go:77-89 | Every step of producer, channel and workers keeps the pool's invariant |
| SignalPool.StepDecreases | internal/app/killer.go:77-89 | Every step lowers a non-negative measure, so every schedule ends |
| SignalPool.Progress | internal/app/killer.go:77-89 | In a state that is not final some step is enabled |
| SignalPool.FinalComplete | internal/app/killer.go:89-90 | When the wait returns every result has been written once, in its own place |
| SignalPool.SignalAll | internal/app/killer.go:60-91 | Under an arbitrary schedule the answers come back in process order, each signal sent and answered once |
| Killer.KillTargets | internal/app/killer.go:96-171 | SIGTERM goes to exactly the processes of the first listing named by a target, in listing order with their answers, and completes before any SIGKILL; SIGKILL goes to those of the second listing, and to none without a match, after cancellation or a failed listing; the names reported are the listed targets, the failures those refused, in order, with a failed second listing last |
| Killer.TermsMeaning | internal/app/killer.go:120-148 | The first batch, its notices, failures and names, on the first listing itself |
| Killer.KillsMeaning | internal/app/killer.go:150-170 | The second batch, its notices and failures, on the second listing itself |
| Killer.KillSurvivors | internal/app/killer.go:150-170 | The second phase: nothing after cancellation, one failure after a failed re-listing, else the second batch |
| Killer.SendAll | internal/app/killer.go:139-147 | One batch: each member signalled once, notifications and failures in batch order |
| Killer.Select | internal/app/killer.go:120-127 | Collects the matching processes and their names |
| Killer.SortedNames | internal/app/killer.go:132-136 | The distinct names in strict order |
| Killer.MatchingMembers | internal/app/killer.go:122-127 | A batch keeps each listed process with its multiplicity iff its name is a target |
| Killer.TermsPrecedeKills | internal/app/killer.go:148-169 | The trace is all SIGTERM events, then all SIGKILL events |
| Killer.FailuresExact | internal/app/killer.go:143-145 | A failure is reported for a process iff its own signal was refused for a reason other than ESRCH |
| Handler.ConsoleHandler.Handle | internal/app/handler.go:36-69 | Appends one line for an enabled record, nothing for another; own attributes stand before the record's |
| Handler.ConsoleHandler.AppendAttrs | internal/app/handler.go:79-88 | Attributes in order, values with blanks or quotes quoted |
| Handler.BodyMeaning | internal/app/handler.go:58-65 | The text is the message, then own attributes before the record's, each as blank, key, equals sign and value, quoted iff the value holds a blank, tab or quote |
| Handler.PrefixMeaning | internal/app/handler.go:41-57 | The clock where it is shown, then the level's word in six columns, by level 0, 4 and 8 |
| History.ReadRecentEvents | internal/app/history.go:41-75 | With n slots, however long the log: the last n of the filtered parsed lines; the count and read errors as the source has them |
| History.RingStep | internal/app/history.go:58-59 | Overwriting slot seen mod n keeps "the ring holds the last n accepted entries" |
| History.Unroll | internal/app/history.go:65-74 | Reading the ring from its start slot yields the last n, oldest first |
| History.ParseEvents | internal/app/history.go:86-94 | The events among the lines, in order |
| History.FilterMin | internal/app/history.go:111-119 | The entries of at least the rank, in order |
| LogPipeline.RoundTripExactly | internal/app/handler.go:43-67 | A printed record is read back as exactly its time, level and trimmed text iff no newline stands before its last visible character |
| LogPipeline.OutputReadsBackExactly | internal/app/history.go:96-108 | The whole written log parses to one entry for each enabled record, in order, iff every enabled record survives by itself |
| LogPipeline.WriteThenRead | internal/app/handler.go:36-69 | Writing records through the handler and reading back with a rank and a count gives exactly the last n enabled records of at least that rank |
| LogPipeline.ParsePrinted | internal/app/history.go:96-108 | The parser inverts the printer on one line |
| LogPipeline.ParseEventMeaning | internal/app/history.go:96-108 | Exactly the lines of a time of day, a level in any case and a rest are events, with rank 0, 1 or 2 by level |
| LogPipeline.ClockReads | internal/app/handler.go:45 | Hour, minute and second can be read off the printed time in that order |
| LogPipeline.ReprintsLine | internal/app/history.go:131 | History prints an event as it was logged, but for blanks around its text |
| LogPipeline.RenderEntries | internal/app/history.go:123-136 | Without colour, one line for each entry in order |
| LogPipeline.RenderedReadsBack | internal/app/history.go:123-136 | Entries of the shape the parser makes are printed so that they parse back to the same entries |
| LogPipeline.HistoryReadsBack | internal/app/history.go:41-136 | What history prints without colour, of any file, rank and count, parses back to the very entries it printed |
| LogPipeline.PrintHistory | internal/app/history.go:41-136 | Reading and printing in turn: the output parses back to the last n entries of at least the rank |
| Firewall.IsPort | internal/app/firewall.go:64-76 | True iff the text is one to five digits denoting 1 to 65535 |
| Firewall.PortMeaning | internal/app/firewall.go:64-76 | The decimal text of a number is a port iff the number is 1 to 65535 |
| Firewall.EndpointValueMeaning | internal/app/firewall.go:15 | Exactly the lines of blanks, the word in any case, blanks, a sign and at least one character have a value, the trimmed rest |
| Firewall.DenotedPositions | internal/app/firewall.go:35-48 | One endpoint for each such line, in order, with the address and port that line gives |
| Firewall.DenotedError | internal/app/firewall.go:42-48 | An error is that of the first refused line, counted from 1: malformed, bad port or host name |
| Firewall.UniqueFirsts | internal/app/firewall.go:49-53 | The endpoints kept are the first occurrences, in order |
| Firewall.ParseEndpoints | internal/app/firewall.go:25-62 | The endpoints the lines denote, complete, without repetition, in order of first occurrence; otherwise the first error, a read error or "none found" |
| Firewall.KeyIdentifies | internal/app/firewall.go:49 | The text under which an endpoint is remembered identifies its address and port text |
| Firewall.BuildRuleset | internal/app/firewall.go:81-104 | The chain is the specified rules in order, the extra rules last |
| Firewall.PolicyExact | internal/app/firewall.go:78-100 | Without extra rules a packet is accepted iff it leaves by loopback or the tunnel, is UDP to an endpoint's address and port, or is the DHCP, DHCPv6 or neighbour-discovery traffic; extra rules decide only what those do not accept |
| Firewall.UniquePermits | internal/app/firewall.go:49-53 | Dropping repeated endpoints changes no permission |
| Firewall.FirewallUp | internal/app/firewall.go:81-104 | From the file to the packet: refused with the first error, or the chain lets out the loopback, tunnel and control traffic, UDP to the endpoints the file names, and of the rest what the extra rules accept |
| Firewall.ExtrasDecide | internal/app/firewall.go:98-100 | Of the extra rules the first with a verdict decides, and a packet none accepts is dropped |

## Left out

- HTTP, DNS, `wg`, `ping`, `nft`, `/proc`, sockets and the file system: their answers are parameters; the configuration file is one cell with atomic replacement.
- The best-effort ping before a tunnel check: it can only influence the dump that follows it.
- The agent's wire protocol and connection limits, the fanout handler, install, version, dialling and command dispatch: plumbing.
- Timers: ticks, heartbeats and the end of the grace period are events; DetectionBound takes the largest gap between polls as a parameter.
- Interleavings below the lock level. `live.Get` and the comparison in a reload are one step, as are an evaluation's probe and its recording, which one lock covers.
- The course of an enforcement inside the transition system: there a kill is recorded with the targets the killer read; KillTargets covers the enforcement itself, with the targets it is given.
- Widths of counters: the streak and the number of seen entries are unbounded. Timestamps and thresholds read from text are limited to 64 bits.
- `strings.ToUpper` on letters outside ASCII, and strings that are not valid UTF-8 when their bytes are counted.
- JSON decoding and encoding: a file is missing, unreadable, malformed or holds a configuration decoded over the defaults.
- The wording of errors and reasons: they are datatypes that carry the same data.
- Text syntax of nft, its wildcard interface names and its own reading of port texts: rules are a datatype with first-match semantics, an extra rule is any partial function from packets to verdicts.
- ANSI colour in the history table, line length limits of the scanner (a failed scan is one flag) and write errors of the log.
- EgressChecker: its flat fields are grouped into two records, settings and cache; only the zone list keeps its backing array, because only there does sharing matter.
- ConfigOps.ApplyKey: returns the changed configuration instead of updating it through a pointer, which nobody else holds.
- ConfigOps.SplitList: the parts are updated in place in a sequence that no one else can see.
- Daemon.Initial: the `-interface` override is taken to have been made before validation, as the program does.
