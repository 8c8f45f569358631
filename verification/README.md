# Dexter, the roaming tag player, in Dafny

Dexter is a mobile agent. It lives on Jini *bailiffs* and plays tag with the other agents it finds there. Its main method, `topLevel`, runs every time the agent lands on a bailiff. That method does four things:

- It counts the jump.
- It loops until the agent migrates.
- Each pass of the loop starts, when the agent is *it* (tagged), by hunting: it asks its bailiff to tag one of the other residents.
- It then queries the lookup service until some bailiffs turn up, picks a target bailiff with `getTargetBailiff`, and then stays, stalls or jumps. A failed jump is rolled back.

A tagged agent picks the most crowded bailiff that answers, counting every resident. An untagged agent picks the least crowded bailiff among those that declare themselves safe. On the bailiff it sits on, the agent discounts itself. `setTag` refuses a tag while the agent is moving.

The model has these modules:

- **`Common`**: the `Option` type, host and agent identities, remote-call outcomes, 32-bit wrap-around, and the `Math.max(0, ·)` clamp.
- **`Selection`**: `getTargetBailiff` as a specification.
  - Each service item is a `Candidate` record holding the answers its bailiff gave to `ping`, `isSafe` and `numberOfDexters`. `None` means the call threw.
  - The score map is `Scores`, the fallbacks are `Responded` and `LastUnsafe`, and the scan is `Scan`. `Select` puts these together.
  - The lemmas prove what the selection means: which hosts are scored and with which score, and that the result is a maximum or a minimum.
- **`Hunting`**: the hunt loop over the shuffled residents, and how it ends.
- **`Discovery`**: the lookup retry loop as a specification (`FirstHit`).
- **`Lifecycle`**: the state the loop carries (`tagged`, `isMoving`, `jumpCount`, `myBailiff`, `exBailiff`) and one pure step function per phase of `topLevel`: entry, tag, hunt, branch decision, migration with rollback, one cycle, and the whole loop.
- **`Agent`**: the `Dexter` class, with the fields of the Java class and one method per operation. Each method follows the Java statements and is proved equal to the matching step function. `AskResidents`, `Discover`, `Probe`, `GetTargetBailiff` and `TopLevel` keep the source's loops and are proved through loop invariants.
- **`Scenarios`**: small worked examples:
  - an untagged agent evades to the quieter bailiff;
  - a tagged agent heads for the crowd;
  - the unsafe fallback;
  - the `99` sentinel;
  - the first acceptance ends the hunt.

Remote answers are inputs to the model:

- **Hunt:** the shuffled list from `getDexters()` and the bailiff's answer to each `tag(uuid)`.
- **Discovery:** the successive lookup answers.
- **Selection:** the shuffle of the scored bailiffs. It is any permutation of the score map's keys, stated by `IsShuffleOf`.
- **Branch decision and migration:** the answers of `numberOfDexters`, `delDexter` and `migrate`.

The loop is modelled over a finite sequence of cycles. A cycle whose lookup answers are all empty ends the run as `Starved`; the real agent would keep retrying.

Three behaviours of the code are kept as written:

- **A fault ends the hunt.** A remote fault on `tag` ends the whole hunt, because the handler sits outside the for-loop. The hunt does not go on to the next resident. See `Hunting.HuntCalls` and `Lifecycle.HuntStep`.
- **A `delDexter` fault restores a stale bailiff.** The fault skips the `exBailiff := myBailiff` update, so the rollback restores the bailiff of the *previous* jump. See `Lifecycle.DelFaultRestoresStaleHost`.
- **The `99` sentinel can hide a bailiff.** An untagged agent with no scored current bailiff starts its scan at `99`, so a bailiff whose score is 99 or more is never chosen. If every scored bailiff is that crowded, the result is null. See `Selection.UntaggedPicksMinimum` and `Scenarios.SentinelHidesCrowdedHost`.

## Model

All source paths are in `lab2v13/develop/src/tag/dexter/Dexter.java`.

| member | source | states |
|---|---|---|
| Common.Wrap32 | lab2v13/develop/src/tag/dexter/Dexter.java:279 | the result is a Java `int`: it equals the input when that fits, and otherwise differs from it by a multiple of 2^32 |
| Common.Clamp | lab2v13/develop/src/tag/dexter/Dexter.java:203-228 | `Math.max(0, x)`: never negative; keeps a non-negative input; maps a negative one to 0 |
| Agent.Dexter.constructor | lab2v13/develop/src/tag/dexter/Dexter.java:49-99 | defaults: id "anon", restraint sleep 5000 ms, retry sleep 20000 ms, 8 results, stay period 12000 ms, untagged, not moving, on no bailiff, jump count 0 |
| Agent.Dexter.SetId | lab2v13/develop/src/tag/dexter/Dexter.java:194-196 | a given id is stored; a null id becomes the empty string |
| Agent.Dexter.SetRestraintSleep | lab2v13/develop/src/tag/dexter/Dexter.java:203-205 | stores the clamp of the argument |
| Agent.Dexter.SetRetrySleep | lab2v13/develop/src/tag/dexter/Dexter.java:212-214 | stores the clamp of the argument |
| Agent.Dexter.SetStayPeriod | lab2v13/develop/src/tag/dexter/Dexter.java:216-218 | stores the clamp of the argument |
| Agent.Dexter.SetMaxResults | lab2v13/develop/src/tag/dexter/Dexter.java:226-228 | stores the clamp of the argument |
| Agent.Dexter.SetDebug | lab2v13/develop/src/tag/dexter/Dexter.java:234-236 | sets the debug flag |
| Lifecycle.TagStep | lab2v13/develop/src/tag/dexter/Dexter.java:440-455 | a request is accepted iff it clears the tag or the agent is not moving; an accepted request sets `tagged` to the argument; a refused one changes nothing; nothing but `tagged` ever changes |
| Agent.Dexter.SetTag | lab2v13/develop/src/tag/dexter/Dexter.java:440-455 | the new state and the answer are those of `TagStep` on the old state |
| Lifecycle.EnterStep | lab2v13/develop/src/tag/dexter/Dexter.java:278-279 | entering `topLevel` clears `isMoving` and adds one jump to the count, which wraps from INT32_MAX to INT32_MIN; nothing else changes |
| Agent.Dexter.Enter | lab2v13/develop/src/tag/dexter/Dexter.java:278-279 | the new state is `EnterStep` of the old |
| Hunting.Others | lab2v13/develop/src/tag/dexter/Dexter.java:298-299 | the residents other than the agent itself: no longer than the list, and containing exactly the list's members other than the agent |
| Hunting.OthersSnoc | lab2v13/develop/src/tag/dexter/Dexter.java:298-299 | filtering out the agent distributes over appending one resident |
| Hunting.HuntCalls | lab2v13/develop/src/tag/dexter/Dexter.java:296-312 | the hunt never asks about the agent itself; it asks only about residents on the list, each at most once per position |
| Hunting.HuntStopsAtFirstDecisive | lab2v13/develop/src/tag/dexter/Dexter.java:298-312 | the first other resident that does not decline ends the hunt: exactly the others up to it were asked, and the tag passed iff it accepted (a fault ends the hunt too) |
| Hunting.HuntAllDeclined | lab2v13/develop/src/tag/dexter/Dexter.java:298-305 | if every other resident declines, all of them are asked in order and the tag stays |
| Hunting.HuntPassesIff | lab2v13/develop/src/tag/dexter/Dexter.java:298-312 | the tag passes iff some other resident accepts and every other resident before it declined |
| Hunting.FirstDecisive | lab2v13/develop/src/tag/dexter/Dexter.java:298-303 | if some other resident does not decline, a first such resident exists |
| Lifecycle.HuntStep | lab2v13/develop/src/tag/dexter/Dexter.java:293-315 | the hunt runs only when the agent is tagged, sits on a bailiff, got the resident list, and the list has more than one entry; only `tagged` changes, and it is cleared exactly when the hunt ran and passed the tag; the agent is never asked about itself |
| Agent.Dexter.Hunt | lab2v13/develop/src/tag/dexter/Dexter.java:293-315 | the new state and the residents asked are those of `HuntStep` |
| Agent.Dexter.AskResidents | lab2v13/develop/src/tag/dexter/Dexter.java:298-307 | the for-loop asks exactly the residents, and yields exactly the outcome, of `HuntCalls` |
| Discovery.FirstHit | lab2v13/develop/src/tag/dexter/Dexter.java:331-348 | nothing is found iff every answer is empty; otherwise the result is the first non-empty answer |
| Agent.Dexter.Discover | lab2v13/develop/src/tag/dexter/Dexter.java:327-348 | the do-while returns the first non-empty lookup answer (`FirstHit`) after exactly that many queries; it sleeps `retrySleep` before every query but the first, and not at all when the sleep is 0 |
| Selection.Scores | lab2v13/develop/src/tag/dexter/Dexter.java:483-500 | the score map (`bailiffs`) has no more entries than there are items; which hosts it holds and with which score is stated by `ScoredHosts` and `ScoreOfHost` |
| Selection.Scan | lab2v13/develop/src/tag/dexter/Dexter.java:521-541 | the scan returns its seed or a host from the shuffled order; `ScanKeepsBest` and `ScanWinner` state which one |
| Selection.Select | lab2v13/develop/src/tag/dexter/Dexter.java:510-545 | a non-null result is the current bailiff, a scored host, or the unsafe fallback; `SelectFallbacks`, `TaggedPicksMaximum` and `UntaggedPicksMinimum` characterise it fully |
| Selection.Responded | lab2v13/develop/src/tag/dexter/Dexter.java:459-479 | `counter` is at most the number of items, and is zero iff no ping succeeded |
| Selection.LastUnsafe | lab2v13/develop/src/tag/dexter/Dexter.java:491-500 | `unsafeBfi` is null iff no answering bailiff declared itself unsafe (never, when tagged); otherwise it is the last one that did |
| Selection.ScoredHosts | lab2v13/develop/src/tag/dexter/Dexter.java:483-500 | a host is in the score map iff one of its items answered the ping and the occupancy query, and (untagged) declared itself safe |
| Selection.ScoreOfHost | lab2v13/develop/src/tag/dexter/Dexter.java:486-496 | a host's score is the occupancy of its last scorable item, minus one on the current bailiff (later `put`s overwrite) |
| Selection.SilentHostNotScored | lab2v13/develop/src/tag/dexter/Dexter.java:469-490 | a host whose ping never succeeded is never scored |
| Selection.UntaggedScoresOnlySafe | lab2v13/develop/src/tag/dexter/Dexter.java:492-496 | an untagged agent scores only bailiffs that answered the ping and declared themselves safe |
| Selection.ScoredImpliesResponded | lab2v13/develop/src/tag/dexter/Dexter.java:475-489 | a non-empty score map implies a positive `counter` |
| Selection.ScanKeepsBest | lab2v13/develop/src/tag/dexter/Dexter.java:521-541 | if no host beats the running bound, the scan keeps its seed |
| Selection.ScanWinner | lab2v13/develop/src/tag/dexter/Dexter.java:521-541 | if some host beats the bound, the scan returns the first host in the shuffled order with the best score, and that score beats the bound and every score in the order |
| Selection.PicksExtreme | lab2v13/develop/src/tag/dexter/Dexter.java:521-541 | for either mode, the scan returns an extreme of the scores. It keeps the current bailiff when that bailiff is already extreme; otherwise it returns the first extreme host in the shuffle. It returns null iff no seed exists and nothing beats the sentinel |
| Selection.SelectFallbacks | lab2v13/develop/src/tag/dexter/Dexter.java:510-515 | with no successful ping the result is null; with pings but nothing scored it is the current bailiff if there is one, else the last unsafe bailiff |
| Selection.TaggedPicksMaximum | lab2v13/develop/src/tag/dexter/Dexter.java:521-530 | tagged: the result has the largest score; a tie never displaces a scored current bailiff; otherwise the first maximum in the shuffle wins; null iff the current bailiff is unscored and every score is at most -1 |
| Selection.UntaggedPicksMinimum | lab2v13/develop/src/tag/dexter/Dexter.java:532-541 | untagged: the result has the smallest score; a tie never displaces a scored current bailiff; otherwise the first minimum in the shuffle wins; null iff the current bailiff is unscored and every score is at least 99 |
| Selection.SelectedHostAnswered | lab2v13/develop/src/tag/dexter/Dexter.java:462-545 | a result that is not the current bailiff answered the ping; if it is also unscored, it is the unsafe fallback of an untagged agent on no bailiff |
| Agent.Dexter.GetTargetBailiff | lab2v13/develop/src/tag/dexter/Dexter.java:457-545 | the probing loop and the two scan loops return exactly `Select`, the result that the lemmas above characterise |
| Agent.Dexter.Probe | lab2v13/develop/src/tag/dexter/Dexter.java:458-508 | the probing loop builds exactly the score map `Scores`, the answer count `Responded` and the unsafe fallback `LastUnsafe` |
| Lifecycle.Decide | lab2v13/develop/src/tag/dexter/Dexter.java:363-377 | no target gives "all failed"; the current bailiff as target gives "stay". For any other target, a tagged agent on a bailiff stalls iff that bailiff reports more than one resident, and leaves the cycle iff the occupancy query throws. In every other case the agent jumps, and in particular an untagged agent or one on no bailiff always jumps to a new target |
| Lifecycle.Rollback | lab2v13/develop/src/tag/dexter/Dexter.java:401-406 | the rollback goes back to `exBailiff`, stops moving, and calls `addDexter` there iff it is known |
| Lifecycle.MigrateStep | lab2v13/develop/src/tag/dexter/Dexter.java:382-406 | the agent migrates iff `delDexter` (when asked) and `migrate` both succeed. On success `exBailiff` is the old bailiff, `myBailiff` is the target, and the agent is moving. A failed `migrate` restores the old bailiff; a `delDexter` fault restores `exBailiff`. `delDexter` on the current bailiff comes first, and a failed attempt ends with `addDexter` on the restored bailiff |
| Lifecycle.MigrateFaultRestoresHost | lab2v13/develop/src/tag/dexter/Dexter.java:382-406 | a failed `migrate` leaves the agent on the bailiff it started from, registered there again, with the calls `delDexter`, `migrate`, `addDexter` |
| Lifecycle.DelFaultRestoresStaleHost | lab2v13/develop/src/tag/dexter/Dexter.java:383-406 | a `delDexter` fault on bailiff 7 after an earlier jump from 3 puts the agent back on 3, not 7 |
| Agent.Dexter.AttemptMigration | lab2v13/develop/src/tag/dexter/Dexter.java:382-417 | the new state, the remote calls and the outcome are those of `MigrateStep` |
| Lifecycle.CycleStep | lab2v13/develop/src/tag/dexter/Dexter.java:291-427 | one pass of the loop leaves the jump count alone. The tag is only ever cleared, because a remote `setTag` between the loop's statements is not modelled. A stationary agent is moving afterwards iff it migrated. A migration goes to a bailiff other than the one left, and `migrate` was called for it. The agent is never asked to tag itself |
| Lifecycle.MigratesToSelected | lab2v13/develop/src/tag/dexter/Dexter.java:363-395 | a migrating cycle moves to the bailiff `getTargetBailiff` chose after the hunt; it remembers the bailiff it left and makes exactly the calls `delDexter` (if on a bailiff) and `migrate` |
| Agent.Dexter.Cycle | lab2v13/develop/src/tag/dexter/Dexter.java:291-427 | the new state, outcome, residents asked and remote calls are those of `CycleStep` |
| Lifecycle.Run | lab2v13/develop/src/tag/dexter/Dexter.java:290-427 | the loop runs no cycle iff it has no input, and never more cycles than inputs. The jump count is unchanged. The tag is only ever cleared, because a remote `setTag` between the loop's statements is not modelled. A stationary agent is moving at the end iff it migrated, and it migrated to a bailiff other than its `exBailiff` |
| Lifecycle.Trace | lab2v13/develop/src/tag/dexter/Dexter.java:290-427 | the cycles the loop runs, each one run from the state the one before it left (the first from the state on entry); every cycle but the last looped |
| Lifecycle.RunEndsAtFirstMigration | lab2v13/develop/src/tag/dexter/Dexter.java:290-392 | the loop runs exactly the cycles of `Trace`, ends in the last one's state, and has migrated iff that last cycle migrated; it stops before using every input only after a cycle that did not loop (the `return` after `migrate`) |
| Lifecycle.TopLevelInvariants | lab2v13/develop/src/tag/dexter/Dexter.java:275-428 | one `topLevel` run counts exactly one jump, and the agent is moving at the end iff it migrated, to a new bailiff |
| Agent.Dexter.TopLevel | lab2v13/develop/src/tag/dexter/Dexter.java:275-428 | the entry step followed by the loop yields exactly `Run` from `EnterStep` of the old state |
| Scenarios.EvadeToQuieterHost | lab2v13/develop/src/tag/dexter/Dexter.java:491-541 | untagged on bailiff 1 (3 residents), with bailiff 2 holding 1 and bailiff 3 silent: bailiff 2 is chosen under every shuffle |
| Scenarios.HuntTowardsCrowd | lab2v13/develop/src/tag/dexter/Dexter.java:483-530 | tagged on bailiff 1 (2 residents), with bailiff 2 holding 5: bailiff 2 is chosen under every shuffle |
| Scenarios.UnsafeEscapeValve | lab2v13/develop/src/tag/dexter/Dexter.java:497-515 | untagged, on no bailiff, with every answering bailiff unsafe: the last unsafe one is chosen |
| Scenarios.SentinelHidesCrowdedHost | lab2v13/develop/src/tag/dexter/Dexter.java:532-541 | untagged, on no bailiff, with one safe bailiff of 99 residents: the result is null |
| Scenarios.FirstAcceptanceEndsHunt | lab2v13/develop/src/tag/dexter/Dexter.java:298-304 | with residents [self, b, a] and b accepting, only b is asked and the tag passes |

## Left out

- Jini plumbing is not modelled: creating the `ServiceDiscoveryManager`, the service template, and `SDM.terminate()`. The lookup answers are inputs.
- RMI is replaced by the answers of each remote call (`ping`, `isSafe`, `numberOfDexters`, `getDexters`, `tag`, `delDexter`, `migrate`, `addDexter`). `isSafe` is called twice for an unsafe bailiff; the model gives both calls the same answer.
- Bailiff identity (`equals` on RMI stubs, `HashMap` keys) is a plain host number. A service item that is not a `BailiffInterface` is a candidate whose ping failed.
- `Collections.shuffle`, `Random` and `UUID.randomUUID()` become parameters: the shuffled resident list, an `order` that is any permutation of the scored hosts, and the constructor's `uuid`.
- Sleeps (`snooze` for the restraint, retry and stay periods) and logging (`debugMsg`, `logging`, `printStackTrace`) are not modelled. Only the retry naps of the lookup loop are listed, by `Discover`.
- Serialisation and the actual transfer of the agent are not modelled. A successful `migrate` ends the model's run, as the `return` ends the thread.
- `main` and its argument parsing (lines 101-185) are not modelled; the setters it calls are.
- A remote `setTag` arriving concurrently with the loop is not modelled. The model applies tag changes only at the points where the loop makes them.
- The `for(;;)` loop runs over a finite sequence of cycle inputs. When a cycle's lookup answers run out while still empty, the run stops as `Starved`. The real agent retries forever.
- `maxResults` is stored but not applied: bounding the number of lookup answers is the lookup service's job.
- `Selection.Scores` does not model the `int` wrap of `numberOfDexters() - 1` when a bailiff reports `Integer.MIN_VALUE`.
- `Agent.Dexter.SetTag` takes a `bool`: `setTag(null)` would throw in the unboxing and is not modelled.
- The setters take unbounded integers for Java's `long` and `int` arguments. The clamp is exact for every value.
- `ChatMessage.java` is not part of this model.
