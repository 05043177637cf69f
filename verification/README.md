# Verified models of the proxy's protocols and tools

A Dafny 4.11 project that models the parts of this repository that are hardest to get right by
reading, and proves what they promise. `dafny verify dfyconfig.toml` checks all of it.

| files | what they model |
|---|---|
| `AuthFlow`, `AuthController` | the auth controller: a step system with one step per stretch of code between two awaits, and the class whose methods take those steps in place |
| `AuthSession`, `AuthIdentity`, `AuthGrace`, `AuthPollers`, `AuthQuiet`, `AuthSignOut`, `AuthToken`, `AuthDegrade` | what holds over its runs: sessions survive attempts, whom a sign-in signs in, the grace window, one poller at a time, what happens by itself and what it undoes: a sign-out, the wiped token, an error shown |
| `AuthRearm` | re-minting the Copilot token, one shared flight at a time; `AuthFlow` runs it inside its own steps |
| `AuthRecovery`, `RegistryRaces`, `RecoveryRounds`, `RecoverySession` | the recovery sweep over the account registry; its unlocked updates beside the flag-clears that nobody waits for; rounds of degrade and recover, and the code that makes them |
| `PairCounts`, `NullVariance`, `MannWhitney` | U by average ranks, against its definition by pair counting; the tie-corrected variance, against the mean over all choices of the first sample |
| `ImportGraph`, `Components`, `CycleRatchet` | walks, cycles and strongly connected components; union-find; the circular-import ratchet |
| `HelperCommand`, `ClaudeSettings` | printing and recognising the helper command; snapshot, merge and restore of a client's settings |
| `LineStream`, `ChunkQueue`, `QmpReplies` | line splitting and pipe draining; the async chunk queue; matching QMP replies to requests |
| `ScriptBodies`, `CiCoverage`, `Dependencies` | expanding a composite script and checking that CI runs all of it; the dependency closure |
| `Versions`, `PullRequests`, `ReleaseGates`, `ReleaseCommit`, `ReleasePrepare`, `ReleaseTag`, `ReleaseExits`, `ReleasePush`, `ReleaseOrder`, `TagCommand`, `ReleaseProtocol`, `ReleaseSystem`, `Changelog` | the release gates, the two phases of a release, and the changelog entry |
| `Text`, `Sequences`, `Options`, `Commands` | shared vocabulary |

Conventions. State that the source updates in place is a class, and each method's `ensures` equates
the new state with a step function of the old one; lemmas about runs of that function carry the
safety properties. What the network, GitHub, git, the clock and the file system answer is a
parameter or part of an event, so a theorem over runs covers every answer. Average ranks are
doubled so that they are integers, and the variance is an exact real.

Where the code falls short of what its comments say, the model follows the code, and a lemma gives
the run that shows it, beside the exact condition where there is one:

- Overlapping starts leave two live pollers, and `markSignedOut` leaves one live.
- Work under way at a sign-out undoes it: a start waiting for its code, a poller waiting for the
  model list, a mint or a completion that is then refused for good, a degrade, a switch; and a
  re-arm that mints while a stopped poller is still asking who the user is. The wiped GitHub token
  comes back from some of the same places.
- A sign-out does not stop the refresh loop, so even an ordinary one ends in an error.
- A recovery sweep that throws leaves the tokens it was trying, and a re-arm signs their owner in.
- An accepted mint clears the flag of whoever is active, unlocked and before the switch commits: the
  account just degraded can end unflagged, or active again, and two accounts can alternate. Lost flag
  writes let them alternate too.
- `check-deps --update` takes a record that is already right for one it could not rewrite, and exits 1.
- Two consumers of a chunk queue lose a wake-up.
- A request made while a `send` is unanswered gets the wrong reply.
- Disabling the proxy overwrites an edit of either setting while the other is still the proxy's.
- A breaking change on `0.0.z` is refused although the range does not cover the target.
- A forwarded argument can ask `bumpp` for a tag after `--no-tag`, and the tag is then on the branch.
- A tag deleted and made again between its making and its push is pushed from the wrong commit, with
  exit 0; and two releases that each pass their gate can push in the wrong order.

## Model

| member | source | states |
|---|---|---|
| AuthFlow.EveryChangeIsPublished | src/lib/auth/auth-controller.ts:195-213 | over every run, subscribers were last told the current union value |
| AuthSession.SessionSurvives | src/lib/auth/auth-controller.ts:161-170 | from a protected state, every interleaving of starts, expiries, restarts, cancels, failures, successes and live switches keeps the reported status pending or authenticated |
| AuthSession.ProtectedRun | src/lib/auth/auth-controller.ts:360-470 | every pending start and every live poller carries a resume identity throughout such a run |
| AuthSession.SignedInIsProtected | src/lib/auth/auth-controller.ts:241-352 | a signed-in state with no attempt under way is protected, so the two theorems above start from it |
| AuthSession.UnprotectedAttemptLosesSession | src/lib/auth/auth-controller.ts:624-633 | a concrete run: an attempt begun before the sign-in fails to an error |
| AuthSession.AbandonedAttemptsRestoreIdentity | src/lib/auth/auth-controller.ts:241-352 | attempts that never succeed leave the status pending or exactly the old identity, and signed in as it once no flow is current |
| AuthSession.CodeIsOfferedUntilItExpires | src/lib/auth/auth-controller.ts:360-400 | a code is offered until the clock reads its lifetime, in seconds, past its issue; from then on the session it was begun over is shown, or nobody |
| AuthSession.CancelledOverNobody | src/lib/auth/auth-controller.ts:428-443 | cancelled with no session to go back to, an attempt ends signed out and its poller stopped |
| AuthSession.RefusedOverNobody | src/lib/auth/auth-controller.ts:507-522 | refused with no session to go back to, it ends in the error, with its own words when the account could not be verified |
| AuthIdentity.CompletedSignIn | src/lib/auth/auth-controller.ts:495-604 | over every run: a poller that completes signs in, and shows, the very user GitHub named for its own token, connected since now |
| AuthIdentity.CompletedStore | src/lib/auth/auth-controller.ts:526-537 | over every run: the token it installs is the one its own grant gave it |
| AuthIdentity.CompletedSwitch | src/lib/auth/auth-recovery.ts:90-118 | over every run: a live switch installs the token and the name it was requested for, and signs in that name when it lands |
| AuthIdentity.CompletedSweep | src/lib/auth/auth-recovery.ts:162-192 | over every run: a recovery sweep that lands signs in the account it tried last |
| AuthIdentity.RearmSignsInTheName | src/lib/auth/auth-controller.ts:804-811 | a re-arm that works signs in the name of the session, and nobody when there is none |
| AuthIdentity.RenewalInstallsItsToken | src/lib/auth/auth-controller.ts:769-780 | a renewal installs the token it brings, and without one leaves the old |
| AuthIdentity.NobodyUnnamedIsSignedIn | src/lib/auth/auth-controller.ts:195-213 | from boot on, however attempts, switches, sweeps, re-arms and degrades interleave, whoever is signed in was named by GitHub for a token, by a caller, by the choice of an account or by the registry |
| AuthPollers.StoppedPollerStep | src/lib/auth/auth-controller.ts:473-611 | a stopped poller's next step writes the union if it was waiting for the models, and not otherwise |
| AuthPollers.StoppedPollerStaysSilent | src/lib/auth/auth-controller.ts:473-611 | a poller stopped at any other await never writes the union again itself, in any run; a mint of its that is refused for good still starts a degrade |
| AuthPollers.OneLiveExactlyWhen | src/lib/auth/auth-controller.ts:33-35 | for every run of any events, from any state with at most one live poller: there is never more than one if and only if no device code ever arrives while one is live |
| AuthPollers.IntrusionMeans | src/lib/auth/auth-controller.ts:360-427 | a code arrives beside a live poller only if another start's code arrived since its own start, or that poller was no longer the current flow's when the start began |
| AuthPollers.OrphanedBy | src/lib/auth/auth-controller.ts:636-648 | a live poller stops being the current flow's only by those who assign the union and stop no flow, and by `markSignedOut` always |
| AuthPollers.SingleFlight | src/lib/auth/auth-controller.ts:33-35 | along every run without overlapping starts and without a stop landing in the last await, the one live poller is moreover the current flow's, so that it can be stopped |
| AuthPollers.BootHasOnePoller | src/lib/auth/auth-controller.ts:33-35 | the state at boot meets the premise |
| AuthPollers.OverlappingStartsLeaveTwoPollers | src/lib/auth/auth-controller.ts:360-427 | a run with two overlapping starts that ends with two live pollers |
| AuthPollers.MarkSignedOutLeavesPollerLive | src/lib/auth/auth-controller.ts:646-648 | a run in which `markSignedOut` leaves a poller live |
| AuthSignOut.SignOutSticksExactlyWhen | src/lib/auth/auth-controller.ts:650-672 | for every state: after signing out, the union stays signed-out however everything already under way settles, the refresh loop asks and re-arms follow, if and only if no start waits for its code, no poller is live or past asking for the user unless its token needs no exchange, no switch or undecided degrade is under way, no request to Copilot is unanswered, no refresh loop goes on and no re-arm can start one, and no re-arm can mint while a poller still asks for the user's name |
| AuthSignOut.OrdinarySignOutDoesNotStick | src/lib/auth/token.ts:283-382 | so even from an ordinary session with nothing else under way a sign-out does not last: the loop it does not stop asks without a token, is refused three times and degrades |
| AuthSignOut.SignedBackInByRearm | src/lib/auth/auth-controller.ts:804-811 | a concrete run: the user signs out while a second sign-in asks who they are and a re-arm mints, and is signed in again under the second name |
| AuthToken.WipedTokenStaysWipedExactlyWhen | src/lib/auth/auth-controller.ts:526-537 | for every state: the wiped GitHub token stays wiped in all those runs if and only if no poller is storing or will store one, no start waits, no switch is at its check, no sweep tries accounts, no re-arm is at its first mint or renewing, and, when a sweep is registered, nothing that can still be refused for good is under way or can be started by itself, the refresh loop included |
| AuthPollers.StoppingStopsAll | src/lib/auth/auth-controller.ts:650-655 | with one poller at a time, signing out, cancelling or process cleanup stops all of them |
| AuthGrace.RequestInGrace | src/lib/auth/auth-controller.ts:890-895 | less than 3000 ms after a success a request to degrade changes nothing |
| AuthGrace.RequestAfterGrace | src/lib/auth/auth-controller.ts:902-925 | from 3000 ms on it stops the current flow and the loop, wipes the tokens and the name, and begins a degrade unless its error is shown already; nothing else changes |
| AuthGrace.RejectionInGrace | src/lib/auth/auth-controller.ts:890-895 | less than 3000 ms after a success each kind of rejection changes its own books only: one request fewer, one refusal counted, the poller ended |
| AuthGrace.GraceHolds | src/lib/auth/auth-controller.ts:890-895 | over every run after a success, of any kind, until the clock reads 3000 ms more: no degrade begins, and every rejection leaves union, tokens and flows as they were |
| AuthGrace.GraceEnds | src/lib/auth/auth-controller.ts:890-895 | the same rejection that changes nothing at 2999 ms takes the token at 3000 ms |
| AuthDegrade.BurstCoalesces | src/lib/auth/auth-controller.ts:886-900 | any number of failing completions in a row has the effect of one, whatever the state |
| AuthDegrade.RequestsInFlightChangeNothing | src/lib/auth/auth-controller.ts:886-900 | while a degrade is under way, requests for any errors, between any other events, can be left out of the run without changing where it ends |
| AuthDegrade.RefusalsInFlightAreAnswers | src/lib/auth/auth-controller.ts:886-900 | and completions refused meanwhile, for any reasons, might as well have been answered |
| AuthDegrade.StandsExactlyWhen | src/lib/auth/auth-controller.ts:902-967 | for every state that shows an error: it survives every quiet run in which refusals repeat its reason if and only if nothing under way writes the union or brings a name to a re-arm that mints |
| AuthDegrade.VerdictStandsExactlyWhen | src/lib/auth/auth-controller.ts:902-967 | for every accepted degrade: after every run of its settlements, with or without a recovery sweep that tries any accounts, its error is the union value and stands, if and only if nothing else was under way that writes the union and no name could reach a re-arm |
| AuthDegrade.ThrownVerdictStandsExactlyWhen | src/lib/auth/auth-controller.ts:948-961 | the same when the sweep throws: it keeps the tokens it was trying, so the error stands if and only if besides no name is there to sign in with |
| AuthDegrade.DegradeStopsPollers | src/lib/auth/auth-controller.ts:902-913 | with one poller at a time an accepted degrade stops it, so only the await it was in matters to the premise above |
| AuthDegrade.ThrownSweepLeavesTokens | src/lib/auth/auth-controller.ts:948-961 | so it does not stand once an account whose token can be exchanged has been tried |
| AuthController.AuthController.StartDeviceFlow | src/lib/auth/auth-controller.ts:360-388 | resumes or begins an attempt in place as the start step does, and replies with the status only when resuming |
| AuthController.AuthController.ResumePoller | src/lib/auth/auth-controller.ts:473-611 | runs the poller from one await to the next exactly as the step system's poller step |
| AuthController.AuthController.CancelDeviceFlow | src/lib/auth/auth-controller.ts:428-456 | stops the current flow in place and lands where the cancel step lands |
| AuthController.AuthController.MarkAuthDegraded | src/lib/auth/auth-controller.ts:886-925 | single flight, grace window and already-degraded exit, with the tokens and the user name cleared, as the degrade step |
| AuthController.AuthController.ResumeRefreshLoop | src/lib/auth/token.ts:283-382 | one answer to the loop: start over, ask again after a refusal, or stop and degrade at the third, as the step |
| AuthController.AuthController.Serve | src/lib/auth/auth-controller.ts:195-213 | any sequence of events, dispatched to the methods, ends in the state of the run; so it leaves subscribers told, keeps a protected session, and keeps one poller along disciplined sequences |
| AuthRearm.FlightsAreCheap | src/lib/auth/auth-controller.ts:757-779 | over every run no flight tries more than two mints and one renewal, whatever the number of callers |
| AuthRearm.CallersAgree | src/lib/auth/auth-controller.ts:749-755 | callers of one flight get the same answer, and it is online exactly when a mint of that flight worked |
| AuthFlow.RearmIsSharedAndCheap | src/lib/auth/auth-controller.ts:749-779 | both hold from boot on inside every run of the controller, however sign-ins and sign-outs interleave |
| AuthController.AuthController.RearmMinted | src/lib/auth/auth-controller.ts:768-780 | settles a mint in place as the step does: sign in or note the success, renew, or end |
| AuthRecovery.SweepMeans | src/lib/auth/auth-recovery.ts:162-192 | undisturbed, the sweep recovers if and only if some candidate passes both checks; it flags exactly those tried before the winner, keeps every credential, and moves the active pointer to the winner alone, whose mint worked |
| AuthRecovery.CandidatesInOrder | src/lib/auth/auth-recovery.ts:162-170 | candidates are tried in the order in which the registry lists them |
| RegistryRaces.UpdatesMean | src/lib/auth/github-token-store.ts:400-495 | each registry update, and a clear, changes one flag or the pointer as it says, and keeps every credential |
| RegistryRaces.ShelteredIsReplay | src/lib/auth/github-token-store.ts:400-495 | for any run of reads and later writes, with any number of flag-clears that nobody waits for among them: if every clear that lands does so between a read and the write that follows it, the registry ends as if there had been none |
| RegistryRaces.SwitchSettlesExactlyWhen | src/lib/auth/token.ts:64-69 | for every registry and schedule of a switch away from a degraded account: that account stays flagged and the pointer on the new one if and only if it was flagged and every clear that landed was so sheltered |
| RecoveryRounds.RoundSettlesExactlyWhen | src/lib/auth/auth-recovery.ts:99-102 | for every registry and every interleaving of a degrade and its sweep with the clears that accepted mints start: the degraded account leaves the unflagged ones and the pointer stays on the winner if and only if its flag was on disk, by this degrade or before, and every clear that landed was sheltered |
| RecoveryRounds.RoundShrinks | src/lib/auth/auth-controller.ts:902-967 | such a round strictly shrinks the set of unflagged accounts |
| RecoveryRounds.RecoveryTerminates | src/lib/auth/auth-recovery.ts:162-192 | no more such rounds in a row recover than there are unflagged accounts |
| RecoveryRounds.NoPingPong | src/lib/auth/auth-recovery.ts:162-192 | an account flagged by one of them is never the one a later one settles on |
| RecoveryRounds.DisturbedPingPong | src/lib/auth/auth-recovery.ts:99-102 | otherwise two working accounts can alternate for any number of rounds: when flag writes are lost, and also when every write works but each mint's clear lands before the switch reads |
| RecoveryRounds.PointerComesBack | src/lib/auth/github-token-store.ts:454-460 | a clear that reads before the switch and lands after it leaves the failing account active again, and unflagged |
| RecoverySession.Session.SwitchActiveAccountLive | src/lib/auth/auth-recovery.ts:90-118 | in place, with clears acting at every await: an accepted mint starts its clear, and only then the pointer's update is read and written; without one the registry is left to the clears alone |
| RecoverySession.Session.AttemptAutoRecovery | src/lib/auth/auth-recovery.ts:162-192 | the loop makes exactly the updates that trying the candidates it read makes, account by account, and its verdict and in-memory token are the sweep's |
| RecoverySession.Session.DegradeAndRecover | src/lib/auth/auth-controller.ts:902-967 | a whole round in place is a schedule of the round, so the exact condition above holds of it |
| RecoverySession.Session.ActivateAccountLive | src/lib/auth/auth-recovery.ts:129-153 | the account a user picks is switched to exactly when it is known and passes its checks; without an accepted mint no update is made |
| PairCounts.PairsAreShared | scripts/dev/measure-baseline.ts:351-353 | the two pair counts add up to twice the number of pairs |
| MannWhitney.RankFormulaIsPairCount | scripts/dev/measure-baseline.ts:334-351 | the tie-averaged rank sum, less its minimum, is the count of pairs won plus half the ties (all doubled) |
| MannWhitney.GroupCredit | scripts/dev/measure-baseline.ts:340-344 | the average rank of a tie group is one more than its credit against the whole pool |
| MannWhitney.CubeSuperadditive | scripts/dev/measure-baseline.ts:357-358 | merging two groups adds a term to the cubic sum that is never negative, and positive when neither is empty |
| MannWhitney.VarianceSign | scripts/dev/measure-baseline.ts:357-360 | the tie-corrected variance is never negative, and zero exactly when the tie sum reaches its bound |
| MannWhitney.RankPool | scripts/dev/measure-baseline.ts:337-346 | the nested loops give each value the rank the definition gives it, and tie groups with the right cubic sum |
| NullVariance.ChoicesAreAll | scripts/dev/measure-baseline.ts:357-360 | the choices are all the ways of marking so many positions, each once |
| NullVariance.DeviationsCancel | scripts/dev/measure-baseline.ts:357-358 | over all choices of the first sample the pair count is on average half of all pairs |
| NullVariance.ScoresAndTies | scripts/dev/measure-baseline.ts:357-360 | wins less losses of every observation, squared and summed, and the ties together make up the cube, however the values tie |
| NullVariance.MeanSquaredDeviation | scripts/dev/measure-baseline.ts:357-360 | the mean squared deviation of the pair count over all choices of the first sample, in closed form, for every pool |
| MannWhitney.MannWhitneyU | scripts/dev/measure-baseline.ts:326-360 | U is the smaller pair count, within half the pairs; four times the variance is the mean, over all choices of as many of the pooled observations for the first sample, of the squared deviation of the pair count from half of all pairs; and it is zero if and only if all values are equal |
| MannWhitney.UIsSymmetricAndOrderFree | scripts/dev/measure-baseline.ts:326-353 | U is the same for swapped samples and for any reordering of either |
| ImportGraph.CycleEdgesAreExact | scripts/check-deps.ts:40-52 | an edge lies inside a component if and only if some directed cycle uses it |
| ImportGraph.CycleLinksAreComponents | scripts/check-deps.ts:228-230 | two modules touched by cycle edges are linked by them, ignoring direction, if and only if they share a component |
| Components.DisjointSets.Find | scripts/check-deps.ts:233-238 | returns the representative, and compression changes no representative and keeps the forest |
| Components.DisjointSets.Union | scripts/check-deps.ts:239-242 | merges exactly the two classes |
| Components.Group | scripts/check-deps.ts:231-258 | the groups are the partition of the named modules by undirected connectivity |
| Components.PartitionIsComponents | scripts/check-deps.ts:228-230 | fed precisely the edges that close cycles, the groups are the strongly connected components those edges touch |
| CycleRatchet.FlaggedEdges | scripts/check-deps.ts:213-226 | the edges read from the report are exactly those flagged, each once |
| CycleRatchet.CheckDeps | scripts/check-deps.ts:260-365 | exit 0 on a check means no layering error and recorded edges equal to cycle edges; an update records exactly the cycle edges or refuses, and exits 0 if and only if there is no layering error, nothing new, and the written record changes; a listing gives the components |
| CycleRatchet.UpdateTwice | scripts/check-deps.ts:260-273 | an update repeated at once always exits 1, though the record it left is right |
| CycleRatchet.PassingMeansEveryCycleIsRecorded | scripts/check-deps.ts:43-52 | the check passes if and only if the recorded edges are those some directed cycle uses |
| CycleRatchet.NewCycleFlagsItsOwnEdge | scripts/check-deps.ts:51-53 | an edge that closes a new cycle is itself newly flagged |
| CycleRatchet.RecordNeverGrows | scripts/check-deps.ts:55-61 | over any history of rewrites, checks and updates the record only shrinks |
| CycleRatchet.RemovedCycleCannotReturnUnseen | scripts/check-deps.ts:55-61 | a cycle through an edge once out of the record fails every later check |
| HelperCommand.TokensOfCommand | src/lib/auth/api-key-helper.ts:145-152 | tokenizing what was printed gives back the launcher, the subcommand and the label's tokens |
| HelperCommand.PrintedIsOwnedExactlyWhen | src/lib/auth/api-key-helper.ts:119-205 | a printed command is recognised under its label if and only if its launcher is known and the label is blank or reads back as one token |
| HelperCommand.KnownLauncherExactlyWhen | src/lib/auth/api-key-helper.ts:182-206 | the known launchers are the files named `maximal`, `main.ts`, `main.js`, `bun` or `node`, with or without `.exe`, or beginning with `maximal-`, in any directory and case |
| HelperCommand.LegacyFormIsOwned | src/lib/auth/api-key-helper.ts:119-143 | the legacy flag is recognised whatever program carries it |
| HelperCommand.LoneWordIsNotOwned | src/lib/auth/api-key-helper.ts:154-174 | a single word is never recognised under a label |
| ClaudeSettings.HoldsThroughout | src/apps/claude-code/config.ts:125-155 | the first snapshot survives any applies from any binary and any edits to other keys |
| ClaudeSettings.RevertRestores | src/apps/claude-code/config.ts:157-215 | reverting puts both owned fields back to the snapshot and leaves every other setting and variable |
| ClaudeSettings.DisableRestoresExactly | src/apps/claude-code/config.ts:245-309 | after one apply that wrote, any such steps and one revert, the owned fields are the originals and the rest is the user's latest |
| ClaudeSettings.ApplyRevertIsIdentityExactlyWhen | src/apps/claude-code/config.ts:169-215 | apply then revert is the identity if and only if there was no empty or malformed `env` |
| ClaudeSettings.ApplyIsIdempotent | src/apps/claude-code/config.ts:245-273 | a second apply by the same binary writes nothing |
| ClaudeSettings.OtherBinaryHeals | src/apps/claude-code/config.ts:245-262 | a recognised command from another binary is replaced and the snapshot kept |
| ClaudeSettings.EditSurvivesExactlyWhen | src/apps/claude-code/config.ts:169-215 | any edit of either owned field, or both, after an apply survives the revert if and only if neither field is then the proxy's, so that nothing is reverted, or the edit is what stood there before |
| ClaudeSettings.RevertWithoutSnapshot | src/apps/claude-code/config.ts:203-215 | with no snapshot, reverting removes each of the two fields just when it is the proxy's, and leaves all else |
| ClaudeSettings.RevertWritesExactlyWhen | src/apps/claude-code/config.ts:281-292 | reverting does anything if and only if one of the two is |
| ClaudeSettings.ApplyWritesExactlyWhen | src/apps/claude-code/config.ts:245-273 | applying writes if and only if neither field is anyone else's and not both are as it would write them |
| ClaudeSettings.EditedHelperIsLost | src/apps/claude-code/config.ts:169-200 | a helper the user chose while the base URL is still the proxy's survives the revert if and only if it is the old one |
| ClaudeSettings.OwnApplyIsRecognisedExactlyWhen | src/apps/claude-code/config.ts:125-155 | what a binary applied is recognised as the proxy's if and only if its launcher is a known one |
| ClaudeSettings.SettingsFile.ApplyProxyBaseUrl | src/apps/claude-code/config.ts:245-273 | what is written, whether, and the reason when not; the file is untouched when not |
| ClaudeSettings.SettingsFile.RevertProxyBaseUrl | src/apps/claude-code/config.ts:281-309 | the settings are reverted, and the file is deleted exactly when nothing is left |
| LineStream.LinesMean | scripts/dev/harness/sidecar.ts:186-195 | the lines and the remainder make up the text, and none hides a newline |
| LineStream.SplitInParts | scripts/dev/harness/sidecar.ts:187-195 | splitting can stop anywhere and go on from the remainder |
| LineStream.OneCrIsDropped | scripts/dev/harness/sidecar.ts:183-186 | one carriage return is taken off the end of a line, and nothing else |
| LineStream.CrlfReadsAlike | scripts/dev/harness/sidecar.ts:183-195 | a text without other carriage returns is delivered alike whether its lines end in LF or CRLF |
| LineStream.LineSplitter.Consume | scripts/dev/harness/sidecar.ts:177-203 | for every cutting into chunks, push and flush emit the lines of the whole text, less one trailing CR, and a remainder that is not blank |
| LineStream.Drain.OnLine | scripts/dev/harness/sidecar.ts:336-342 | every line that is not a ready-line is filed before or after the first one on stdout, in order |
| LineStream.Drain.Run | scripts/dev/harness/sidecar.ts:208-220 | for every interleaving of the pipes' events, what is filed is each event's completed lines in the order of the events; each pipe's lines are those of its text in order, and boot and log lines together are all that are no ready-lines |
| LineStream.Collapse | scripts/dev/harness/sidecar.ts:608-640 | the collapsed report stands for every observation in order, by maximal runs numbered by first attempt |
| ChunkQueue.Conserved | scripts/dev/harness/sidecar.ts:249-266 | over every interleaving, delivered followed by pending is what was pushed |
| ChunkQueue.DoneComesLast | scripts/dev/harness/sidecar.ts:271-273 | `done` is answered only after the end, with everything pushed delivered |
| ChunkQueue.WaitingInVainIsStranded | scripts/dev/harness/sidecar.ts:271-277 | a call waits while a chunk or the end is available only if its wake-up was forgotten |
| ChunkQueue.StrandedForever | scripts/dev/harness/sidecar.ts:252-256 | such a call is never answered, in any run |
| ChunkQueue.NobodyStrandedExactlyWhen | scripts/dev/harness/sidecar.ts:274-277 | no call is left waiting for ever if and only if none parks over another's registered wake-up |
| ChunkQueue.OneConsumerIsServed | scripts/dev/harness/sidecar.ts:244-281 | with one consumer no call waits in vain, and every wake-up finds a chunk or the end |
| ChunkQueue.TwoConsumersLoseAWakeUp | scripts/dev/harness/sidecar.ts:274-277 | two calls at once: the first is never answered, whatever follows |
| ChunkQueue.Queue.Resume | scripts/dev/harness/sidecar.ts:270-278 | one more turn of the loop, as the step; with one consumer it never has to wait again |
| QmpReplies.ChunksDoNotMatter | scripts/dev/win11/qmp.ts:64-82 | the replies taken are those in the text, however it was cut and whatever came between |
| QmpReplies.KthReplyResolvesKthRequest | scripts/dev/win11/qmp.ts:60-94 | the k-th reply settles the k-th request, unless that one had timed out |
| QmpReplies.EachToItsOwnExactlyWhen | scripts/dev/win11/qmp.ts:60-98 | every reply reaches the request it answers if and only if at no point of the schedule a request is written while an earlier `send` is unanswered whose reply does arrive |
| QmpReplies.SendStealsARequest | scripts/dev/win11/qmp.ts:95-98 | a run in which an unanswered `send` makes a request take the wrong reply |
| QmpReplies.Monitor.OnData | scripts/dev/win11/qmp.ts:65-82 | the nested loops over a chunk take every complete line's reply, in order |
| QmpReplies.Monitor.Request | scripts/dev/win11/qmp.ts:83-94 | queues the request and writes it, as the step |
| QmpReplies.Monitor.SendOnly | scripts/dev/win11/qmp.ts:95-98 | writes without queueing, as the step |
| QmpReplies.Monitor.TimeOut | scripts/dev/win11/qmp.ts:86-88 | settles a request that is not yet answered and leaves its place in the queue, as the step |
| ScriptBodies.PartsMakeTheBody | scripts/ops/check-ci-coverage.ts:97 | the parts, joined by `&&` again, are the body; none contains `&&`, and the cuts are the leftmost |
| ScriptBodies.OnlyOneWay | scripts/ops/check-ci-coverage.ts:97 | no other list of parts has those properties |
| ScriptBodies.RefusedExactlyWhen | scripts/ops/check-ci-coverage.ts:72-73 | a body is refused if and only if it has a pipe, a semicolon or an odd number of ampersands in a row |
| ScriptBodies.MembersAreTheParts | scripts/ops/check-ci-coverage.ts:97-98 | the members are all the parts that are not blank, trimmed and in order |
| ScriptBodies.MemberOfExactlyWhen | scripts/ops/check-ci-coverage.ts:99-104 | a member is expanded if and only if it is `bun run` and a word that names a script containing `&&`; else it is that script, or itself |
| CiCoverage.Expand | scripts/ops/check-ci-coverage.ts:81-107 | the recursion terminates with the expansion of the plan, or the first failure met |
| CiCoverage.ExpansionIsTheLeaves | scripts/ops/check-ci-coverage.ts:75-107 | an expansion lists the leaves of the composite-script unfolding, all of them, each once, from left to right |
| CiCoverage.ThrowsExactlyWhen | scripts/ops/check-ci-coverage.ts:86-94 | it throws if and only if some chain of composite scripts runs into a missing, repeated or unreadable one |
| CiCoverage.Coverage | scripts/ops/check-ci-coverage.ts:190-226 | nothing is missing or stale if and only if each step runs in a job or is excluded, never both, and every exclusion names a step |
| CiCoverage.PassingCoversEveryLeaf | scripts/ops/check-ci-coverage.ts:2-29 | when the check passes, every command the script unfolds to runs in a required job or is excluded by name |
| CiCoverage.PassingRunsEveryCommand | scripts/ops/check-ci-coverage.ts:2-29 | in terms of the scripts' text: when the check passes, any command joined by `&&` in the script, or in a composite one it runs, however deep, runs in a required job or is excluded by name |
| CiCoverage.Check | scripts/ops/check-ci-coverage.ts:276-289 | exit 0 and exit 2, each exactly when: 2 if and only if the required jobs cannot be read or the script cannot be expanded |
| Dependencies.CollectDependencies | scripts/sbom.ts:81-104 | the worklist terminates with exactly the packages reachable from the manifest, despite cycles, duplicates and unreadable manifests |
| Versions.CompareVersions | scripts/ops/release-gates.ts:114-119 | the loop decides semantic-version precedence, and zero means equal |
| Versions.FormatReadsBack | scripts/ops/release-gates.ts:104-112 | every version's tag is a release tag and parses back to it |
| Versions.TripleExactlyWhen | scripts/ops/release-gates.ts:101-108 | a version reads if and only if it is three numerals with dots between them, and then as their values |
| ReleaseGates.NotAheadExactlyWhen | scripts/ops/release-gates.ts:133-141 | a bump is not ahead if and only if the target is the current version or before it |
| ReleaseGates.BreakingLeavesTheRange | scripts/ops/release-gates.ts:154-173 | a bump accepted for a breaking change is ahead and outside the caret range, for `0.0.z`, `0.y.z` and from `1.0.0` on |
| ReleaseGates.TooSmallExactlyWhen | scripts/ops/release-gates.ts:331-381 | a bump is refused for a breaking change if and only if the range covers the target, or both are `0.0.z` |
| ReleaseGates.BigEnoughExactlyWhen | scripts/ops/release-gates.ts:155-173 | a bump is big enough if and only if a breaking change leaves the minor before 1.0 and the major from 1.0 on, and a feature leaves the minor from 1.0 on |
| PullRequests.ExemptExactlyWhen | scripts/ops/release-gates.ts:272-281 | a pull request is exempt if and only if it has the override label itself, or its trimmed title is `chore`, a scope or none, `: release `, a `v` or none and three numbers |
| PullRequests.FooterExactlyWhen | scripts/ops/release-gates.ts:186-193 | a body has a breaking footer if and only if a line of it begins so, with a blank or a hyphen in the middle and a blank or a tab behind |
| PullRequests.ReleasePullRequestIsExempt | scripts/ops/release-gates.ts:259-281 | the release's own pull request is exempt, whatever the tag |
| ReleaseGates.EvaluatePrBumps | scripts/ops/release-gates.ts:331-381 | the findings are exactly those that some pull request earns, under its number, and none when the milestone is not ahead |
| ReleaseGates.EvaluateMilestone | scripts/ops/release-gates.ts:488-523 | no finding blocks if and only if the milestone is a release ahead of the current one, not empty, and every pull request has the label or the release title, or reads as one Conventional Commit that says so when it breaks and ships far enough |
| ReleaseGates.TagReads | scripts/ops/release-gates.ts:101-108 | a milestone is a release if and only if its trimmed name is a `v` and three numbers, and then of those values |
| ReleaseGates.MilestoneProtectsConsumers | scripts/ops/release-gates.ts:298-381 | in such a milestone, any pull request marked breaking by title or footer that has neither the override label nor a release title ships outside the caret range |
| ReleaseGates.HighestTag | scripts/ops/release-gates.ts:982-990 | the greatest version among the tags that are releases, or none |
| ReleaseGates.EvaluateTagOrder | scripts/ops/release-gates.ts:704-754 | nothing blocks if and only if the tag is a release, new unless pushed, and above every other release tag seen |
| ReleaseCommit.SubjectMatchesExactlyWhen | scripts/ops/release.ts:1058-1106 | the subject check accepts the release subject with or without a trailing ` (#N)`, and nothing else |
| ReleaseTag.EveryTagWasHeadOnACleanTree | scripts/ops/release.ts:1191-1269 | the run that made a tag read the tag's commit as HEAD of its checkout in one turn, and the tree as clean in a later one; at the later turn HEAD was still that commit, if nobody checked anything out there in between |
| ReleaseTag.ExitCodesAreHonest | scripts/ops/release.ts:1191-1300 | over all runs, exit 1 has made no tag, and exit 0 has made one of a name that is on the remote |
| ReleaseExits.TurnEndsExactlyWhen | scripts/ops/release.ts:1191-1300 | each turn ends the run with 1 if and only if its check refuses, with 2 if and only if its command does not work or cannot, with 0 if and only if the push goes through; else it goes on with what it read |
| ReleaseExits.ExitsExactlyWhen | scripts/ops/release.ts:1191-1300 | over all runs of any number of releasers: one has exited with a code if and only if one of its turns ended it so |
| ReleasePush.ExitZeroNamesMergedExactlyWhen | scripts/ops/release.ts:1274-1299 | over all runs, after exit 0 the remote's tag of that name is on the merged commit that was checked if and only if the last tag of that name made or fetched in the clone before the push, from this run's own making on, is |
| ReleasePush.ExitZeroNamesMerged | scripts/ops/release.ts:1274-1299 | in particular if nobody deleted the tag locally between its making and its push |
| ReleasePush.ReplacedTagIsPushed | scripts/ops/release.ts:1280-1290 | deleted and made again on another commit in between, the other one is pushed, with exit 0 |
| ReleaseOrder.TagsRise | scripts/ops/release.ts:1268-1285 | if no other run is between its gate and its push when one pushes, and nobody pushes tags by hand, each tag pushed is above all already on the remote |
| ReleaseOrder.PushRisesExactlyWhen | scripts/ops/release.ts:1268-1290 | with no hypothesis on what others do: a push that lands is above all on the remote if and only if it is above what arrived since the turn in which its gate read the remote |
| TagCommand.Repository.TagRelease | scripts/ops/release.ts:1191-1300 | the command as written, with any outcomes and anything others do before each of its commands, is a run of the step system that ends in its exit code |
| ReleaseProtocol.EveryTagNamesItsRelease | scripts/ops/release.ts:1030-1132 | every tag made, in any run of any number of releasers, names a commit whose manifest reads its version and whose subject is its release |
| ReleaseProtocol.ReleaseTagsIncrease | scripts/ops/release-gates.ts:704-754 | if no other run is between its gate and its push when one pushes, and nobody pushes tags by hand, release tags strictly increase in the order they arrive |
| ReleaseProtocol.ReleaseRisesExactlyWhen | scripts/ops/release.ts:1268-1290 | in any run, a release that is pushed is above every release on the remote if and only if none at or above it arrived since its gate read the remote |
| ReleaseProtocol.DividedReleaseTagsCanFall | scripts/ops/release.ts:1268-1290 | for any two versions one of which is less, there are a repository and a run of two releases, each past its gate, that leaves the lesser version on the remote after the greater |
| ReleasePrepare.Preparation.Prepare | scripts/ops/release.ts:880-993 | exit 0 is everything done; exit 1 is nothing done, unless `git switch` failed after switching; no tag, given that `bumpp` honours `--no-tag` and no argument asks otherwise |
| ReleasePrepare.Refusal | scripts/ops/release.ts:890-931 | what can refuse is asked in order, the first that does not pass decides between exit 1 and exit 2, and nothing is written |
| ReleasePrepare.BumppIsTold | scripts/ops/release.ts:691-721 | the whole argument list: neither to tag nor to push, what to execute, which version, the forwarded arguments as they came, and consent when nobody is asked |
| ReleasePrepare.AsksExactlyWhenForwarded | scripts/ops/release.ts:691-721 | the arguments `bumpp` gets say `--no-tag`, and some argument asks for a tag if and only if a forwarded one does |
| ReleasePrepare.ForwardedTagFollows | scripts/ops/release.ts:1370-1397 | every argument that asks for a tag comes after `--no-tag` and is a forwarded one |
| ReleaseSystem.JointRunIsATagRun | scripts/ops/release.ts:880-993 | any interleaving of any number of runs of both phases and of what others do is, to the clones and the remote, a run of the tag phase; so every theorem about its runs holds beside releases being prepared |
| ReleaseSystem.EveryNewTagNamesItsRelease | scripts/ops/release.ts:7-31 | over every such run in which nobody tags by hand or forwards an argument that asks, every tag in any clone or on the remote that was not there at the start was made by the tag phase and names its release |
| ReleaseSystem.PrepareTagsExactlyWhenAsked | scripts/ops/release.ts:691-721 | when all goes well, `prepare` leaves the tag in its clone, on the commit of its own branch, if and only if a forwarded argument asks for it |
| ReleasePrepare.ParseRest | scripts/ops/release.ts:1378-1395 | own flags dropped, the first tag that is no flag's value claimed, all else forwarded in order; refused if and only if `--release` appears |
| ReleasePrepare.ParseArgv | scripts/ops/release.ts:1370-1397 | the phase comes from the first place only; what follows it is read as above |
| Changelog.InsertDocuments | scripts/ops/release.ts:389-412 | after an insertion a version is documented if and only if it was or the entry documents it |
| Changelog.InsertKeepsTheRest | scripts/ops/release.ts:400-412 | the text above and below survives, but for the blank lines between |
| Changelog.SecondRunLeavesItAlone | scripts/ops/release.ts:460-475 | once the entry is in, planning again leaves the file as it is |

## Left out

- Network payloads, tokens, SSE, logging and message texts: parameters or not modelled; the status of a signed-in user carries the identity only.
- Reading the GitHub account registry and renewing a token from it are one step of a re-arm; persistence of the rotated credential is not part of this model. Of the background refresh and the online retry the model keeps their mints, as requests to Copilot that may be refused for good; not their timers. The refresh loop is kept as its attempts and their answers; a last attempt under way when the loop is stopped is a request like any other, and its earlier ones, which can change nothing once it is stopped, end with it.
- AuthSignOut.SignOutSticksExactlyWhen: boot and the online retry's callback, in `src/lib/start/bootstrap.ts`, call `markSignedIn` after awaits of their own; they are callers outside the model, like the user.
- RecoveryRounds.RoundSettlesExactlyWhen: a round starts with no clear under way, and races only those its own mints start; registry writes during it by other processes, by sign-ins and sign-outs, and by mints of before are not modelled (`SwitchSettlesExactlyWhen` admits clears under way that saw the degraded account as active).
- Over an error that is shown, refusals for another reason put another error there: that is the code's purpose, so the theorems about an error that stands speak of runs in which refusals repeat its reason.
- p-values, `normalCdf`, square roots and IEEE rounding: the model stops at the exact variance. `median`, `percentile` and the delta verdicts would only add easy members.
- The platform's sort in `mannWhitneyU` is a stable insertion sort; nothing depends on more than a sorted permutation.
- `check-deps`: edges are pairs, not strings joined by an arrow; the order of groups by locale is not modelled, and sorting is any function that depends on the multiset alone. Of the rewriting of the script's own source the model keeps the list: a record block whose text was edited by hand out of the generated shape is not modelled.
- Case folding in executable names is ASCII only, and text is Dafny characters: a multi-byte character cut between two chunks is not modelled, neither for the streaming decoder nor for the QMP socket, which decodes chunk by chunk.
- JSON key order in settings files; a snapshot edited by hand so that it lacks one of the two fields, which would leave an undefined value rather than none.
- A QMP line that holds JSON but not an object, which ends the process, is not modelled; nor are the connection retries.
- Reading workflow files (`jobBlock`, `runLines`) and the pattern that finds a step in a command (`runsStep`): the coverage theorems take the latter as a relation.
- The licence check and the bill of materials built from the dependency closure.
- `evaluatePr`, gate 5, prerelease warnings and the texts of findings; reading a title as a Conventional Commit is a parameter.
- Version numbers are unbounded; the source's lose precision above 2^53.
- `bumpp` is an unseen program: all that is assumed of it is that it does not tag when told `--no-tag` and no argument is a long flag beginning with `--tag` or a group of short flags with a `t` in it.
- `rebuildAndStage`, which runs inside `bumpp`, is part of the one step that commits.
- Tags that are deleted or moved on the remote: the repository promises never to.
- ReleaseProtocol.ReleaseTagsIncrease: tags pushed by hand are excluded by hypothesis; `ReleaseRisesExactlyWhen` admits them.
