# depo-cli, modelled in Dafny

depo-cli is a Ruby command-line tool that prepares a server over SSH. This
project models its core:

- the step runner of `Depo::Utils::Common`: `ssh_exec!`, `run_remote_commands`,
  `check_abort`, `run_step`;
- the `depo setup` workflow of `Depo::CLI.run_setup`, with its own `run_step`,
  and the `start` dispatch;
- the `Depo::Setup.run(verbose:)` workflow;
- the app-creation flow `Depo::AppsCreate.run`;
- the apps menu `Depo::Apps.run` and `show_menu`;
- the ANSI colour wrappers.

The remote server is a script. The n-th exec request on a session gets
`replies(n)`: a refused exec (`ssh_exec!` returns `nil`), a run whose stdout
and stderr chunks arrive in callback order, or a dropped transport (a
`Net::SSH::Exception` is raised). Connecting is a function of host and user
that returns a session, a `Net::SSH::Exception`, or another error.

A session is a class, `Remote.Session`. It records every command sent and
whether it is still open. Each workflow is a method on that session. Each
method is proved equal to a specification function that returns a
`Common.Trace`:

- the commands sent, in order;
- how the run ended: finished, printed a line and exited 1, printed a line
  and returned, let an error escape, or was interrupted at a prompt;
- whether the session was never opened, left open, or closed.

`exit 1` is an outcome here, not a process exit. The lemmas state the
ordering, short-circuit and abort rules over all replies.

Three behaviours of the code worth knowing:

- **Sessions left open.** In `cli.rb` and `setup.rb`, an abort after
  connecting leaves the session open. `apps.rb` never closes its session.
- **asdf commands.** The `.bashrc` command of the asdf phase is not sent
  when the clone command raises. It is sent when the clone returns `nil`.
- **Hostname check.** Its second lookahead, `(?!\d+:[^:]+:[^:]+:[^:]+:)`,
  can never reject an answer, because the character class already excludes
  `:`. `AppsCreate.ColonCheckRedundant` proves this.

`Text` holds the Ruby string operations the tool relies on: `strip`,
`split`, `reject(&:empty?)`, `tr`, one-character `gsub`, `reverse` and
`File.basename`. `Shell` holds POSIX quote removal for a single word. The
file writes are judged against it.

## Model

| member | source | states |
|---|---|---|
| Color.Green | lib/depo/utils/color.rb:6-8 | the green text is the input plus a fixed 14-character overhead |
| Color.Red | lib/depo/utils/color.rb:10-12 | the red text is the input plus a fixed 9-character overhead |
| Color.UnwrapGreen | lib/depo/utils/color.rb:6-8 | removing the green prefix and the reset suffix gives back the text |
| Color.UnwrapRed | lib/depo/utils/color.rb:10-12 | removing the red prefix and the reset suffix gives back the text |
| Color.ColorsInjective | lib/depo/utils/color.rb:6-12 | different texts never get the same green or red colouring |
| Color.GreenIsNotRed | lib/depo/utils/color.rb:6-12 | a green text never equals a red text |
| Remote.Session.constructor | lib/depo/cli.rb:36 | a new session is open and has sent nothing |
| Remote.Session.Exec | lib/depo/utils/common.rb:49-68 | `ssh_exec!` appends the command to the sent log; gives `nil` for a refused exec, the concatenated chunk data for a run, and the error for a dropped transport; prints the chunks only when verbose, and verbose changes nothing else |
| Remote.Session.Close | lib/depo/setup.rb:46 | closing leaves the log unchanged and the session closed |
| Remote.Printed | lib/depo/utils/common.rb:56-63 | verbose mode prints each chunk's data, one per chunk, in order |
| Remote.CombinedAppend | lib/depo/utils/common.rb:56-63 | the output of two runs of callbacks is the output of the first followed by that of the second |
| Remote.CombinedHasChunk | lib/depo/utils/common.rb:56-63 | each chunk's data sits in the output right after the data of the chunks before it |
| Remote.Answer | lib/depo/utils/common.rb:49-68 | `ssh_exec!` returns `nil` exactly for a refused exec, output exactly for a run, and raises the error of a dropped transport |
| Remote.Combined | lib/depo/utils/common.rb:56-63 | the output is the data of every stdout and stderr chunk joined in callback order; `CombinedAppend` and `CombinedHasChunk` state it |
| Common.RunStep | lib/depo/utils/common.rb:8-36 | goes on exactly when the block's result is true; a false result exits with "<on_fail> failed" in red; a raised error exits with its red message when verbose and propagates otherwise |
| Common.GuardVerdict | lib/depo/utils/common.rb:38-43 | a guard passes exactly when the output strips to empty; non-empty output aborts with "<name> detected on server. Aborting."; a transport error aborts with its message |
| Common.CheckAbort | lib/depo/utils/common.rb:38-43 | sends exactly the probe command and returns the verdict on its reply |
| Common.RunCommandsSent | lib/depo/utils/common.rb:45-47 | at most the whole list is sent; a true result means all of it was; any other result comes from a sent command |
| Common.OutputRunBounds | lib/depo/utils/common.rb:46 | the counted replies all give output, and the reply right after them does not |
| Common.RunCommandsShortCircuit | lib/depo/utils/common.rb:45-47 | `all?` sends commands until the first `nil` or error, sends nothing after it, and returns false or raises; when every command gives output, even empty, all are sent and the result is true; an empty list sends nothing and is true |
| Common.EmptyOutputIsSuccess | lib/depo/utils/common.rb:46 | commands that all answer with empty output succeed and are all sent |
| Common.Shown | lib/depo/utils/common.rb:56-63 | the lines verbose mode prints for a range of exec requests: the chunks of each reply that ran, in order |
| Common.ShownAppend | lib/depo/utils/common.rb:56-63 | the lines printed for consecutive ranges of requests are concatenated in order |
| Common.ShownFromChunks | lib/depo/utils/common.rb:56-63 | every printed line is the data of a chunk of a reply in the range that ran |
| Common.ExecShown | lib/depo/utils/common.rb:46 | each `ssh_exec!` of `run_remote_commands` sends its command, answers from its reply, and adds that reply's chunks to the lines printed in verbose mode |
| Common.RunRemoteCommands | lib/depo/utils/common.rb:45-47 | the loop's result and the commands it sent are those of the short-circuit specification; in verbose mode it prints the chunks of the replies to exactly the commands it sent, and in quiet mode nothing |
| Common.IssuedAllPassed | lib/depo/cli.rb:49-53 | a loop that passed every step sent all of their commands |
| Common.StepsAllPassed | lib/depo/cli.rb:49-53 | the step loop ends with every step passed exactly when it passed all of them |
| Common.StepsStop | lib/depo/cli.rb:49-53 | a stopped loop was stopped by the first step that did not pass, after the commands of the steps before it and a non-empty part of its own; that step's `run_step` decided how the loop ends |
| Common.StepsSameCommands | lib/depo/setup.rb:39-43 | two `run_step` variants that go on after the same results send the same commands and pass the same steps |
| Common.RunSteps | lib/depo/setup.rb:39-43 | the `steps.each` loop ends as its specification says and sends exactly the commands `Issued` names; with `verbose` forwarded it prints the chunks of the replies to those commands, and in quiet mode nothing |
| Common.ConnectingBlock | lib/depo/cli.rb:34-40 | the `Connecting` block is truthy exactly when the connection is accepted and is never false; a `Net::SSH::Exception` is re-raised with its message at the end |
| Cli.CliRunStep | lib/depo/cli.rb:71-101 | `CLI.run_step` never lets an error propagate: a raised error exits with the cleared line and its red message; otherwise it behaves as the spinner branch of the shared `run_step` |
| Cli.CliGoesOn | lib/depo/cli.rb:86-93 | `run_setup`'s steps go on exactly after a true result |
| Cli.GuardAbort | lib/depo/cli.rb:45-47 | the first aborting guard ends the run with exit 1 and the session left open, having sent the probes up to it in order |
| Cli.RunSetup | lib/depo/cli.rb:19-61 | `run_setup` produces the trace of its specification: at the end of standard input the `strip` on `nil` escapes before anything is sent; otherwise the connection, the guards, the steps and `close` |
| Cli.RunGuarded | lib/depo/cli.rb:43-60 | the guards, the steps and `close` produce the trace of the specification on the new session |
| Cli.Dispatch | lib/depo/cli.rb:7-17 | "test" and "setup" are recognised exactly when they are the first argument; anything else is unknown |
| Cli.Start | lib/depo/cli.rb:7-17 | `start` prints "Test successful", runs the setup, or prints "Unknown command" and exits 1 |
| Cli.SetupConnectFailure | lib/depo/cli.rb:34-41 | a failed connection exits 1 with "SSH connection failed: …" (or the other error's message) in red, before any command and without a session |
| Cli.SetupConnected | lib/depo/cli.rb:34-43 | an accepted connection goes on to the guards and steps |
| Cli.SetupEndOfInput | lib/depo/cli.rb:21-22 | at the end of standard input, `strip` on `nil` escapes `run_setup` with no command sent and no session |
| Cli.GuardsFirst | lib/depo/cli.rb:44-48 | the guards run web server, Puma, asdf, each after the one before; no step command is sent unless all three passed |
| Cli.ClosesOnlyWhenFinished | lib/depo/cli.rb:54-60 | the run finishes exactly when it closes the session |
| Cli.AllStepCommands | lib/depo/cli.rb:24-30 | the steps send asdf, Ruby, Puma, Caddy, then the service start commands, in that order |
| Cli.SetupFinishedOnlyIfAllPass | lib/depo/cli.rb:49-55 | the run finishes exactly when every guard and every step passed |
| Cli.SetupFinished | lib/depo/cli.rb:49-55 | a finished run sent the probes, then every step command in order, and closed the session |
| Cli.SetupStepFails | lib/depo/cli.rb:49-60 | a failing step is the first that failed; the run sent the probes, the earlier steps' commands and part of its own, leaves the session open, and exits with "<name> failed" or the raised error |
| Setup.DecideGoesOn | lib/depo/setup.rb:40 | in both modes the steps go on exactly after a true result |
| Setup.CaddyfileWritten | lib/depo/setup.rb:44-45 | the command sent is the `echo` the code builds, with each newline escaped as `'\n'`; the shell hands `echo` one line, the header, `n`, the `include` line, `n`, so the whole file is a comment and no vhost is included |
| Setup.CaddyfileAsWrittenLosesNewlines | lib/depo/setup.rb:44-45 | with the escaping as written, the shell does not hand `echo` the Caddyfile content |
| Setup.EarlyStop | lib/depo/setup.rb:31-38 | a run that stops before the steps sent a prefix of motd, the three preparations and the guard; only a motd error escapes; the session stays open and the run does not finish |
| Setup.WriteLast | lib/depo/setup.rb:44-47 | the final write is sent last; the run finishes and closes exactly when it did not raise |
| Setup.Run | lib/depo/setup.rb:10-53 | `Setup.run` produces the trace of its specification: at the end of standard input the `strip` on `nil` escapes before anything is sent; otherwise the connection, the preparations, the guard, the steps and, last, the Caddyfile command as the code builds it; the remote output it prints is that of `OutputSpec`, the chunks of the replies to the step commands in verbose mode |
| Setup.RunConnected | lib/depo/setup.rb:31-52 | everything after the connection produces the specified trace, and prints the step output only once the guard has passed |
| Setup.Prepare | lib/depo/setup.rb:31-38 | the steps may start exactly when nothing raised and the guard passed, and then exactly motd, the preparations and the guard were sent |
| Setup.PrepareDirectories | lib/depo/setup.rb:35-38 | the same, for the preparations and the guard after motd |
| Setup.RunSteps | lib/depo/setup.rb:39-47 | the loop, the write and `close` produce the specified trace; the lines printed are the chunks of the replies to the step commands sent, in verbose mode only, and the write prints nothing |
| Setup.Finish | lib/depo/setup.rb:45-47 | the write and `close` end the run as `WriteLast` says |
| Setup.ConnectFailure | lib/depo/setup.rb:22-29 | a failed connection escapes `run` with "SSH connection failed: …" or the other error, before any command and without a session |
| Setup.SetupConnected | lib/depo/setup.rb:22-29 | an accepted connection goes on to the preparations, the guard, the steps and the as-written Caddyfile command |
| Setup.EndOfInput | lib/depo/setup.rb:12-13 | at the end of standard input, `strip` on `nil` escapes `run` with no command sent and no session |
| Setup.PreparationFirst | lib/depo/setup.rb:31-38 | commands go out in the order motd, mkdir, chown, chmod, guard; no step command is sent unless all of them were and the guard passed |
| Setup.MutationBeforeGuard | lib/depo/setup.rb:32-38 | motd is always the first command, and the three changes to `/var/lib/depo` precede the web-server guard whenever it runs |
| Setup.VerboseSendsSame | lib/depo/setup.rb:39-43 | verbose and quiet runs send the same commands, leave the session in the same state, and finish on the same replies |
| Setup.StepFailsSent | lib/depo/setup.rb:39-51 | a failing step is the first that failed; the run sent the preparations, the earlier steps' commands and part of its own, and leaves the session open |
| Setup.StepsHaltSent | lib/depo/setup.rb:39-51 | the same, stated on the loop's end |
| Setup.StepFailsOutcome | lib/depo/setup.rb:39-51 | a failing step exits with the raised error's red message in both modes, or with "<name> failed", after the cleared line when quiet |
| Setup.StepsHaltOutcome | lib/depo/setup.rb:39-51 | the same, stated on the loop's end |
| Setup.FinishedOnlyIfAllPass | lib/depo/setup.rb:39-47 | the run finishes exactly when preparations and guard let the steps start, every step passed, and the Caddyfile write did not raise |
| Setup.QuietPrintsNothing | lib/depo/setup.rb:41 | without `verbose`, `run` prints no remote output |
| Setup.FinishedShowsAllSteps | lib/depo/setup.rb:39-43 | a finished verbose run printed the chunks of the replies to every step command, the Caddy installation and then the service start |
| Setup.OutputFromSentReplies | lib/depo/setup.rb:32-45 | every line `run` prints comes from a chunk of the reply to a command it sent after the guard; the message of the day, the preparations, the guard and the write print nothing |
| Setup.StepOutputFromSent | lib/depo/setup.rb:39-43 | once the guard has passed, every line the step loop prints is the data of a chunk of the reply to a step command the run sent |
| Setup.FinishedSendsAll | lib/depo/setup.rb:39-47 | the run finishes exactly when it closes; a finished run sent the preparations, every step command and then the write |
| Setup.StepCommands | lib/depo/setup.rb:15-18 | the steps send the Caddy installation, then the service start |
| Shell.Escape | lib/depo/setup.rb:45 | the body escaped as Ruby evaluates `gsub("'", "'\\''").gsub("\n", "'\\n'")` holds no raw newline |
| Shell.QuoteGsub | lib/depo/setup.rb:45 | the first replacement as Ruby runs it, `GsubPostMatch` with a quote on each side; `EscapeLength` and `EscapeMangleQuote` state what it does |
| Shell.EscapeLength | lib/depo/setup.rb:45 | as Ruby evaluates it, the first `gsub` grows each quote by one character plus all of the text after it (`\'` is the post-match); the second grows each newline, copied ones included, by three |
| Shell.EscapeUnchanged | lib/depo/apps_create.rb:106 | a text with neither a quote nor a newline is sent as it is |
| Shell.EscapeLosesNewline | lib/depo/apps_create.rb:106 | as written, the file written from "a\nb" holds "anb" |
| Shell.EscapeMangleQuote | lib/depo/apps_create.rb:106 | as written, a quote is followed by a copy of the rest of the body: "a'b" is escaped as "a'b'b" and written as "abb" |
| Shell.EscapeWritesNewlinesAsN | lib/depo/apps_create.rb:106 | as written, every body without quotes reaches its file with each newline turned into the letter `n`, and nothing else changed |
| Shell.EscapeDropsNewlines | lib/depo/apps_create.rb:106 | as written, no body with a newline reaches its file intact |
| Shell.WriteCommand | lib/depo/apps_create.rb:106 | the `echo '<body>' > <path>` command the code sends, with the body escaped as written; `EscapeWritesNewlinesAsN` states what the file gets |
| Shell.QuoteBody | lib/depo/apps_create.rb:106 | the intended escaping trades only quotes for `'\''` and leaves a quote-free body as it is |
| Shell.Unquote | lib/depo/apps_create.rb:106 | the shell's quote removal of the `echo` word, which the writes are judged against, never lengthens the word |
| Shell.QuoteBodyRoundTrip | lib/depo/apps_create.rb:106 | quote-only escaping inside single quotes reads back as exactly the body, newlines included |
| Shell.IntendedWriteCommandWritesBody | lib/depo/apps_create.rb:106 | with the intended escaping, the `echo` command's word reads back as exactly the body |
| Text.Strip | lib/depo/cli.rb:22 | `strip` gives a text that is empty exactly when the input is all whitespace, and otherwise starts and ends with a non-space |
| Text.StripSurrounded | lib/depo/cli.rb:22 | `strip` removes exactly the whitespace around a word |
| Text.SplitJoin | lib/depo/apps.rb:47 | joining the fields of a split gives back the input |
| Text.SplitThenReject | lib/depo/apps.rb:47 | after `reject(&:empty?)`, Ruby's `split` and a split that keeps trailing empty fields agree |
| Text.NonEmpty | lib/depo/apps.rb:47 | `reject(&:empty?)` keeps only non-empty elements of its input |
| Text.NonEmptyKeeps | lib/depo/apps_create.rb:76 | `reject(&:empty?)` keeps every non-empty element |
| Text.NonEmptyKeepsOrder | lib/depo/apps_create.rb:76 | `reject(&:empty?)` keeps the order of its input: it distributes over concatenation |
| Text.Tr | lib/depo/apps_create.rb:24 | `tr` keeps the length and replaces exactly the given character |
| Text.GsubLength | lib/depo/setup.rb:45 | for a replacement without back-references, such as the newline replacement `'\n'`, each replaced character trades one character for the replacement |
| Text.GsubCount | lib/depo/setup.rb:45 | for a replacement without back-references, the pattern only survives where the replacement brings it back |
| Text.Gsub | lib/depo/setup.rb:45 | `gsub` of one character by a replacement without back-references; `GsubLength`, `GsubCount` and `GsubAbsent` state it |
| Text.GsubAbsent | lib/depo/setup.rb:45 | a text without the pattern comes out of a literal `gsub` unchanged |
| Text.GsubPostMatch | lib/depo/setup.rb:45 | `gsub` of one character by a replacement holding `\'`: each occurrence becomes the text before the `\'`, all of the text after the occurrence, then the text after the `\'` |
| Text.GsubPostMatchLength | lib/depo/setup.rb:45 | with `\'` (the post-match) in the replacement, each occurrence grows by the replacement's other characters plus all of the text after it |
| Text.GsubPostMatchAbsent | lib/depo/setup.rb:45 | a text without the pattern comes out of the post-match `gsub` unchanged |
| Text.Reverse | lib/depo/apps_create.rb:78 | `reverse` keeps the length and mirrors the positions |
| Text.ReversedHas | lib/depo/apps_create.rb:78 | the reversal holds only elements of the original |
| Text.HasReversed | lib/depo/apps_create.rb:78 | the reversal holds every element of the original |
| Text.BasenameOfFile | lib/depo/apps.rb:48 | `File.basename(dir/name.ext, ext)` is the name |
| AppsCreate.ColonCheckRedundant | lib/depo/apps_create.rb:19 | a hostname is exactly a non-empty word of letters, digits, dots and dashes that is not a dotted quad; the colon lookahead rejects nothing |
| AppsCreate.ValidHostname | lib/depo/apps_create.rb:19 | the prompt's validation: both lookaheads, then the character class over the whole answer; `ColonCheckRedundant` and `DottedQuadRefused` state what it accepts |
| AppsCreate.DottedQuad | lib/depo/apps_create.rb:19-21 | four digit groups between three dots, the form both the lookahead and the re-check refuse |
| AppsCreate.HostChars | lib/depo/apps_create.rb:19 | a word of the hostname class `[a-zA-Z0-9.-]+` holds no quote, slash, colon or newline |
| AppsCreate.DottedQuadRefused | lib/depo/apps_create.rb:19-21 | every dotted quad of digit groups is refused |
| AppsCreate.FirstValid | lib/depo/apps_create.rb:16-23 | the prompt settles on the first valid answer the operator typed: it is valid and every earlier answer was not; none exactly when every answer is invalid |
| AppsCreate.PromptHostname | lib/depo/apps_create.rb:16-23 | the prompt loop returns the first valid answer |
| AppsCreate.UserOf | lib/depo/apps_create.rb:24 | the user name has the hostname's length and no dash |
| AppsCreate.UserOfHost | lib/depo/apps_create.rb:24 | only dashes change, and the hostname can be read back from the user name |
| AppsCreate.StripAll | lib/depo/apps_create.rb:76 | each line is stripped, and the order and count are kept |
| AppsCreate.SelectVersions | lib/depo/apps_create.rb:77 | a line is kept exactly when it is a `2.x` or `3.x` version |
| AppsCreate.SelectKeepsOrder | lib/depo/apps_create.rb:77 | the version filter keeps the listing's order |
| AppsCreate.IsRubyVersion | lib/depo/apps_create.rb:77 | a line matching `^(2|3)\.\d+(\.\d+)*$` is never empty |
| AppsCreate.SelectSkipsEmpty | lib/depo/apps_create.rb:76-77 | rejecting the empty lines before the version filter changes nothing |
| AppsCreate.OfferedInOrder | lib/depo/apps_create.rb:76-78 | the menu offers the stripped listing's matching lines in reverse listing order |
| AppsCreate.Offered | lib/depo/apps_create.rb:76-78 | the menu entries from the listing; `OfferedInOrder`, `OfferedFromListing` and `ListedIsOffered` state them |
| AppsCreate.OfferedFromListing | lib/depo/apps_create.rb:76-78 | only versions from the stripped listing are offered |
| AppsCreate.ListedIsOffered | lib/depo/apps_create.rb:76-78 | every version in the stripped listing is offered |
| AppsCreate.Chosen | lib/depo/apps_create.rb:78 | the version menu picks an offered entry, the one moved to while the list lasts |
| AppsCreate.ChosenVersion | lib/depo/apps_create.rb:76-78 | a version picked at the menu is always a Ruby 2 or 3 version |
| AppsCreate.VhostPathNamesHost | lib/depo/apps_create.rb:98 | the vhost file's basename without `.caddy` is the hostname |
| AppsCreate.VhostPath | lib/depo/apps_create.rb:98 | the vhost file of a hostname; `VhostPathNamesHost` states that its basename is the hostname |
| AppsCreate.VhostContent | lib/depo/apps_create.rb:99 | the site block of a hostname; `VhostWrite` states what reaches the file |
| AppsCreate.VhostWrite | lib/depo/apps_create.rb:98-106 | for a valid hostname, the write as written hands `echo` the vhost content with both newlines turned into `n`, which is not the content; the intended escaping hands it over intact |
| AppsCreate.HeadCommands | lib/depo/apps_create.rb:42-76 | the five commands before the version menu: user, clone, `.bashrc`, plugin, listing |
| AppsCreate.TailCommands | lib/depo/apps_create.rb:83-123 | the four commands after it: Ruby install, vhost probe, the vhost write as the code builds it, Caddy restart |
| AppsCreate.UserCheck | lib/depo/apps_create.rb:42-45 | user creation passes exactly when the result is not `nil` and does not mention "already exists"; a transport error fails with its message |
| AppsCreate.AsdfCheck | lib/depo/apps_create.rb:59-63 | the asdf phase passes exactly when both results are not `nil` |
| AppsCreate.Require | lib/depo/apps_create.rb:84-86 | a phase that only checks for `nil` passes exactly on output |
| AppsCreate.VhostCheck | lib/depo/apps_create.rb:102-105 | the probe passes exactly when its stripped output is not "exists" |
| AppsCreate.PhaseFailed | lib/depo/apps_create.rb:48-53 | a failed phase returns with the session closed |
| AppsCreate.FirstPhases | lib/depo/apps_create.rb:40-72 | the user and asdf phases stop the run after a prefix of at most three commands, closed and returned, exactly when one of them fails |
| AppsCreate.RunFirstPhases | lib/depo/apps_create.rb:40-72 | the two phases behave as their specification says |
| AppsCreate.FirstPhasesStop | lib/depo/apps_create.rb:40-72 | the user phase stops after one command exactly when it fails; a raised clone stops after two; a passing asdf phase saw no raise |
| AppsCreate.Head | lib/depo/apps_create.rb:40-76 | the versions are listed exactly when the first phases pass, the plugin command does not raise, and the listing gives output; otherwise a prefix was sent, and the session is closed exactly when at most three commands went out |
| AppsCreate.RunHead | lib/depo/apps_create.rb:40-76 | the commands before the menu behave as their specification says |
| AppsCreate.ListingPhase | lib/depo/apps_create.rb:75-76 | the plugin and listing commands' errors reach the outer rescues and leave the session open |
| AppsCreate.RunListing | lib/depo/apps_create.rb:75-76 | the plugin and listing behave as their specification says |
| AppsCreate.Tail | lib/depo/apps_create.rb:80-135 | the phases after the menu send a prefix of their commands and close the session; the run finishes exactly when all four were sent and the restart gave output; the write is sent only after Ruby installed and the probe passed |
| AppsCreate.RunTail | lib/depo/apps_create.rb:80-95 | the Ruby phase and the phases after it behave as their specification says |
| AppsCreate.VhostPhases | lib/depo/apps_create.rb:97-135 | after Ruby, the write is sent exactly when the probe passed |
| AppsCreate.RunVhost | lib/depo/apps_create.rb:97-118 | the vhost phases behave as their specification says |
| AppsCreate.WritePhases | lib/depo/apps_create.rb:106-135 | the write and restart finish exactly when both were sent and the restart gave output |
| AppsCreate.RunWrite | lib/depo/apps_create.rb:106-135 | the write and restart behave as their specification says |
| AppsCreate.VhostExistsStopsWrite | lib/depo/apps_create.rb:102-105 | an existing vhost file stops the phase after the probe, before the write, with "Vhost file already exists at …" |
| AppsCreate.Run | lib/depo/apps_create.rb:13-145 | `AppsCreate.run` produces the trace of its specification, with the vhost write as the code builds it and an empty version menu ending in "Error: …" whatever the pick |
| AppsCreate.RunAtHost | lib/depo/apps_create.rb:26-37 | connecting and running on the session produce the specified trace |
| AppsCreate.RunConnected | lib/depo/apps_create.rb:39-138 | everything after the connection produces the specified trace |
| AppsCreate.RunMenu | lib/depo/apps_create.rb:78-138 | an empty version menu returns "Error: …" before any key is read; otherwise an interrupt, or the pick and the phases after it, produce the specified trace |
| AppsCreate.MenuTrace | lib/depo/apps_create.rb:78-138 | after a non-empty menu, the tail's commands (with the as-written vhost write) follow the head's in order and the session ends closed; an empty menu or an interrupt leaves it open after exactly the head |
| AppsCreate.PhasesInOrder | lib/depo/apps_create.rb:39-138 | whatever the replies, the commands sent are a prefix of user, asdf, listing, Ruby, probe, the as-written vhost write, restart for the chosen version; past the menu the session ends closed |
| AppsCreate.FinishedSentAll | lib/depo/apps_create.rb:120-138 | a finished run sent every command in order, the as-written vhost write included, and closed the session |
| AppsCreate.ConnectedEnds | lib/depo/apps_create.rb:39-145 | once connected, the flow finishes, returns, or is interrupted; only the plugin and listing errors, an empty menu and an interrupt leave the session open |
| AppsCreate.ConnectFailureSendsNothing | lib/depo/apps_create.rb:26-37 | a failed connection sends nothing and returns without exiting |
| AppsCreate.NeverExits | lib/depo/apps_create.rb:13-145 | the flow never exits with status 1 and lets no error escape |
| Apps.HostFor | lib/depo/apps.rb:29-37 | the config's host wins; otherwise the typed line, stripped, is used; there is no host when input has ended |
| Apps.AppNames | lib/depo/apps.rb:47-48 | there is one name per non-empty line of the listing |
| Apps.AppNamesOfVhosts | lib/depo/apps.rb:47-48 | a listing of vhost files written for valid hostnames gives back exactly those hostnames, in the listing's order |
| Apps.Choices | lib/depo/apps.rb:80-82 | "Create New App" comes first, then the app names in order; with no apps it is alone; no app entry is the create entry |
| Apps.Selected | lib/depo/apps.rb:85 | the cycling menu picks an entry, the one moved to while the list lasts |
| Apps.SelectionCycles | lib/depo/apps.rb:85 | moving once round the whole menu comes back to the same entry |
| Apps.ShowMenu | lib/depo/apps.rb:76-94 | `show_menu` ends as its specification says |
| Apps.Run | lib/depo/apps.rb:14-55 | `Apps.run` produces the visit of its specification |
| Apps.RunListed | lib/depo/apps.rb:39-54 | the listing and the menu produce the specified visit; the session's log is the visit's |
| Apps.ConnectFailureExits | lib/depo/apps.rb:42-53 | a `Net::SSH::Exception` while connecting exits 1 before the listing is sent, without a session and without the create flow |
| Apps.OnlyTheListing | lib/depo/apps.rb:39-54 | the menu's session sends at most the listing command and is never closed |
| Apps.CreateDispatch | lib/depo/apps.rb:86-93 | the create flow runs exactly when "Create New App" is selected, with the trace `AppsCreate.run` gives; the menu then ends normally unless the flow was interrupted; the entry is the default, and the one the cycle returns to |
| Apps.AppOnlyEchoed | lib/depo/apps.rb:90-93 | picking an app sends nothing more, ends normally, and the app is one of the names |

## Left out

- Spinner threads, frame cycling and sleeping (`lib/depo/utils/spinner.rb`, `cli.rb:72-81`, `cli.rb:103-111`) are concurrency and timing. A spinner is modelled as handing back its block's result. The missing `ensure` in `with_spinner`, which leaves the thread running after a raised error, is not modelled.
- `run_step` in `common.rb:26` calls `Depo::Utils::Spinner.with_spinner`, which is an instance method of the mixin. It is modelled as the intended call that returns the block's result.
- Broken helper resolution is modelled as intended. `Setup` extends `Color`, whose methods are singleton methods, and never includes `Common`. `green`, `red` and `run_step` in `setup.rb` are taken to be `Color.green`, `Color.red` and `Common#run_step`. The undefined `red` at `apps.rb:52` is taken to be `Color.red`.
- Net::SSH internals (`open_channel`, `exec` callbacks, `loop`) are replaced by the scripted replies. Remote exit statuses are not inspected by the code and are not modelled.
- Prompt interface:
  - `TTY::Prompt` is not modelled. The hostname prompt is the sequence of answers the operator types; it settles on the first valid one. A menu choice is a number of down-key presses, or an interrupt.
  - The error the prompt library raises for an empty version menu is the parameter `emptyMenu`. It is raised while the default entry is checked, before any key is read, so the operator's pick does not matter there.
  - Page sizes, help texts and the hostname prompt's validation message are UI.
- Printed output: `puts` and `print` lines are not modelled, except the line that ends a run (the message before an exit or a return) and the chunks `ssh_exec!` prints in verbose mode, which `Setup.Run` returns. The backtrace printed at `apps_create.rb:144` is also not modelled.
- Configuration discovery (`Pathname.pwd.ascend`, `YAML.load_file`, `apps.rb:20-29`) is file-system I/O. Its result is the optional `host` value. `lib/depo/up.rb` is not part of this model.
- Process exit: `exit 1` is the outcome `Exit(line)` and an interrupt is `Interrupted`. Neither terminates anything.
- `Common.NilMessage` fixes the wording of Ruby's `NoMethodError` for a method called on `nil`. Other Ruby versions word it differently.
- The command lists (`cli.rb:143-185`, `setup.rb:55-118`) are constants. The second pair of definitions in `setup.rb` is identical to the first.
- Apps.AppNames: its own contract states only the number of names. The names themselves are stated, for listings of vhost files, by `Apps.AppNamesOfVhosts`.

## Findings

| source | as written | input that shows it | evidently intended | confidence | as-written member | corrected member |
|---|---|---|---|---|---|---|
| lib/depo/apps_create.rb:106, lib/depo/setup.rb:45 | the body of `echo '…'` is escaped with `gsub("'", "'\\''").gsub("\n", "'\\n'")`; the shell reads `'\n'` as "close quote, the letter n, reopen quote", so every newline of the file becomes `n` | a body of "a\nb" is written as "anb"; the Caddyfile becomes the single comment line "# Managed by depo-clininclude /var/lib/depo/vhosts/*.caddyn", and every vhost file loses its newlines | replace quotes only, and keep newlines inside the single quotes, so the file holds exactly the body | high; not executed | Shell.EscapeLosesNewline | Shell.QuoteBodyRoundTrip |
| lib/depo/apps_create.rb:106, lib/depo/setup.rb:45 | in the same first `gsub`, Ruby reads `\'` in the replacement `"'\\''"` as the post-match, so each quote becomes a quote, the whole rest of the body, and a quote, instead of `'\''` | a body of "a'b" is escaped as "a'b'b" and written as "abb" | trade each quote for `'\''` (a block or `"'\\\\''"` as the replacement), so the file holds exactly the body | high; not executed | Shell.EscapeMangleQuote | Shell.QuoteBodyRoundTrip |
