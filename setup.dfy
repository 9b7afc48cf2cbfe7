/**
 * `Depo::Setup.run(verbose:)`, the `setup` workflow of `setup.rb`.
 *
 * It connects inside a `Connecting` step, writes the message of the day
 * (outside any `rescue`), prepares `/var/lib/depo`, runs the web-server
 * guard, installs and starts Caddy in two steps, writes the Caddyfile and
 * closes the session. The steps use the shared `run_step` of `common.rb`,
 * so `verbose` picks between its two branches.
 */
module Setup {
  import opened Wrappers
  import opened Text
  import opened Color
  import opened Remote
  import opened Common
  import opened Shell

  const MotdWarning: string := "WARNING! This server is managed by depo-cli (https://rubygems.org/gems/depo-cli). Manually administration of this server may cause unexpected behavior when using the `depo` command line tool to manage the server. Please proceed with caution."

  /** The commands sent before the steps, in order: the message of the day,
      the three directory preparations, then the web-server guard. */
  const Before: seq<string> := [
    "echo '" + MotdWarning + "' > /etc/motd",
    "mkdir -p /var/lib/depo/keys /var/lib/depo/vhosts",
    "chown root:root /var/lib/depo /var/lib/depo/keys /var/lib/depo/vhosts",
    "chmod 1777 /var/lib/depo /var/lib/depo/keys /var/lib/depo/vhosts",
    WebServerGuard.command
  ]

  /** The steps of `Setup.run`, in the order they run. */
  const Steps: seq<Step> := [
    Step("Installing Caddy", InstallCaddy),
    Step("Starting services", StartServices)
  ]

  /** The Caddyfile: a header line, then the import of every vhost file. */
  const Caddyfile: string := CaddyfileHeader + "\n" + CaddyfileInclude + "\n"
  const CaddyfileHeader: string := "# Managed by depo-cli"
  const CaddyfileInclude: string := "include /var/lib/depo/vhosts/*.caddy"
  const CaddyfilePath: string := "/etc/caddy/Caddyfile"

  /** `run_step` of `common.rb` in each mode, with the green and red lambdas. */
  function VerboseDecide(name: string, b: BlockResult): StepEffect {
    RunStep(name, Green, Red, true, b)
  }

  function QuietDecide(name: string, b: BlockResult): StepEffect {
    RunStep(name, Green, Red, false, b)
  }

  function Decide(verbose: bool): (string, BlockResult) -> StepEffect {
    if verbose then VerboseDecide else QuietDecide
  }

  /** Both modes go on exactly after a truthy step. */
  lemma DecideGoesOn(verbose: bool)
    ensures GoesOnWhenTrue(Decide(verbose))
  {
    forall n, b ensures GoesOn(Decide(verbose), n, b) {
      assert RunStep(n, Green, Red, verbose, b).Proceed? <==> b == Value(true);
    }
  }

  /** The Caddyfile write as `setup.rb` builds it: the content has no
      quote, and each of its two newlines becomes `'\n'`. */
  const CaddyfileCommand: string :=
    "echo '" + CaddyfileHeader + "'\\n'" + CaddyfileInclude + "'\\n'' > " + CaddyfilePath

  /** The command is the as-written `echo` of the Caddyfile, and the shell
      hands `echo` a single line: both newlines are read as the letter `n`,
      so the file holds one comment line and no `include`. */
  lemma CaddyfileWritten()
    ensures CaddyfileCommand == WriteCommand(Caddyfile, CaddyfilePath)
    ensures Unquote(Quoted(Escape(Caddyfile)), false) == Some(CaddyfileHeader + "n" + CaddyfileInclude + "n")
  {
    CaddyfileLinesPlain();
    TwoLinesWritten(CaddyfileHeader, CaddyfileInclude, CaddyfilePath);
  }

  lemma CaddyfileLinesPlain()
    ensures '\'' !in CaddyfileHeader && '\'' !in CaddyfileInclude
    ensures '\n' !in CaddyfileHeader && '\n' !in CaddyfileInclude
  {
    HeaderPlain();
    IncludePlain();
  }

  lemma HeaderPlain()
    ensures '\'' !in CaddyfileHeader && '\n' !in CaddyfileHeader
  {
  }

  lemma IncludePlain()
    ensures '\'' !in CaddyfileInclude && '\n' !in CaddyfileInclude
  {
  }

  /** Two lines, each ended by a newline, written as `setup.rb` writes the
      Caddyfile. */
  lemma TwoLinesWritten(a: string, b: string, path: string)
    requires '\'' !in a && '\'' !in b && '\n' !in a && '\n' !in b
    ensures WriteCommand(a + "\n" + b + "\n", path) == "echo '" + a + "'\\n'" + b + "'\\n'' > " + path
    ensures Unquote(Quoted(Escape(a + "\n" + b + "\n")), false) == Some(a + "n" + b + "n")
  {
    var s := a + "\n" + b + "\n";
    EscapeTwoLines(a, b);
    assert Quoted(Escape(s)) == "'" + a + "'\\n'" + b + "'\\n''";
    assert '\'' !in s;
    EscapeWritesNewlinesAsN(s);
    TrLines(a, b);
  }

  lemma EscapeTwoLines(a: string, b: string)
    requires '\'' !in a && '\'' !in b && '\n' !in a && '\n' !in b
    ensures Escape(a + "\n" + b + "\n") == a + NewlineEscape + b + NewlineEscape
  {
    var s := a + "\n" + b + "\n";
    assert '\'' !in s;
    GsubPostMatchAbsent(s, '\'', "'", "'");
    assert QuoteGsub(s) == s;
    GsubTwoLines(a, b);
  }

  lemma GsubTwoLines(a: string, b: string)
    requires '\n' !in a && '\n' !in b
    ensures Gsub(a + "\n" + b + "\n", '\n', NewlineEscape) == a + NewlineEscape + b + NewlineEscape
  {
    assert a + "\n" + b + "\n" == (a + "\n") + (b + "\n");
    GsubAppend(a + "\n", b + "\n", '\n', NewlineEscape);
    GsubLine(a);
    GsubLine(b);
  }

  lemma GsubLine(a: string)
    requires '\n' !in a
    ensures Gsub(a + "\n", '\n', NewlineEscape) == a + NewlineEscape
  {
    GsubAppend(a, "\n", '\n', NewlineEscape);
    GsubAbsent(a, '\n', NewlineEscape);
    assert Gsub("\n", '\n', NewlineEscape) == NewlineEscape by {
      assert "\n"[1..] == [];
    }
  }

  /** `tr("\n", "n")` of two lines, each ended by a newline. */
  lemma TrLines(a: string, b: string)
    requires '\n' !in a && '\n' !in b
    ensures Tr(a + "\n" + b + "\n", '\n', 'n') == a + "n" + b + "n"
  {
    TrAppend(a + "\n" + b, "\n", '\n', 'n');
    TrAppend(a + "\n", b, '\n', 'n');
    TrAppend(a, "\n", '\n', 'n');
    TrAbsent(a, '\n', 'n');
    TrAbsent(b, '\n', 'n');
  }

  /** With the escaping as written, the file the shell writes is not the
      Caddyfile: both of its newlines are lost. */
  lemma CaddyfileAsWrittenLosesNewlines()
    ensures Unquote(Quoted(Escape(Caddyfile)), false) != Some(Caddyfile)
  {
    assert Caddyfile[|CaddyfileHeader|] == '\n';
    EscapeDropsNewlines(Caddyfile);
  }

  /** No exec before the steps raised and the guard passed. */
  predicate ReadyForSteps(replies: nat -> Reply) {
    && !replies(0).Dropped? && !replies(1).Dropped? && !replies(2).Dropped? && !replies(3).Dropped?
    && GuardVerdict(Answer(replies(4)), WebServerGuard.subject) == Pass
  }

  /** The run stops before the steps, having sent a prefix of `before` (the
      message of the day, the three preparations, the guard). An error
      raised by the message-of-the-day write escapes `run`; one raised by a
      preparation, or the guard's abort, is rescued into its red message
      and exit 1. The session stays open either way. */
  function EarlyStop(replies: nat -> Reply, before: seq<string>): (t: Trace)
    requires |before| == 5 && !ReadyForSteps(replies)
    ensures 0 < |t.issued| <= |before| && t.issued == before[..|t.issued|]
    ensures t.link == LeftOpen && t.outcome != Finished
    ensures t.outcome.Uncaught? <==> replies(0).Dropped?
  {
    if replies(0).Dropped? then Trace(before[..1], Uncaught(replies(0).message), LeftOpen)
    else if replies(1).Dropped? then Trace(before[..2], Exit(Red(replies(1).message)), LeftOpen)
    else if replies(2).Dropped? then Trace(before[..3], Exit(Red(replies(2).message)), LeftOpen)
    else if replies(3).Dropped? then Trace(before[..4], Exit(Red(replies(3).message)), LeftOpen)
    else Trace(before, Exit(Red(GuardVerdict(Answer(replies(4)), WebServerGuard.subject).message)), LeftOpen)
  }

  /** The last write of the run, then `close` and "Finished."; a dropped
      connection is rescued instead. */
  function WriteLast(replies: nat -> Reply, issued: seq<string>, command: string): (t: Trace)
    ensures t.issued == issued + [command]
    ensures t.outcome == Finished <==> t.link == Closed
    ensures t.outcome == Finished <==> !replies(|issued|).Dropped?
  {
    var sent := issued + [command];
    if replies(|issued|).Dropped? then Trace(sent, Exit(Red(replies(|issued|).message)), LeftOpen)
    else Trace(sent, Finished, Closed)
  }

  /** How the steps end the run: after the last one, the file write `last`;
      otherwise `run_step` exited, or the error that escaped it is rescued,
      and the session stays open. */
  function AfterSteps(replies: nat -> Reply, before: seq<string>, steps: seq<Step>, last: string,
                      r: StepsRun): Trace
  {
    var issued := before + Issued(steps, 0, r);
    match r.end
    case StepExit(line) => Trace(issued, Exit(line), LeftOpen)
    case StepRaise(m) => Trace(issued, Exit(Red(m)), LeftOpen)
    case AllPassed => WriteLast(replies, issued, last)
  }

  /** `Setup.run` once the session is open, over its command lists. */
  function Connected(replies: nat -> Reply, before: seq<string>, steps: seq<Step>, last: string,
                     verbose: bool): Trace
    requires |before| == 5
  {
    if ReadyForSteps(replies) then
      AfterSteps(replies, before, steps, last, StepsSpec(replies, |before|, steps, 0, Decide(verbose)))
    else EarlyStop(replies, before)
  }

  /** `Setup.run(verbose:)`, from the line typed at the host prompt (`None`
      when standard input is at its end, so `strip` is called on `nil`
      outside any `rescue`). The `Connecting` step runs without `verbose`,
      so a failed connection escapes `run` as an error. */
  function RunSpec(typed: Option<string>, connect: (string, string) -> Connection, replies: nat -> Reply,
                   verbose: bool): Trace
  {
    if typed.None? then Trace([], Uncaught(NilMessage("strip")), Never)
    else
    var block := ConnectingBlock(connect(Strip(typed.value), Root));
    if block == Value(true) then Connected(replies, Before, Steps, CaddyfileCommand, verbose)
    else Trace([], Uncaught(RunStep("Connecting", Green, Red, false, block).message), Never)
  }

  /** What verbose mode prints once the steps may start: the chunks of the
      replies to the step commands that were sent. Quiet mode prints none. */
  function StepOutput(replies: nat -> Reply, from: nat, steps: seq<Step>, verbose: bool): seq<string> {
    if verbose then Shown(replies, from, from + |Issued(steps, 0, StepsSpec(replies, from, steps, 0, Decide(verbose)))|)
    else []
  }

  /** The remote output `Setup.run(verbose:)` prints. Only the step commands
      are sent with `verbose`; the message of the day, the preparations, the
      guard and the last write never print their output. */
  function OutputSpec(typed: Option<string>, connect: (string, string) -> Connection, replies: nat -> Reply,
                      verbose: bool): seq<string>
  {
    if typed.None? || ConnectingBlock(connect(Strip(typed.value), Root)) != Value(true) || !ReadyForSteps(replies)
    then []
    else StepOutput(replies, |Before|, Steps, verbose)
  }

  /** `Setup.run(verbose:)`. */
  method Run(typed: Option<string>, connect: (string, string) -> Connection, replies: nat -> Reply, verbose: bool)
    returns (t: Trace, printed: seq<string>)
    ensures t == RunSpec(typed, connect, replies, verbose)
    ensures printed == OutputSpec(typed, connect, replies, verbose)
  {
    if typed.None? {
      return Trace([], Uncaught(NilMessage("strip")), Never), [];
    }
    var host := Strip(typed.value);
    var e := RunStep("Connecting", Green, Red, false, ConnectingBlock(connect(host, Root)));
    if !e.Proceed? {
      return Trace([], Uncaught(e.message), Never), [];
    }
    var ssh := new Session(host, Root, replies);
    t, printed := RunConnected(ssh, Before, Steps, CaddyfileCommand, verbose);
  }

  /** Everything after `return unless ssh`, on the new session. */
  method RunConnected(ssh: Session, before: seq<string>, steps: seq<Step>, last: string, verbose: bool)
    returns (t: Trace, printed: seq<string>)
    requires ssh.open && ssh.issued == [] && |before| == 5 && before[4] == WebServerGuard.command
    modifies ssh
    ensures t == Connected(ssh.replies, before, steps, last, verbose)
    ensures printed == if ReadyForSteps(ssh.replies) then StepOutput(ssh.replies, |before|, steps, verbose) else []
  {
    var stop := Prepare(ssh, before);
    if stop.Some? {
      return stop.value, [];
    }
    t, printed := RunSteps(ssh, before, steps, last, verbose);
  }

  /** The message of the day, the preparation of `/var/lib/depo` and the
      web-server guard; `None` when the steps may start. */
  method Prepare(ssh: Session, before: seq<string>) returns (stop: Option<Trace>)
    requires ssh.open && ssh.issued == [] && |before| == 5 && before[4] == WebServerGuard.command
    modifies ssh
    ensures stop.None? <==> ReadyForSteps(ssh.replies)
    ensures stop.Some? ==> stop.value == EarlyStop(ssh.replies, before)
    ensures stop.None? ==> ssh.open && ssh.issued == before
  {
    var motd, _ := ssh.Exec(before[0], false);
    if motd.Fault? {
      return Some(Trace(ssh.issued, Uncaught(motd.message), LeftOpen));
    }
    stop := PrepareDirectories(ssh, before);
  }

  /** The `begin` block up to the steps: the three preparations of
      `/var/lib/depo`, then the web-server guard. */
  method PrepareDirectories(ssh: Session, before: seq<string>) returns (stop: Option<Trace>)
    requires |before| == 5 && before[4] == WebServerGuard.command && ssh.open && ssh.issued == before[..1]
    requires !ssh.replies(0).Dropped?
    modifies ssh
    ensures stop.None? <==> ReadyForSteps(ssh.replies)
    ensures stop.Some? ==> stop.value == EarlyStop(ssh.replies, before)
    ensures stop.None? ==> ssh.open && ssh.issued == before
  {
    var mkdir, _ := ssh.Exec(before[1], false);
    if mkdir.Fault? {
      return Some(Trace(ssh.issued, Exit(Red(mkdir.message)), LeftOpen));
    }
    var chown, _ := ssh.Exec(before[2], false);
    if chown.Fault? {
      return Some(Trace(ssh.issued, Exit(Red(chown.message)), LeftOpen));
    }
    var chmod, _ := ssh.Exec(before[3], false);
    if chmod.Fault? {
      return Some(Trace(ssh.issued, Exit(Red(chmod.message)), LeftOpen));
    }
    var v := CheckAbort(ssh, WebServerGuard.command, WebServerGuard.subject);
    if v.Abort? {
      return Some(Trace(ssh.issued, Exit(Red(v.message)), LeftOpen));
    }
    assert ssh.issued == before;
    stop := None;
  }

  /** The `steps.each` loop, then the file write and `close`; the lines
      the steps print in verbose mode. */
  method RunSteps(ssh: Session, before: seq<string>, steps: seq<Step>, last: string, verbose: bool)
    returns (t: Trace, printed: seq<string>)
    requires ssh.open && ssh.issued == before
    modifies ssh
    ensures t == AfterSteps(ssh.replies, before, steps, last,
                            StepsSpec(ssh.replies, |before|, steps, 0, Decide(verbose)))
    ensures printed == StepOutput(ssh.replies, |before|, steps, verbose)
  {
    DecideGoesOn(verbose);
    var end;
    end, printed := Common.RunSteps(ssh, steps, verbose, Decide(verbose));
    match end
    case StepExit(line) =>
      t := Trace(ssh.issued, Exit(line), LeftOpen);
    case StepRaise(m) =>
      t := Trace(ssh.issued, Exit(Red(m)), LeftOpen);
    case AllPassed =>
      t := Finish(ssh, last);
  }

  /** The last write, then `close`. */
  method Finish(ssh: Session, command: string) returns (t: Trace)
    requires ssh.open
    modifies ssh
    ensures t == WriteLast(ssh.replies, old(ssh.issued), command)
  {
    var r, _ := ssh.Exec(command, false);
    if r.Fault? {
      return Trace(ssh.issued, Exit(Red(r.message)), LeftOpen);
    }
    ssh.Close();
    t := Trace(ssh.issued, Finished, Closed);
  }

  /** At the end of standard input, `strip` on `nil` escapes `run` before
      the connection is tried. */
  lemma EndOfInput(connect: (string, string) -> Connection, replies: nat -> Reply, verbose: bool)
    ensures RunSpec(None, connect, replies, verbose) == Trace([], Uncaught(NilMessage("strip")), Never)
  {
  }

  /** A failed connection escapes `run` from the `Connecting` step, before
      any command and without a session. */
  lemma ConnectFailure(typed: string, connect: (string, string) -> Connection, replies: nat -> Reply,
                       verbose: bool)
    requires !connect(Strip(typed), Root).Accepted?
    ensures var c := connect(Strip(typed), Root);
            var message := if c.Rejected? then "SSH connection failed: " + c.message else c.message;
            RunSpec(Some(typed), connect, replies, verbose) == Trace([], Uncaught(message), Never)
  {
  }

  /** An accepted connection goes on to the preparations, the guard and
      the steps. */
  lemma SetupConnected(typed: string, connect: (string, string) -> Connection, replies: nat -> Reply,
                       verbose: bool)
    requires connect(Strip(typed), Root).Accepted?
    ensures RunSpec(Some(typed), connect, replies, verbose) == Connected(replies, Before, Steps, CaddyfileCommand, verbose)
  {
  }

  /** The commands go out in the order of `before` until one of them stops
      the run, and no step command is sent unless all of `before` was sent,
      the preparations did not raise and the guard passed. */
  lemma PreparationFirst(replies: nat -> Reply, before: seq<string>, steps: seq<Step>, last: string,
                         verbose: bool)
    requires |before| == 5
    ensures var t := Connected(replies, before, steps, last, verbose);
            var g := if |t.issued| < 5 then |t.issued| else 5;
            && 0 < |t.issued| && t.issued[0] == before[0]
            && t.issued[..g] == before[..g]
            && (|t.issued| >= 5 ==> t.issued[..5] == before)
            && (|t.issued| > 5 ==> ReadyForSteps(replies))
  {
    var t := Connected(replies, before, steps, last, verbose);
    if ReadyForSteps(replies) {
      assert t.issued[..5] == before;
    } else {
      assert t.issued[..|t.issued|] == t.issued;
    }
  }

  /** Once connected, the message of the day is always the first command,
      and whenever the web-server guard ran, the message of the day and the
      three changes to `/var/lib/depo` were sent before it: the guard does
      not precede every change to the server. */
  lemma MutationBeforeGuard(replies: nat -> Reply, verbose: bool)
    ensures var t := Connected(replies, Before, Steps, CaddyfileCommand, verbose);
            && t.issued[0] == Before[0]
            && (|t.issued| >= 5 ==> t.issued[..4] == Before[..4] && t.issued[4] == WebServerGuard.command)
  {
    var t := Connected(replies, Before, Steps, CaddyfileCommand, verbose);
    PreparationFirst(replies, Before, Steps, CaddyfileCommand, verbose);
    if |t.issued| >= 5 {
      assert t.issued[..4] == t.issued[..5][..4];
    }
  }

  /** `verbose` changes what is printed, not what is sent: both modes send
      the same commands, leave the session in the same state and finish on
      the same replies. */
  lemma VerboseSendsSame(replies: nat -> Reply, before: seq<string>, steps: seq<Step>, last: string)
    requires |before| == 5
    ensures var a := Connected(replies, before, steps, last, true);
            var b := Connected(replies, before, steps, last, false);
            a.issued == b.issued && a.link == b.link && (a.outcome == Finished <==> b.outcome == Finished)
  {
    if ReadyForSteps(replies) {
      DecideGoesOn(true);
      DecideGoesOn(false);
      StepsSameCommands(replies, |before|, steps, 0, Decide(true), Decide(false));
    }
  }

  /** When a step does not pass, it is the first that did not: the run has
      sent `before`, every command of the steps before it and a non-empty
      prefix of its own, and leaves the session open. */
  lemma StepFailsSent(replies: nat -> Reply, before: seq<string>, steps: seq<Step>, last: string,
                      verbose: bool)
    requires |before| == 5 && ReadyForSteps(replies)
    requires StepsSpec(replies, 5, steps, 0, Decide(verbose)).end != AllPassed
    ensures var r := StepsSpec(replies, 5, steps, 0, Decide(verbose));
            var k := r.passed;
            var t := Connected(replies, before, steps, last, verbose);
            && k < |steps| && 0 < r.sent <= |steps[k].commands|
            && t.link == LeftOpen
            && t.issued == before + (Commands(steps, 0, k) + steps[k].commands[..r.sent])
  {
    var r := StepsSpec(replies, 5, steps, 0, Decide(verbose));
    StepsHaltSent(replies, before, steps, last, verbose);
    assert Connected(replies, before, steps, last, verbose) == AfterSteps(replies, before, steps, last, r);
  }

  lemma StepsHaltSent(replies: nat -> Reply, before: seq<string>, steps: seq<Step>, last: string,
                      verbose: bool)
    requires |before| == 5 && StepsSpec(replies, 5, steps, 0, Decide(verbose)).end != AllPassed
    ensures var r := StepsSpec(replies, 5, steps, 0, Decide(verbose));
            var k := r.passed;
            var t := AfterSteps(replies, before, steps, last, r);
            && k < |steps| && 0 < r.sent <= |steps[k].commands|
            && t.link == LeftOpen
            && t.issued == before + (Commands(steps, 0, k) + steps[k].commands[..r.sent])
  {
    var r := StepsSpec(replies, 5, steps, 0, Decide(verbose));
    DecideGoesOn(verbose);
    StepsStop(replies, 5, steps, 0, Decide(verbose), r);
    RunCommandsSent(replies, 5 + |Commands(steps, 0, r.passed)|, steps[r.passed].commands);
  }

  /** The step that did not pass ends the run with the red message of the
      error its commands raised, the same in both modes, or with
      "<name> failed" when they came back `nil`, after the spinner's line
      is cleared when not verbose. */
  lemma StepFailsOutcome(replies: nat -> Reply, before: seq<string>, steps: seq<Step>, last: string,
                         verbose: bool)
    requires |before| == 5 && ReadyForSteps(replies)
    requires StepsSpec(replies, 5, steps, 0, Decide(verbose)).end != AllPassed
    ensures var r := StepsSpec(replies, 5, steps, 0, Decide(verbose));
            var k := r.passed;
            k < |steps| &&
            var c := RunCommandsSpec(replies, 5 + |Commands(steps, 0, k)|, steps[k].commands);
            Connected(replies, before, steps, last, verbose).outcome ==
              Exit(if c.result.Raised? then Red(c.result.message)
                   else (if verbose then "" else ClearLine) + Red(Red(steps[k].name) + " failed"))
  {
    var r := StepsSpec(replies, 5, steps, 0, Decide(verbose));
    StepsHaltOutcome(replies, before, steps, last, verbose);
    assert Connected(replies, before, steps, last, verbose) == AfterSteps(replies, before, steps, last, r);
  }

  lemma StepsHaltOutcome(replies: nat -> Reply, before: seq<string>, steps: seq<Step>, last: string,
                         verbose: bool)
    requires |before| == 5 && StepsSpec(replies, 5, steps, 0, Decide(verbose)).end != AllPassed
    ensures var r := StepsSpec(replies, 5, steps, 0, Decide(verbose));
            var k := r.passed;
            k < |steps| &&
            var c := RunCommandsSpec(replies, 5 + |Commands(steps, 0, k)|, steps[k].commands);
            AfterSteps(replies, before, steps, last, r).outcome ==
              Exit(if c.result.Raised? then Red(c.result.message)
                   else (if verbose then "" else ClearLine) + Red(Red(steps[k].name) + " failed"))
  {
    var r := StepsSpec(replies, 5, steps, 0, Decide(verbose));
    DecideGoesOn(verbose);
    StepsStop(replies, 5, steps, 0, Decide(verbose), r);
    var k := r.passed;
    var c := RunCommandsSpec(replies, 5 + |Commands(steps, 0, k)|, steps[k].commands);
    HaltOf(verbose, steps[k].name, c.result);
  }

  /** How a step that does not go on ends the loop, in each mode. */
  lemma HaltOf(verbose: bool, name: string, b: BlockResult)
    requires !Decide(verbose)(name, b).Proceed?
    ensures Halt(Decide(verbose)(name, b)) ==
            if b.Raised? then (if verbose then StepExit(Red(b.message)) else StepRaise(b.message))
            else StepExit((if verbose then "" else ClearLine) + Red(Red(name) + " failed"))
  {
    assert Decide(verbose)(name, b) == RunStep(name, Green, Red, verbose, b);
  }

  /** The run finishes exactly when the preparations and the guard let the
      steps start, every step passed, and the last write did not raise. */
  lemma FinishedOnlyIfAllPass(replies: nat -> Reply, before: seq<string>, steps: seq<Step>, last: string,
                              verbose: bool)
    requires |before| == 5
    ensures var r := StepsSpec(replies, 5, steps, 0, Decide(verbose));
            Connected(replies, before, steps, last, verbose).outcome == Finished <==>
            ReadyForSteps(replies) && r.end == AllPassed && !replies(5 + |Issued(steps, 0, r)|).Dropped?
  {
  }

  /** A finished run sent `before`, then every command of every step in
      order, then the last write, and closed the session; a run that did
      not finish left it open. */
  lemma FinishedSendsAll(replies: nat -> Reply, before: seq<string>, steps: seq<Step>, last: string,
                         verbose: bool)
    requires |before| == 5
    ensures var t := Connected(replies, before, steps, last, verbose);
            && (t.outcome == Finished <==> t.link == Closed)
            && (t.outcome == Finished ==> t.issued == before + Commands(steps, 0, |steps|) + [last])
  {
    var r := StepsSpec(replies, 5, steps, 0, Decide(verbose));
    if ReadyForSteps(replies) && r.end == AllPassed {
      StepsAllPassed(replies, 5, steps, 0, Decide(verbose));
      IssuedAllPassed(steps, r);
    }
  }

  /** Without `verbose`, no remote output is printed. */
  lemma QuietPrintsNothing(typed: Option<string>, connect: (string, string) -> Connection, replies: nat -> Reply)
    ensures OutputSpec(typed, connect, replies, false) == []
  {
  }

  /** A finished verbose run printed the chunks of the replies to every
      step command, in order: the Caddy installation, then the service
      start. */
  lemma FinishedShowsAllSteps(typed: string, connect: (string, string) -> Connection, replies: nat -> Reply)
    requires RunSpec(Some(typed), connect, replies, true).outcome == Finished
    ensures OutputSpec(Some(typed), connect, replies, true) == Shown(replies, 5, 5 + |InstallCaddy + StartServices|)
  {
    var r := StepsSpec(replies, 5, Steps, 0, Decide(true));
    FinishedOnlyIfAllPass(replies, Before, Steps, CaddyfileCommand, true);
    StepsAllPassed(replies, 5, Steps, 0, Decide(true));
    IssuedAllPassed(Steps, r);
    StepCommands();
  }

  /** Each line a run prints comes from a chunk of the reply to a command it
      sent after the guard, that is, to a step command. */
  lemma OutputFromSentReplies(typed: Option<string>, connect: (string, string) -> Connection, replies: nat -> Reply,
                              verbose: bool, k: nat)
    requires k < |OutputSpec(typed, connect, replies, verbose)|
    ensures var t := RunSpec(typed, connect, replies, verbose);
            exists j, i :: 5 <= j < |t.issued| && replies(j).Ran? && 0 <= i < |replies(j).chunks| && OutputSpec(typed, connect, replies, verbose)[k] == replies(j).chunks[i].data
  {
    assert RunSpec(typed, connect, replies, verbose) == Connected(replies, Before, Steps, CaddyfileCommand, verbose);
    assert OutputSpec(typed, connect, replies, verbose) == StepOutput(replies, 5, Steps, verbose);
    StepOutputFromSent(replies, Before, Steps, CaddyfileCommand, verbose, k);
  }

  /** The same, once the guard has passed, over any command lists. */
  lemma StepOutputFromSent(replies: nat -> Reply, before: seq<string>, steps: seq<Step>, last: string,
                           verbose: bool, k: nat)
    requires |before| == 5 && ReadyForSteps(replies) && k < |StepOutput(replies, 5, steps, verbose)|
    ensures var t := Connected(replies, before, steps, last, verbose);
            exists j, i :: 5 <= j < |t.issued| && replies(j).Ran? && 0 <= i < |replies(j).chunks| && StepOutput(replies, 5, steps, verbose)[k] == replies(j).chunks[i].data
  {
    var r := StepsSpec(replies, 5, steps, 0, Decide(verbose));
    var n := |Issued(steps, 0, r)|;
    var t := AfterSteps(replies, before, steps, last, r);
    assert |t.issued| >= 5 + n;
    ShownFromChunks(replies, 5, 5 + n, k);
  }

  /** The two steps send the Caddy installation, then the service start. */
  lemma StepCommands()
    ensures Commands(Steps, 0, |Steps|) == InstallCaddy + StartServices
  {
    assert Commands(Steps, 2, 2) == [];
    assert Commands(Steps, 1, 2) == StartServices;
  }
}
