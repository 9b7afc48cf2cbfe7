/**
 * `Depo::CLI`: the `start` dispatch and the `setup` workflow of `cli.rb`.
 *
 * `run_setup` connects inside a `Connecting` step, runs three guards, then
 * the five installation steps in their declared order, and closes the
 * session only when every step passed. Its own `run_step` always shows the
 * spinner and rescues the block's errors into a fatal exit.
 */
module Cli {
  import opened Wrappers
  import opened Text
  import opened Color
  import opened Remote
  import opened Common

  const InstallAsdf: seq<string> := [
    "apt update",
    "apt install -y git curl",
    "git clone https://github.com/asdf-vm/asdf.git ~/.asdf --branch v0.13.1",
    "echo \". $HOME/.asdf/asdf.sh\" >> ~/.bashrc",
    "echo \". $HOME/.asdf/completions/asdf.bash\" >> ~/.bashrc",
    "export PATH=\"$HOME/.asdf/bin:$PATH\""
  ]

  const InstallRuby: seq<string> := [
    ". $HOME/.asdf/asdf.sh",
    "asdf plugin-add ruby || true",
    "asdf install ruby latest",
    "asdf global ruby $(asdf latest ruby)"
  ]

  const InstallPuma: seq<string> := [
    ". $HOME/.asdf/asdf.sh",
    "gem install puma"
  ]

  /** The steps of `run_setup`, in the order they run. */
  const Steps: seq<Step> := [
    Step("Installing asdf", InstallAsdf),
    Step("Installing Ruby", InstallRuby),
    Step("Installing Puma", InstallPuma),
    Step("Installing Caddy", InstallCaddy),
    Step("Starting services", StartServices)
  ]

  const PumaGuard: Guard := Guard("pgrep -f puma", "Puma")
  const AsdfGuard: Guard := Guard("command -v asdf", "asdf")

  /** The probe commands of the three guards, in the order they run. */
  const GuardCommands: seq<string> := [WebServerGuard.command, PumaGuard.command, AsdfGuard.command]

  /** `CLI.run_step`: the spinner variant of `run_step` with a `rescue` around
      the block, so a raised error becomes a fatal exit as well. */
  function CliRunStep(name: string, onSuccess: string -> string, onFail: string -> string,
                      block: BlockResult): (e: StepEffect)
    ensures !e.Propagate?
    ensures e == if block.Raised? then ExitOne(ClearLine + Red(block.message))
                 else RunStep(name, onSuccess, onFail, false, block)
  {
    match block
    case Value(true) => Proceed(ClearLine + [Esc] + "[32m" + Tick + Reset + " " + onSuccess(name))
    case Value(false) => ExitOne(ClearLine + Red(onFail(name) + " failed"))
    case Raised(m) => ExitOne(ClearLine + Red(m))
  }

  /** `run_step` as `run_setup` calls it, with the green and red lambdas. */
  function CliDecide(name: string, b: BlockResult): StepEffect {
    CliRunStep(name, Green, Red, b)
  }

  /** The loop of `run_setup` goes on exactly after a truthy step. */
  lemma CliGoesOn()
    ensures GoesOnWhenTrue(CliDecide)
  {
    forall n, b ensures GoesOn(CliDecide, n, b) {
      assert CliDecide(n, b).Proceed? <==> b == Value(true);
    }
  }

  /** All three guards let the run go on. */
  predicate GuardsPass(replies: nat -> Reply) {
    && GuardVerdict(Answer(replies(0)), WebServerGuard.subject) == Pass
    && GuardVerdict(Answer(replies(1)), PumaGuard.subject) == Pass
    && GuardVerdict(Answer(replies(2)), AsdfGuard.subject) == Pass
  }

  /** `run_setup` once the session is open, over its list of steps: the
      guards, then the steps, then `close`. */
  function GuardedSetup(replies: nat -> Reply, steps: seq<Step>): Trace {
    if GuardsPass(replies) then StepsTrace(steps, StepsSpec(replies, 3, steps, 0, CliDecide))
    else GuardAbort(replies)
  }

  /** The first guard that aborts ends the run: the probes up to and
      including it were sent, and the `rescue` prints its message in red and
      exits 1 without closing the session. */
  function GuardAbort(replies: nat -> Reply): (t: Trace)
    requires !GuardsPass(replies)
    ensures t.outcome.Exit? && t.link == LeftOpen
    ensures 0 < |t.issued| <= 3 && t.issued == GuardCommands[..|t.issued|]
  {
    var v0 := GuardVerdict(Answer(replies(0)), WebServerGuard.subject);
    var v1 := GuardVerdict(Answer(replies(1)), PumaGuard.subject);
    var v2 := GuardVerdict(Answer(replies(2)), AsdfGuard.subject);
    if v0.Abort? then Trace(GuardCommands[..1], Exit(Red(v0.message)), LeftOpen)
    else if v1.Abort? then Trace(GuardCommands[..2], Exit(Red(v1.message)), LeftOpen)
    else Trace(GuardCommands, Exit(Red(v2.message)), LeftOpen)
  }

  /** How the `steps.each` loop ends `run_setup`: `close` and "Finished."
      after the last step, otherwise the exit of `run_step` or the rescue of
      an error that escaped it, with the session left open. */
  function StepsTrace(steps: seq<Step>, r: StepsRun): Trace {
    var issued := GuardCommands + Issued(steps, 0, r);
    match r.end
    case AllPassed => Trace(issued, Finished, Closed)
    case StepExit(line) => Trace(issued, Exit(line), LeftOpen)
    case StepRaise(m) => Trace(issued, Exit(Red(m)), LeftOpen)
  }

  /** `run_setup`, from the line typed at the host prompt: `None` when
      standard input is at its end, so `strip` is called on `nil` outside
      any `rescue` and the error escapes. */
  function SetupSpec(typed: Option<string>, connect: (string, string) -> Connection,
                     replies: nat -> Reply): Trace
  {
    if typed.None? then Trace([], Uncaught(NilMessage("strip")), Never)
    else
    var e := CliDecide("Connecting", ConnectingBlock(connect(Strip(typed.value), Root)));
    if e.Proceed? then GuardedSetup(replies, Steps) else Trace([], Exit(e.line), Never)
  }

  /** `run_setup`. */
  method RunSetup(typed: Option<string>, connect: (string, string) -> Connection, replies: nat -> Reply)
    returns (t: Trace)
    ensures t == SetupSpec(typed, connect, replies)
  {
    if typed.None? {
      return Trace([], Uncaught(NilMessage("strip")), Never);
    }
    var host := Strip(typed.value);
    var e := CliRunStep("Connecting", Green, Red, ConnectingBlock(connect(host, Root)));
    if !e.Proceed? {
      return Trace([], Exit(e.line), Never);
    }
    var ssh := new Session(host, Root, replies);
    t := RunGuarded(ssh, Steps);
  }

  /** The `begin … rescue` part of `run_setup`, on the new session. */
  method RunGuarded(ssh: Session, steps: seq<Step>) returns (t: Trace)
    requires ssh.open && ssh.issued == []
    modifies ssh
    ensures t == GuardedSetup(ssh.replies, steps)
  {
    var v0 := CheckAbort(ssh, WebServerGuard.command, WebServerGuard.subject);
    if v0.Abort? {
      FirstGuardAborts(ssh.replies, steps);
      return Trace(ssh.issued, Exit(Red(v0.message)), LeftOpen);
    }
    var v1 := CheckAbort(ssh, PumaGuard.command, PumaGuard.subject);
    if v1.Abort? {
      SecondGuardAborts(ssh.replies, steps);
      return Trace(ssh.issued, Exit(Red(v1.message)), LeftOpen);
    }
    var v2 := CheckAbort(ssh, AsdfGuard.command, AsdfGuard.subject);
    if v2.Abort? {
      ThirdGuardAborts(ssh.replies, steps);
      return Trace(ssh.issued, Exit(Red(v2.message)), LeftOpen);
    }
    assert GuardsPass(ssh.replies);
    t := RunGuardedSteps(ssh, steps);
  }

  /** The web server probe aborts: only it was sent. */
  lemma FirstGuardAborts(replies: nat -> Reply, steps: seq<Step>)
    requires GuardVerdict(Answer(replies(0)), WebServerGuard.subject).Abort?
    ensures GuardedSetup(replies, steps)
            == Trace([WebServerGuard.command],
                     Exit(Red(GuardVerdict(Answer(replies(0)), WebServerGuard.subject).message)), LeftOpen)
  {
  }

  /** The Puma probe aborts after the web server probe passed. */
  lemma SecondGuardAborts(replies: nat -> Reply, steps: seq<Step>)
    requires GuardVerdict(Answer(replies(0)), WebServerGuard.subject) == Pass
    requires GuardVerdict(Answer(replies(1)), PumaGuard.subject).Abort?
    ensures GuardedSetup(replies, steps)
            == Trace([WebServerGuard.command, PumaGuard.command],
                     Exit(Red(GuardVerdict(Answer(replies(1)), PumaGuard.subject).message)), LeftOpen)
  {
  }

  /** The asdf probe aborts after the other two passed. */
  lemma ThirdGuardAborts(replies: nat -> Reply, steps: seq<Step>)
    requires GuardVerdict(Answer(replies(0)), WebServerGuard.subject) == Pass
    requires GuardVerdict(Answer(replies(1)), PumaGuard.subject) == Pass
    requires GuardVerdict(Answer(replies(2)), AsdfGuard.subject).Abort?
    ensures GuardedSetup(replies, steps)
            == Trace(GuardCommands, Exit(Red(GuardVerdict(Answer(replies(2)), AsdfGuard.subject).message)), LeftOpen)
  {
  }

  /** The `steps.each` loop of `run_setup` once the guards have passed, then
      `close` and "Finished." when every step went on. */
  method RunGuardedSteps(ssh: Session, steps: seq<Step>) returns (t: Trace)
    requires ssh.open && ssh.issued == GuardCommands && GuardsPass(ssh.replies)
    modifies ssh
    ensures t == GuardedSetup(ssh.replies, steps)
  {
    CliGoesOn();
    var end, _ := RunSteps(ssh, steps, false, CliDecide);
    match end
    case AllPassed =>
      ssh.Close();
      t := Trace(ssh.issued, Finished, Closed);
    case StepExit(line) =>
      t := Trace(ssh.issued, Exit(line), LeftOpen);
    case StepRaise(m) =>
      t := Trace(ssh.issued, Exit(Red(m)), LeftOpen);
  }

  /** What `CLI.start` was asked to do by its first argument. */
  datatype Command = TestCommand | SetupCommand | UnknownCommand

  function Dispatch(args: seq<string>): (c: Command)
    ensures c == TestCommand <==> args != [] && args[0] == "test"
    ensures c == SetupCommand <==> args != [] && args[0] == "setup"
  {
    if args == [] then UnknownCommand
    else if args[0] == "test" then TestCommand
    else if args[0] == "setup" then SetupCommand
    else UnknownCommand
  }

  /** `CLI.start(args)`. */
  function StartSpec(args: seq<string>, typed: Option<string>, connect: (string, string) -> Connection,
                     replies: nat -> Reply): Trace
  {
    match Dispatch(args)
    case TestCommand => Trace([], Return("Test successful"), Never)
    case SetupCommand => SetupSpec(typed, connect, replies)
    case UnknownCommand => Trace([], Exit("Unknown command"), Never)
  }

  method Start(args: seq<string>, typed: Option<string>, connect: (string, string) -> Connection,
               replies: nat -> Reply) returns (t: Trace)
    ensures t == StartSpec(args, typed, connect, replies)
  {
    var c := Dispatch(args);
    match c
    case TestCommand =>
      t := Trace([], Return("Test successful"), Never);
    case SetupCommand =>
      t := RunSetup(typed, connect, replies);
    case UnknownCommand =>
      t := Trace([], Exit("Unknown command"), Never);
  }

  /** A failed connection ends the run inside the `Connecting` step: the red
      message and exit 1, with no command sent and no session. */
  lemma SetupConnectFailure(typed: string, connect: (string, string) -> Connection, replies: nat -> Reply)
    requires !connect(Strip(typed), Root).Accepted?
    ensures var c := connect(Strip(typed), Root);
            var message := if c.Rejected? then "SSH connection failed: " + c.message else c.message;
            SetupSpec(Some(typed), connect, replies) == Trace([], Exit(ClearLine + Red(message)), Never)
  {
  }

  /** An accepted connection goes on to the guards and the steps. */
  lemma SetupConnected(typed: string, connect: (string, string) -> Connection, replies: nat -> Reply)
    requires connect(Strip(typed), Root).Accepted?
    ensures SetupSpec(Some(typed), connect, replies) == GuardedSetup(replies, Steps)
  {
  }

  /** At the end of standard input, `strip` on `nil` escapes `run_setup`
      before the connection is tried. */
  lemma SetupEndOfInput(connect: (string, string) -> Connection, replies: nat -> Reply)
    ensures SetupSpec(None, connect, replies) == Trace([], Uncaught(NilMessage("strip")), Never)
  {
  }

  /** The guards run first, web server, Puma, then asdf, each only after the
      one before passed, and no step command is sent unless all three
      passed. */
  lemma GuardsFirst(replies: nat -> Reply, steps: seq<Step>)
    ensures var t := GuardedSetup(replies, steps);
            var g := if |t.issued| < 3 then |t.issued| else 3;
            && t.issued[..g] == GuardCommands[..g]
            && (|t.issued| > 3 ==> GuardsPass(replies))
  {
    var t := GuardedSetup(replies, steps);
    if GuardsPass(replies) {
      assert t.issued[..3] == GuardCommands;
    }
  }

  /** The run finishes exactly when it closes the session. */
  lemma ClosesOnlyWhenFinished(replies: nat -> Reply, steps: seq<Step>)
    ensures var t := GuardedSetup(replies, steps);
            t.outcome == Finished <==> t.link == Closed
  {
  }

  /** The steps' commands, step after step in their declared order. */
  lemma AllStepCommands()
    ensures Commands(Steps, 0, |Steps|) ==
            InstallAsdf + InstallRuby + InstallPuma + InstallCaddy + StartServices
  {
    assert Commands(Steps, 5, 5) == [];
    assert Commands(Steps, 4, 5) == StartServices;
    assert Commands(Steps, 3, 5) == InstallCaddy + StartServices;
  }

  /** The run finishes only when every guard passed and every step passed. */
  lemma SetupFinishedOnlyIfAllPass(replies: nat -> Reply, steps: seq<Step>)
    ensures GuardedSetup(replies, steps).outcome == Finished <==>
            GuardsPass(replies) && StepsSpec(replies, 3, steps, 0, CliDecide).end == AllPassed
  {
  }

  /** A finished run sent the guards' probes and then every command of every
      step, in order, and closed the session. */
  lemma SetupFinished(replies: nat -> Reply, steps: seq<Step>)
    requires GuardsPass(replies) && StepsSpec(replies, 3, steps, 0, CliDecide).end == AllPassed
    ensures GuardedSetup(replies, steps) == Trace(GuardCommands + Commands(steps, 0, |steps|), Finished, Closed)
  {
    var r := StepsSpec(replies, 3, steps, 0, CliDecide);
    StepsAllPassed(replies, 3, steps, 0, CliDecide);
    IssuedAllPassed(steps, r);
  }

  /** When a step does not pass, it is the first that did not: the run has
      sent the guards, every command of the steps before it and a non-empty
      prefix of its own, and exits with "<name> failed" when its commands
      came back `nil`, or with the error they raised. */
  lemma SetupStepFails(replies: nat -> Reply, steps: seq<Step>)
    requires GuardsPass(replies) && StepsSpec(replies, 3, steps, 0, CliDecide).end != AllPassed
    ensures var r := StepsSpec(replies, 3, steps, 0, CliDecide);
            var k := r.passed;
            var t := GuardedSetup(replies, steps);
            && k < |steps| && 0 < r.sent <= |steps[k].commands|
            && t.link == LeftOpen
            && t.issued == GuardCommands + (Commands(steps, 0, k) + steps[k].commands[..r.sent])
            && var c := RunCommandsSpec(replies, 3 + |Commands(steps, 0, k)|, steps[k].commands);
               t.outcome == Exit(ClearLine + Red(if c.result.Raised? then c.result.message
                                                 else Red(steps[k].name) + " failed"))
  {
    var r := StepsSpec(replies, 3, steps, 0, CliDecide);
    StepsTraceHalt(replies, steps);
    assert GuardedSetup(replies, steps) == StepsTrace(steps, r);
  }

  /** The same, stated on how the loop ends. */
  lemma StepsTraceHalt(replies: nat -> Reply, steps: seq<Step>)
    requires StepsSpec(replies, 3, steps, 0, CliDecide).end != AllPassed
    ensures var r := StepsSpec(replies, 3, steps, 0, CliDecide);
            var k := r.passed;
            var t := StepsTrace(steps, r);
            && k < |steps| && 0 < r.sent <= |steps[k].commands|
            && t.link == LeftOpen
            && t.issued == GuardCommands + (Commands(steps, 0, k) + steps[k].commands[..r.sent])
            && var c := RunCommandsSpec(replies, 3 + |Commands(steps, 0, k)|, steps[k].commands);
               t.outcome == Exit(ClearLine + Red(if c.result.Raised? then c.result.message
                                                 else Red(steps[k].name) + " failed"))
  {
    var r := StepsSpec(replies, 3, steps, 0, CliDecide);
    CliGoesOn();
    StepsStop(replies, 3, steps, 0, CliDecide, r);
    var k := r.passed;
    var c := RunCommandsSpec(replies, 3 + |Commands(steps, 0, k)|, steps[k].commands);
    RunCommandsSent(replies, 3 + |Commands(steps, 0, k)|, steps[k].commands);
    CliHaltOf(steps[k].name, c.result);
  }

  /** A step of `run_setup` that does not go on always ends the loop with
      an exit, never with an escaping error. */
  lemma CliHaltOf(name: string, b: BlockResult)
    requires !CliDecide(name, b).Proceed?
    ensures Halt(CliDecide(name, b)) ==
            StepExit(ClearLine + Red(if b.Raised? then b.message else Red(name) + " failed"))
  {
  }
}
