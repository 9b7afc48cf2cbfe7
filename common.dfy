/**
 * The step sequencer shared by the workflows (`Depo::Utils::Common`):
 * `run_step`, `check_abort`, `run_remote_commands`, and the `steps.each`
 * loop that `cli.rb` and `setup.rb` both run over their step lists.
 *
 * `exit 1` is not a process exit here: `run_step` returns the line it prints
 * before exiting, and the workflows turn it into an outcome.
 */
module Common {
  import opened Wrappers
  import opened Text
  import opened Color
  import opened Remote

  /** What the block given to `run_step` did: returned a value (only its
      Ruby truthiness matters) or raised an error. */
  datatype BlockResult = Value(truthy: bool) | Raised(message: string)

  /** What `run_step` does after the block: prints `line` and goes on, prints
      `line` and exits with status 1, or lets the block's error propagate. */
  datatype StepEffect = Proceed(line: string) | ExitOne(line: string) | Propagate(message: string)

  /** Carriage return, erase the line, cursor to column 1: what replaces the
      spinner's line. */
  const ClearLine: string := "\r" + [Esc] + "[2K" + [Esc] + "[1G"
  const Tick: string := "\U{2714}"

  /** `run_step(name, on_success:, on_fail:, verbose:) { block }`. The spinner
      around the block only redraws the terminal and hands back the block's
      result, so the animated branch sees the block's result directly. */
  function RunStep(name: string, onSuccess: string -> string, onFail: string -> string,
                   verbose: bool, block: BlockResult): (e: StepEffect)
    ensures e.Proceed? <==> block == Value(true)
    ensures e.Propagate? <==> !verbose && block.Raised?
    ensures e.Propagate? ==> e.message == block.message
    ensures block == Value(false) ==> e.ExitOne? && EndsWith(e.line, Red(onFail(name) + " failed"))
    ensures verbose && block.Raised? ==> e == ExitOne(Red(block.message))
  {
    if verbose then
      match block
      case Value(true) => Proceed(Green(Tick + " " + onSuccess(name)))
      case Value(false) => ExitOne(Red(onFail(name) + " failed"))
      case Raised(m) => ExitOne(Red(m))
    else
      match block
      case Value(true) => Proceed(ClearLine + [Esc] + "[32m" + Tick + Reset + " " + onSuccess(name))
      case Value(false) => ExitOne(ClearLine + Red(onFail(name) + " failed"))
      case Raised(m) => Propagate(m)
  }

  /** The message of the `NoMethodError` raised when a method is called on
      `nil` (the wording of Ruby 3.4). */
  function NilMessage(callee: string): string {
    "undefined method '" + callee + "' for nil"
  }

  /** Whether a guard lets the run go on, or the message of the error it
      raises. */
  datatype Verdict = Pass | Abort(message: string)

  /** `check_abort` once the command's result is known: `result.strip.empty?`
      passes, anything else raises. A `nil` result raises too, since `strip`
      is called on it. */
  function GuardVerdict(r: ExecResult, subject: string): (v: Verdict)
    ensures v == Pass <==> r.Output? && AllSpace(r.text)
    ensures r.Output? && v.Abort? ==> v.message == subject + " detected on server. Aborting."
    ensures r.Fault? ==> v == Abort(r.message)
  {
    match r
    case Nil => Abort(NilMessage("strip"))
    case Fault(m) => Abort(m)
    case Output(s) => if Strip(s) != [] then Abort(subject + " detected on server. Aborting.") else Pass
  }

  /** `check_abort(ssh, cmd, name)`. */
  method CheckAbort(ssh: Session, cmd: string, subject: string) returns (v: Verdict)
    requires ssh.open
    modifies ssh
    ensures ssh.open && ssh.issued == old(ssh.issued) + [cmd]
    ensures v == GuardVerdict(Answer(old(ssh.Next())), subject)
  {
    var r, _ := ssh.Exec(cmd, false);
    v := GuardVerdict(r, subject);
  }

  /** What `run_remote_commands` returns, and how many of its commands it
      sent (always a prefix of the list). */
  datatype CommandsRun = CommandsRun(result: BlockResult, sent: nat)

  /** `Array(cmds).all? { |cmd| ssh_exec!(ssh, cmd) }` against the replies
      numbered from `from` on. `all?` stops at the first falsy result, which
      is `nil` only: an empty output string is truthy in Ruby. A true result
      means every command was sent. */
  function RunCommandsSpec(replies: nat -> Reply, from: nat, cmds: seq<string>): (r: CommandsRun)
    decreases |cmds|
  {
    if cmds == [] then CommandsRun(Value(true), 0)
    else
      match replies(from)
      case Refused => CommandsRun(Value(false), 1)
      case Dropped(m) => CommandsRun(Raised(m), 1)
      case Ran(_) =>
        var rest := RunCommandsSpec(replies, from + 1, cmds[1..]);
        CommandsRun(rest.result, rest.sent + 1)
  }

  /** At most the whole list is sent; a true result means all of it was, and
      any other result comes from a command that was sent. */
  lemma {:induction false} RunCommandsSent(replies: nat -> Reply, from: nat, cmds: seq<string>)
    ensures var r := RunCommandsSpec(replies, from, cmds);
      && r.sent <= |cmds|
      && (r.result == Value(true) ==> r.sent == |cmds|)
      && (r.result != Value(true) ==> 0 < r.sent)
    decreases |cmds|
  {
    if cmds != [] && replies(from).Ran? {
      RunCommandsSent(replies, from + 1, cmds[1..]);
    }
  }

  /** How many of the `n` replies numbered from `from` on give output before
      the first one that does not. */
  function OutputRun(replies: nat -> Reply, from: nat, n: nat): (k: nat)
    ensures k <= n
    decreases n
  {
    if n == 0 || !replies(from).Ran? then 0 else 1 + OutputRun(replies, from + 1, n - 1)
  }

  /** The replies counted by `OutputRun` all run their command, and the one
      right after them, if counted among the `n`, does not. */
  lemma {:induction false} OutputRunBounds(replies: nat -> Reply, from: nat, n: nat, j: nat)
    ensures var k := OutputRun(replies, from, n);
            && (from <= j < from + k ==> replies(j).Ran?)
            && (j == from + k < from + n ==> !replies(j).Ran?)
    decreases n
  {
    if n > 0 && replies(from).Ran? && j > from {
      OutputRunBounds(replies, from + 1, n - 1, j);
    }
  }

  /** What `ssh_exec!` counts as for `all?` under a reply: `nil` is false,
      any output (even empty) is true, and a dropped transport raises. */
  function Stopper(reply: Reply): BlockResult {
    match reply
    case Refused => Value(false)
    case Dropped(m) => Raised(m)
    case Ran(_) => Value(true)
  }

  /** The run in one piece: with `k` the number of leading commands that give
      output (empty output included), all commands are sent and the result is
      true when `k` covers the list; otherwise exactly the first `k + 1` are
      sent and the `k + 1`-th one's `nil` gives false, its error is raised. An
      empty list sends nothing and yields true. */
  lemma {:induction false} RunCommandsShortCircuit(replies: nat -> Reply, from: nat, cmds: seq<string>)
    ensures var k := OutputRun(replies, from, |cmds|);
            RunCommandsSpec(replies, from, cmds) ==
              if k == |cmds| then CommandsRun(Value(true), k)
              else CommandsRun(Stopper(replies(from + k)), k + 1)
    decreases |cmds|
  {
    if cmds != [] && replies(from).Ran? {
      RunCommandsShortCircuit(replies, from + 1, cmds[1..]);
      var k' := OutputRun(replies, from + 1, |cmds| - 1);
      assert OutputRun(replies, from, |cmds|) == k' + 1;
      assert from + 1 + k' == from + (k' + 1);
    }
  }

  /** Commands that all answer with empty output succeed and are all sent. */
  lemma EmptyOutputIsSuccess(replies: nat -> Reply, from: nat, cmds: seq<string>)
    requires forall j :: from <= j < from + |cmds| ==> replies(j) == Ran([])
    ensures RunCommandsSpec(replies, from, cmds) == CommandsRun(Value(true), |cmds|)
  {
    RunCommandsShortCircuit(replies, from, cmds);
    OutputRunBounds(replies, from, |cmds|, from + OutputRun(replies, from, |cmds|));
  }

  /** The lines verbose mode prints for the exec requests numbered from
      `from` up to (not including) `to`: the data of each chunk of every
      reply that ran, in order. A refused or dropped exec prints nothing. */
  function Shown(replies: nat -> Reply, from: nat, to: nat): seq<string>
    decreases to - from
  {
    if to <= from then []
    else (if replies(from).Ran? then Printed(replies(from).chunks) else []) + Shown(replies, from + 1, to)
  }

  /** Printing up to `mid` and then up to `to` is printing up to `to`. */
  lemma {:induction false} ShownAppend(replies: nat -> Reply, from: nat, mid: nat, to: nat)
    requires from <= mid <= to
    ensures Shown(replies, from, to) == Shown(replies, from, mid) + Shown(replies, mid, to)
    decreases mid - from
  {
    if from < mid {
      ShownAppend(replies, from + 1, mid, to);
    }
  }

  /** Printing for one more request adds that reply's chunks. */
  lemma ShownStep(replies: nat -> Reply, from: nat, to: nat)
    requires from <= to
    ensures Shown(replies, from, to + 1)
            == Shown(replies, from, to) + (if replies(to).Ran? then Printed(replies(to).chunks) else [])
  {
    ShownAppend(replies, from, to, to + 1);
    assert Shown(replies, to, to + 1)
           == (if replies(to).Ran? then Printed(replies(to).chunks) else []) + Shown(replies, to + 1, to + 1);
  }

  /** Every printed line is the data of a chunk of a reply, in the range,
      that ran. */
  lemma {:induction false} ShownFromChunks(replies: nat -> Reply, from: nat, to: nat, k: nat)
    requires k < |Shown(replies, from, to)|
    ensures exists j, i :: from <= j < to && replies(j).Ran? && 0 <= i < |replies(j).chunks| && Shown(replies, from, to)[k] == replies(j).chunks[i].data
    decreases (to as int) - (from as int)
  {
    var head := if replies(from).Ran? then Printed(replies(from).chunks) else [];
    assert Shown(replies, from, to) == head + Shown(replies, from + 1, to);
    if k < |head| {
      assert Shown(replies, from, to)[k] == replies(from).chunks[k].data;
    } else {
      ShownFromChunks(replies, from + 1, to, k - |head|);
      var j, i :| from + 1 <= j < to && replies(j).Ran? && 0 <= i < |replies(j).chunks|
                  && Shown(replies, from + 1, to)[k - |head|] == replies(j).chunks[i].data;
      assert Shown(replies, from, to)[k] == replies(j).chunks[i].data;
    }
  }

  /** `ssh_exec!(ssh, cmd, verbose:)` inside `run_remote_commands`: the
      lines printed since request `from` grow by those of this reply. */
  method ExecShown(ssh: Session, cmd: string, verbose: bool, ghost from: nat, printed: seq<string>)
    returns (out: ExecResult, printed': seq<string>)
    requires ssh.open && from <= |ssh.issued|
    requires printed == if verbose then Shown(ssh.replies, from, |ssh.issued|) else []
    modifies ssh
    ensures ssh.open && ssh.issued == old(ssh.issued) + [cmd]
    ensures out == Answer(ssh.replies(|old(ssh.issued)|))
    ensures printed' == if verbose then Shown(ssh.replies, from, |ssh.issued|) else []
  {
    ShownStep(ssh.replies, from, |ssh.issued|);
    var p;
    out, p := ssh.Exec(cmd, verbose);
    printed' := printed + p;
  }

  /** `run_remote_commands(ssh, cmds, verbose:)`: also returns the lines the
      verbose mode prints. */
  method RunRemoteCommands(ssh: Session, cmds: seq<string>, verbose: bool)
    returns (result: BlockResult, printed: seq<string>)
    requires ssh.open
    modifies ssh
    ensures ssh.open
    ensures var r := RunCommandsSpec(ssh.replies, |old(ssh.issued)|, cmds);
            r.sent <= |cmds| && result == r.result && ssh.issued == old(ssh.issued) + cmds[..r.sent]
    ensures printed == if verbose then Shown(ssh.replies, |old(ssh.issued)|, |ssh.issued|) else []
  {
    ghost var from := |ssh.issued|;
    ghost var k := OutputRun(ssh.replies, from, |cmds|);
    RunCommandsShortCircuit(ssh.replies, from, cmds);
    RunCommandsSent(ssh.replies, from, cmds);
    printed := [];
    var i := 0;
    while i < |cmds|
      invariant i <= k && ssh.open
      invariant ssh.issued == old(ssh.issued) + cmds[..i]
      invariant |ssh.issued| == from + i
      invariant printed == if verbose then Shown(ssh.replies, from, |ssh.issued|) else []
    {
      OutputRunBounds(ssh.replies, from, |cmds|, from + i);
      var out;
      out, printed := ExecShown(ssh, cmds[i], verbose, from, printed);
      assert cmds[..i] + [cmds[i]] == cmds[..i + 1];
      match out
      case Nil =>
        assert i == k;
        return Value(false), printed;
      case Fault(m) =>
        assert i == k;
        return Raised(m), printed;
      case Output(_) =>
        i := i + 1;
    }
    result := Value(true);
  }

  /** A named list of commands. */
  datatype Step = Step(name: string, commands: seq<string>)

  /** All commands of steps `i` up to (not including) `j`, step by step. */
  function Commands(steps: seq<Step>, i: nat, j: nat): seq<string>
    requires i <= j <= |steps|
    decreases j - i
  {
    if i == j then [] else steps[i].commands + Commands(steps, i + 1, j)
  }

  /** Sending `a`, then `b` and `c`, is sending `a` and `b`, then `c`. */
  lemma Reassociate<T>(a: seq<T>, b: seq<T>, c: seq<T>)
    ensures a + (b + c) == (a + b) + c
  {
  }

  /** The commands of one more step come after those of the steps before. */
  lemma {:induction false} CommandsSnoc(steps: seq<Step>, i: nat, j: nat)
    requires i <= j < |steps|
    ensures Commands(steps, i, j + 1) == Commands(steps, i, j) + steps[j].commands
    decreases j - i
  {
    if i < j {
      CommandsSnoc(steps, i + 1, j);
      Reassociate(steps[i].commands, Commands(steps, i + 1, j), steps[j].commands);
    } else {
      assert Commands(steps, j + 1, j + 1) == [];
    }
  }

  /** How the `steps.each` loop ends: every step passed, a step made
      `run_step` exit (after printing `line`), or an error escaped. */
  datatype StepsEnd = AllPassed | StepExit(line: string) | StepRaise(message: string)

  /** The end of the loop, how many steps passed, and how many commands the
      step that stopped it sent (none when every step passed). */
  datatype StepsRun = StepsRun(end: StepsEnd, passed: nat, sent: nat)

  /** How a step that does not go on ends the loop. */
  function Halt(e: StepEffect): (end: StepsEnd)
    requires !e.Proceed?
    ensures end != AllPassed
  {
    if e.ExitOne? then StepExit(e.line) else StepRaise(e.message)
  }

  /** `decide` goes on after step `name` exactly when its block was truthy. */
  predicate GoesOn(decide: (string, BlockResult) -> StepEffect, name: string, b: BlockResult) {
    decide(name, b).Proceed? <==> b == Value(true)
  }

  /** `run_step` variants go on exactly after a truthy block result. */
  ghost predicate GoesOnWhenTrue(decide: (string, BlockResult) -> StepEffect) {
    forall n, b :: GoesOn(decide, n, b)
  }

  /** `steps.each { |step| run_step(step[:name], ...) { run_remote_commands(ssh, step[:cmd]) } }`
      from step `i` on, where `decide` is the `run_step` in use. The steps
      that pass are followed by the one that stops the loop, if any. */
  function StepsSpec(replies: nat -> Reply, from: nat, steps: seq<Step>, i: nat,
                     decide: (string, BlockResult) -> StepEffect): (r: StepsRun)
    requires i <= |steps|
    decreases |steps| - i
  {
    if i == |steps| then StepsRun(AllPassed, 0, 0)
    else
      var c := RunCommandsSpec(replies, from, steps[i].commands);
      var e := decide(steps[i].name, c.result);
      if e.Proceed? then
        var rest := StepsSpec(replies, from + c.sent, steps, i + 1, decide);
        StepsRun(rest.end, rest.passed + 1, rest.sent)
      else StepsRun(Halt(e), 0, c.sent)
  }

  /** The commands a run of the loop from step `i` sent: all commands of the
      steps that passed, in order, then the part of the stopping step's
      commands it got through. */
  function Issued(steps: seq<Step>, i: nat, r: StepsRun): seq<string>
  {
    if i + r.passed > |steps| then []
    else Commands(steps, i, i + r.passed) + (if r.end == AllPassed || i + r.passed == |steps| || r.sent > |steps[i + r.passed].commands| then [] else steps[i + r.passed].commands[..r.sent])
  }

  /** A loop that passed every step sent all their commands. */
  lemma IssuedAllPassed(steps: seq<Step>, r: StepsRun)
    requires r.end == AllPassed && r.passed == |steps|
    ensures Issued(steps, 0, r) == Commands(steps, 0, |steps|)
  {
    assert Issued(steps, 0, r) == Commands(steps, 0, |steps|) + [];
  }

  /** One turn of the loop at step `i`, after its commands ran as `c`. */
  lemma StepsUnfold(replies: nat -> Reply, from: nat, steps: seq<Step>, i: nat,
                    decide: (string, BlockResult) -> StepEffect, c: CommandsRun)
    requires i < |steps| && c == RunCommandsSpec(replies, from, steps[i].commands)
    ensures var e := decide(steps[i].name, c.result);
            var r := StepsSpec(replies, from, steps, i, decide);
            var rest := StepsSpec(replies, from + c.sent, steps, i + 1, decide);
            && (e.Proceed? ==> r == StepsRun(rest.end, rest.passed + 1, rest.sent))
            && (!e.Proceed? ==> r == StepsRun(Halt(e), 0, c.sent))
  {
  }

  /** The loop passes every step exactly when it ends with `AllPassed`. */
  lemma {:induction false} StepsAllPassed(replies: nat -> Reply, from: nat, steps: seq<Step>, i: nat,
                                         decide: (string, BlockResult) -> StepEffect)
    requires i <= |steps|
    ensures var r := StepsSpec(replies, from, steps, i, decide);
            i + r.passed <= |steps| && (r.end == AllPassed <==> r.passed == |steps| - i)
    decreases |steps| - i
  {
    if i < |steps| {
      var c := RunCommandsSpec(replies, from, steps[i].commands);
      StepsUnfold(replies, from, steps, i, decide, c);
      if decide(steps[i].name, c.result).Proceed? {
        StepsAllPassed(replies, from + c.sent, steps, i + 1, decide);
      }
    }
  }

  /** When a step stops the loop, it is the first step that did not pass: it
      ran after every command of the steps before it, sent a non-empty prefix
      of its own commands, and its `run_step` chose how the loop ends. */
  lemma {:induction false} StepsStop(replies: nat -> Reply, from: nat, steps: seq<Step>, i: nat,
                                    decide: (string, BlockResult) -> StepEffect, r: StepsRun)
    requires i <= |steps| && GoesOnWhenTrue(decide)
    requires r == StepsSpec(replies, from, steps, i, decide) && r.end != AllPassed
    ensures var k := i + r.passed;
            k < |steps| &&
            var c := RunCommandsSpec(replies, from + |Commands(steps, i, k)|, steps[k].commands);
            && r.sent == c.sent && 0 < c.sent
            && !decide(steps[k].name, c.result).Proceed?
            && r.end == Halt(decide(steps[k].name, c.result))
    decreases |steps| - i
  {
    var c := RunCommandsSpec(replies, from, steps[i].commands);
    StepsUnfold(replies, from, steps, i, decide, c);
    RunCommandsSent(replies, from, steps[i].commands);
    assert GoesOn(decide, steps[i].name, c.result);
    if decide(steps[i].name, c.result).Proceed? {
      var rest := StepsSpec(replies, from + c.sent, steps, i + 1, decide);
      StepsStop(replies, from + c.sent, steps, i + 1, decide, rest);
      var k := i + 1 + rest.passed;
      assert i + r.passed == k;
      assert |Commands(steps, i, k)| == c.sent + |Commands(steps, i + 1, k)|;
    } else {
      assert Commands(steps, i, i) == [];
    }
  }

  /** Two `run_step` variants that agree on which results let the loop go on
      pass the same steps and send the same commands. */
  lemma {:induction false} StepsSameCommands(replies: nat -> Reply, from: nat, steps: seq<Step>, i: nat,
                                            d1: (string, BlockResult) -> StepEffect,
                                            d2: (string, BlockResult) -> StepEffect)
    requires i <= |steps| && GoesOnWhenTrue(d1) && GoesOnWhenTrue(d2)
    ensures var r1 := StepsSpec(replies, from, steps, i, d1);
            var r2 := StepsSpec(replies, from, steps, i, d2);
            r1.passed == r2.passed && r1.sent == r2.sent && (r1.end == AllPassed <==> r2.end == AllPassed)
    decreases |steps| - i
  {
    if i < |steps| {
      var c := RunCommandsSpec(replies, from, steps[i].commands);
      assert GoesOn(d1, steps[i].name, c.result) && GoesOn(d2, steps[i].name, c.result);
      StepsUnfold(replies, from, steps, i, d1, c);
      StepsUnfold(replies, from, steps, i, d2, c);
      StepsSameCommands(replies, from + c.sent, steps, i + 1, d1, d2);
    }
  }

  /** The loop has run steps `0` to `i - 1`, from the exec request numbered
      `base` on, and `spec` is the run as a whole. */
  ghost predicate LoopAt(replies: nat -> Reply, base: nat, steps: seq<Step>, i: nat,
                         decide: (string, BlockResult) -> StepEffect, spec: StepsRun)
  {
    i <= |steps| &&
    var cur := StepsSpec(replies, base + |Commands(steps, 0, i)|, steps, i, decide);
    spec == StepsRun(cur.end, i + cur.passed, cur.sent)
  }

  /** One turn of the loop: the step either passes, sending all its
      commands, or ends the whole run, sending what `Issued` says. */
  lemma StepsAdvance(replies: nat -> Reply, base: nat, steps: seq<Step>, i: nat,
                     decide: (string, BlockResult) -> StepEffect, spec: StepsRun, from: nat)
    requires i < |steps| && GoesOnWhenTrue(decide) && LoopAt(replies, base, steps, i, decide, spec)
    requires from == base + |Commands(steps, 0, i)|
    ensures var cmds := steps[i].commands;
            var c := RunCommandsSpec(replies, from, cmds);
            var e := decide(steps[i].name, c.result);
            && c.sent <= |cmds|
            && (e.Proceed? ==>
                  && LoopAt(replies, base, steps, i + 1, decide, spec)
                  && Commands(steps, 0, i) + cmds[..c.sent] == Commands(steps, 0, i + 1))
            && (!e.Proceed? ==>
                  spec.end == Halt(e) && Issued(steps, 0, spec) == Commands(steps, 0, i) + cmds[..c.sent])
  {
    var cmds := steps[i].commands;
    var c := RunCommandsSpec(replies, from, cmds);
    StepsUnfold(replies, from, steps, i, decide, c);
    RunCommandsSent(replies, from, cmds);
    assert GoesOn(decide, steps[i].name, c.result);
    if decide(steps[i].name, c.result).Proceed? {
      assert cmds[..c.sent] == cmds;
      CommandsSnoc(steps, 0, i);
    }
  }

  /** The `steps.each` loop; also returns the lines verbose mode prints,
      which come from the replies to the step commands it sent. */
  method RunSteps(ssh: Session, steps: seq<Step>, verbose: bool,
                  decide: (string, BlockResult) -> StepEffect) returns (end: StepsEnd, printed: seq<string>)
    requires ssh.open && GoesOnWhenTrue(decide)
    modifies ssh
    ensures ssh.open
    ensures var r := StepsSpec(ssh.replies, |old(ssh.issued)|, steps, 0, decide);
            end == r.end && ssh.issued == old(ssh.issued) + Issued(steps, 0, r)
    ensures printed == if verbose then Shown(ssh.replies, |old(ssh.issued)|, |ssh.issued|) else []
  {
    ghost var spec := StepsSpec(ssh.replies, |ssh.issued|, steps, 0, decide);
    ghost var base := |ssh.issued|;
    printed := [];
    var i := 0;
    while i < |steps|
      invariant ssh.open && LoopAt(ssh.replies, base, steps, i, decide, spec)
      invariant ssh.issued == old(ssh.issued) + Commands(steps, 0, i)
      invariant base <= |ssh.issued|
      invariant printed == if verbose then Shown(ssh.replies, base, |ssh.issued|) else []
    {
      ghost var from := |ssh.issued|;
      StepsAdvance(ssh.replies, base, steps, i, decide, spec, from);
      ghost var c := RunCommandsSpec(ssh.replies, from, steps[i].commands);
      var result, p := RunRemoteCommands(ssh, steps[i].commands, verbose);
      var e := decide(steps[i].name, result);
      ShownAppend(ssh.replies, base, from, |ssh.issued|);
      printed := printed + p;
      Reassociate(old(ssh.issued), Commands(steps, 0, i), steps[i].commands[..c.sent]);
      if !e.Proceed? {
        return Halt(e), printed;
      }
      i := i + 1;
    }
    assert Issued(steps, 0, spec) == Commands(steps, 0, i) + [];
    end := AllPassed;
  }

  /** How a workflow ends: it finished normally; it printed `line` and exited
      with status 1; it printed `line` and returned to its caller; an error
      escaped it; or the operator interrupted a prompt. */
  datatype Outcome =
    | Finished
    | Exit(line: string)
    | Return(line: string)
    | Uncaught(message: string)
    | Interrupted

  /** The state the workflow leaves its session in. */
  datatype Link = Never | LeftOpen | Closed

  /** Everything a workflow run does: the commands it sent, in order, how it
      ended, and what became of its session. */
  datatype Trace = Trace(issued: seq<string>, outcome: Outcome, link: Link)

  /** Every workflow connects as `root`. */
  const Root: string := "root"

  /** The block of the `Connecting` step of `cli.rb` and `setup.rb`: the new
      session, which is truthy; a `Net::SSH::Exception` re-raised as "SSH
      connection failed: …"; or any other error, unchanged. */
  function ConnectingBlock(c: Connection): (b: BlockResult)
    ensures b == Value(true) <==> c.Accepted?
    ensures b != Value(false)
    ensures c.Rejected? ==> b.Raised? && EndsWith(b.message, c.message)
  {
    match c
    case Accepted => Value(true)
    case Rejected(m) => Raised("SSH connection failed: " + m)
    case Unreachable(m) => Raised(m)
  }

  /** A `check_abort` call: the probe command, and what its output reveals. */
  datatype Guard = Guard(command: string, subject: string)

  const WebServerGuard: Guard := Guard("pgrep -f 'nginx|apache|caddy'", "Web server")

  /** The Caddy installation commands, the same in `cli.rb` and `setup.rb`. */
  const InstallCaddy: seq<string> := [
    "apt install -y debian-keyring debian-archive-keyring apt-transport-https",
    "curl -1sLf \"https://dl.cloudsmith.io/public/caddy/stable/gpg.key\" | apt-key add -",
    "curl -1sLf \"https://dl.cloudsmith.io/public/caddy/stable/debian.deb.txt\" | tee /etc/apt/sources.list.d/caddy-stable.list",
    "apt update",
    "apt install -y caddy"
  ]

  const StartServices: seq<string> := [
    "systemctl start caddy",
    "systemctl enable caddy"
  ]
}
