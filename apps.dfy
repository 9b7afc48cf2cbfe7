/**
 * `Depo::Apps.run` and `show_menu`, of `apps.rb`.
 *
 * The host comes from the project's configuration, or is typed when the
 * configuration has none. The run connects as `root`, lists the vhost files
 * of the server, and shows a menu whose first entry creates a new app
 * (handing over to `AppsCreate.run`) and whose other entries are the apps
 * found, which are only echoed. The session it opens is never closed.
 */
module Apps {
  import opened Wrappers
  import opened Text
  import opened Color
  import opened Remote
  import opened Common
  import opened AppsCreate

  const VhostsDir: string := "/var/lib/depo/vhosts"
  const VhostsGlob: string := "/*.caddy"
  const ListTail: string := " 2>/dev/null || true"

  /** The listing of the vhost files, newest first. */
  const ListCommand: string := "ls -1t " + VhostsDir + VhostsGlob + ListTail

  // ----------------------------------------------------------------- host

  /** The host: the configuration's `host` key when it has one; otherwise
      the line typed at the prompt, stripped. `None` when the prompt is
      needed and standard input is at its end (`gets` gives `nil`). */
  function HostFor(configHost: Option<string>, typed: Option<string>): (h: Option<string>)
    ensures configHost.Some? ==> h == configHost
    ensures configHost.None? ==> (h.Some? <==> typed.Some?)
    ensures configHost.None? && typed.Some? ==> h.value == Strip(typed.value)
  {
    if configHost.Some? then configHost
    else if typed.Some? then Some(Strip(typed.value))
    else None
  }

  // ------------------------------------------------------------ app names

  /** `split("\n").reject(&:empty?)`, then `File.basename(f, '.caddy')` of
      each entry, in the listing's order. */
  function AppNames(listing: string): (names: seq<string>)
    ensures |names| == |NonEmpty(Split(listing, '\n'))|
  {
    var files := NonEmpty(Split(listing, '\n'));
    seq(|files|, i requires 0 <= i < |files| => Basename(files[i], ".caddy"))
  }

  /** What `ls -1` prints for these paths: each on its own line. */
  function Lines(paths: seq<string>): string {
    if paths == [] then [] else paths[0] + "\n" + Lines(paths[1..])
  }

  function VhostPaths(hosts: seq<string>): (paths: seq<string>)
    ensures |paths| == |hosts| && forall i :: 0 <= i < |hosts| ==> paths[i] == VhostPath(hosts[i])
  {
    seq(|hosts|, i requires 0 <= i < |hosts| => VhostPath(hosts[i]))
  }

  /** The app names read from a listing of the vhost files that
      `AppsCreate` writes are the hostnames they were written for, in the
      listing's order. */
  lemma AppNamesOfVhosts(hosts: seq<string>)
    requires forall i :: 0 <= i < |hosts| ==> ValidHostname(hosts[i])
    ensures AppNames(Lines(VhostPaths(hosts))) == hosts
  {
    var paths := VhostPaths(hosts);
    forall i | 0 <= i < |paths| ensures paths[i] != [] && '\n' !in paths[i] {
      VhostPathHasNoNewline(hosts[i]);
    }
    SplitLines(paths);
    SplitThenReject(Lines(paths), '\n');
    NonEmptyOfFull(paths);
    var names := AppNames(Lines(paths));
    forall i | 0 <= i < |hosts| ensures names[i] == hosts[i] {
      VhostPathNamesHost(hosts[i]);
    }
  }

  lemma VhostPathHasNoNewline(host: string)
    requires ValidHostname(host)
    ensures VhostPath(host) != [] && '\n' !in VhostPath(host)
  {
  }

  /** Splitting the lines on newlines gives the paths back, then the empty
      field after the last newline. */
  lemma {:induction false} SplitLines(paths: seq<string>)
    requires forall i :: 0 <= i < |paths| ==> '\n' !in paths[i]
    ensures SplitAll(Lines(paths), '\n') == paths + [[]]
  {
    if paths == [] {
      assert Lines(paths) == [];
    } else {
      SplitLines(paths[1..]);
      assert Lines(paths) == paths[0] + ['\n'] + Lines(paths[1..]);
      SplitAllField(paths[0], '\n', Lines(paths[1..]));
      assert paths == [paths[0]] + paths[1..];
    }
  }

  /** Rejecting the empty fields keeps every non-empty one. */
  lemma {:induction false} NonEmptyOfFull(xs: seq<string>)
    requires forall i :: 0 <= i < |xs| ==> xs[i] != []
    ensures NonEmpty(xs + [[]]) == xs
  {
    if xs == [] {
      assert NonEmpty([[]]) == NonEmpty([]);
    } else {
      assert (xs + [[]])[1..] == xs[1..] + [[]];
      NonEmptyOfFull(xs[1..]);
      assert xs == [xs[0]] + xs[1..];
    }
  }

  // ----------------------------------------------------------------- menu

  /** A menu entry: creating an app (value `:create`), or an app name. */
  datatype Choice = CreateApp | App(name: string)

  /** The entries of the apps menu: "Create New App" first, then the apps in
      the listing's order. */
  function Choices(names: seq<string>): (c: seq<Choice>)
    ensures |c| == |names| + 1 && c[0] == CreateApp
    ensures forall i :: 0 <= i < |names| ==> c[i + 1] == App(names[i])
    ensures names == [] ==> c == [CreateApp]
    ensures forall i :: 0 < i < |c| ==> c[i] != CreateApp
  {
    [CreateApp] + seq(|names|, i requires 0 <= i < |names| => App(names[i]))
  }

  /** The entry of a `cycle: true` menu after `down` presses of the down key
      from the first entry: past the last entry it wraps to the first. */
  function Selected(choices: seq<Choice>, down: nat): (c: Choice)
    requires choices != []
    ensures c in choices
    ensures down < |choices| ==> c == choices[down]
    decreases down
  {
    if down < |choices| then choices[down] else Selected(choices, down - |choices|)
  }

  /** Going once round the whole menu comes back to the same entry. */
  lemma SelectionCycles(choices: seq<Choice>, down: nat)
    requires choices != []
    ensures Selected(choices, down + |choices|) == Selected(choices, down)
  {
  }

  /** What the operator does in the create flow, should they pick it: the
      hostnames typed, the replies its own session gets, the pick at the
      version menu and the prompt library's message for an empty menu. */
  datatype CreateInput = CreateInput(answers: seq<string>, replies: nat -> Reply, pick: Pick, emptyMenu: string)

  /** How the menu ends, and the trace of the create flow when it ran. */
  datatype MenuEnd = MenuEnd(outcome: Outcome, created: Option<Trace>)

  /** `show_menu`: an interrupt exits; "Create New App" runs the create
      flow, which ends the process only when the operator interrupts it;
      an app is echoed. */
  function MenuSpec(names: seq<string>, menu: Pick, connect: (string, string) -> Connection,
                    create: CreateInput): MenuEnd
  {
    match menu
    case Interrupt => MenuEnd(Interrupted, None)
    case Keys(down) =>
      match Selected(Choices(names), down)
      case CreateApp =>
        var c := CreateSpec(create.answers, connect, create.replies, create.pick, create.emptyMenu);
        MenuEnd(if c.outcome.Interrupted? then Interrupted else Finished, Some(c))
      case App(_) => MenuEnd(Finished, None)
  }

  /** `show_menu`. */
  method ShowMenu(names: seq<string>, menu: Pick, connect: (string, string) -> Connection,
                  create: CreateInput) returns (e: MenuEnd)
    ensures e == MenuSpec(names, menu, connect, create)
  {
    var choices: seq<Choice> := [];
    choices := choices + [CreateApp];
    if names != [] {
      choices := choices + seq(|names|, i requires 0 <= i < |names| => App(names[i]));
    }
    assert choices == Choices(names);
    match menu
    case Interrupt =>
      e := MenuEnd(Interrupted, None);
    case Keys(down) =>
      var selection := Selected(choices, down);
      match selection
      case CreateApp =>
        var c := AppsCreate.Run(create.answers, connect, create.replies, create.pick, create.emptyMenu);
        e := MenuEnd(if c.outcome.Interrupted? then Interrupted else Finished, Some(c));
      case App(_) =>
        e := MenuEnd(Finished, None);
  }

  // ------------------------------------------------------------------ run

  /** Everything `Apps.run` does: its own session's trace, and the create
      flow's trace when the operator picked it. */
  datatype Visit = Visit(trace: Trace, created: Option<Trace>)

  /** `Apps.run`. A `Net::SSH::Exception`, while connecting or from the
      listing, prints "SSH connection failed" and exits with status 1; any
      other error (a socket error, `split` on a `nil` listing) escapes. */
  function AppsSpec(configHost: Option<string>, typed: Option<string>, connect: (string, string) -> Connection,
                    replies: nat -> Reply, menu: Pick, create: CreateInput): Visit
  {
    match HostFor(configHost, typed)
    case None => Visit(Trace([], Uncaught(NilMessage("strip")), Never), None)
    case Some(host) =>
      match connect(host, Root)
      case Rejected(m) => Visit(Trace([], Exit(Red("SSH connection failed: " + m)), Never), None)
      case Unreachable(m) => Visit(Trace([], Uncaught(m), Never), None)
      case Accepted => ListedSpec(replies, menu, connect, create)
  }

  /** Once connected: the listing, then the menu. */
  function ListedSpec(replies: nat -> Reply, menu: Pick, connect: (string, string) -> Connection,
                      create: CreateInput): Visit
  {
    match Answer(replies(0))
    case Fault(m) => Visit(Trace([ListCommand], Exit(Red("SSH connection failed: " + m)), LeftOpen), None)
    case Nil => Visit(Trace([ListCommand], Uncaught(NilMessage("split")), LeftOpen), None)
    case Output(text) =>
      var e := MenuSpec(AppNames(text), menu, connect, create);
      Visit(Trace([ListCommand], e.outcome, LeftOpen), e.created)
  }

  /** `Apps.run`. */
  method Run(configHost: Option<string>, typed: Option<string>, connect: (string, string) -> Connection,
             replies: nat -> Reply, menu: Pick, create: CreateInput) returns (v: Visit)
    ensures v == AppsSpec(configHost, typed, connect, replies, menu, create)
  {
    var host := configHost;
    if host.None? {
      if typed.None? {
        return Visit(Trace([], Uncaught(NilMessage("strip")), Never), None);
      }
      host := Some(Strip(typed.value));
    }
    match connect(host.value, Root)
    case Rejected(m) =>
      v := Visit(Trace([], Exit(Red("SSH connection failed: " + m)), Never), None);
    case Unreachable(m) =>
      v := Visit(Trace([], Uncaught(m), Never), None);
    case Accepted =>
      var ssh := new Session(host.value, Root, replies);
      v := RunListed(ssh, menu, connect, create);
  }

  /** The listing and the menu, on the new session. */
  method RunListed(ssh: Session, menu: Pick, connect: (string, string) -> Connection,
                   create: CreateInput) returns (v: Visit)
    requires ssh.open && ssh.issued == []
    modifies ssh
    ensures v == ListedSpec(ssh.replies, menu, connect, create)
    ensures ssh.issued == v.trace.issued
  {
    var listed, _ := ssh.Exec(ListCommand, false);
    match listed
    case Fault(m) =>
      v := Visit(Trace(ssh.issued, Exit(Red("SSH connection failed: " + m)), LeftOpen), None);
    case Nil =>
      v := Visit(Trace(ssh.issued, Uncaught(NilMessage("split")), LeftOpen), None);
    case Output(text) =>
      var names := AppNames(text);
      var e := ShowMenu(names, menu, connect, create);
      v := Visit(Trace(ssh.issued, e.outcome, LeftOpen), e.created);
  }

  // ----------------------------------------------------------- properties

  /** A connection that fails with a `Net::SSH::Exception` ends in exit
      status 1 before the listing is sent. */
  lemma ConnectFailureExits(configHost: Option<string>, typed: Option<string>, connect: (string, string) -> Connection,
                            replies: nat -> Reply, menu: Pick, create: CreateInput)
    requires HostFor(configHost, typed).Some?
    requires connect(HostFor(configHost, typed).value, Root).Rejected?
    ensures var v := AppsSpec(configHost, typed, connect, replies, menu, create);
            v.trace.issued == [] && v.trace.outcome.Exit? && v.trace.link == Never && v.created.None?
  {
  }

  /** The session of the apps menu sends the listing and nothing else, and
      is never closed; the create flow runs on a session of its own. */
  lemma OnlyTheListing(configHost: Option<string>, typed: Option<string>, connect: (string, string) -> Connection,
                       replies: nat -> Reply, menu: Pick, create: CreateInput)
    ensures var v := AppsSpec(configHost, typed, connect, replies, menu, create);
            && (v.trace.issued == [] || v.trace.issued == [ListCommand])
            && v.trace.link != Closed
            && (v.trace.issued == [] <==> v.trace.link == Never)
  {
  }

  /** "Create New App" runs the create flow, and only it does; its trace is
      the one `AppsCreate.run` gives. Since that flow never exits on its
      own, the menu then ends normally unless the operator interrupts. The
      entry is the default one, and the one the cycle comes back to. */
  lemma CreateDispatch(names: seq<string>, down: nat, connect: (string, string) -> Connection, create: CreateInput)
    ensures var e := MenuSpec(names, Keys(down), connect, create);
            var c := CreateSpec(create.answers, connect, create.replies, create.pick, create.emptyMenu);
            && (e.created.Some? <==> Selected(Choices(names), down) == CreateApp)
            && (e.created.Some? ==> e.created == Some(c))
            && (e.outcome == Finished || e.outcome == Interrupted)
            && (e.outcome == Interrupted ==> c.outcome == Interrupted)
    ensures down == 0 || down == |names| + 1 ==> Selected(Choices(names), down) == CreateApp
  {
    SelectionCycles(Choices(names), 0);
  }

  /** Picking an app only echoes it: nothing more is sent and the run
      ends normally. */
  lemma AppOnlyEchoed(names: seq<string>, down: nat, connect: (string, string) -> Connection, create: CreateInput)
    requires Selected(Choices(names), down).App?
    ensures MenuSpec(names, Keys(down), connect, create) == MenuEnd(Finished, None)
    ensures Selected(Choices(names), down).name in names
  {
    var c := Selected(Choices(names), down);
    var i :| 0 <= i < |Choices(names)| && Choices(names)[i] == c;
    assert c == App(names[i - 1]);
  }
}
