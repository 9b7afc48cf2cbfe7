/**
 * `Depo::AppsCreate.run`, the app-creation flow of `apps_create.rb`.
 *
 * The operator types hostnames until one is valid; the flow connects as
 * `root`, then runs its phases in order: create the user, install asdf,
 * list the Ruby versions and let the operator pick one, install it, write
 * the Caddy vhost and restart Caddy. A failing phase prints its message,
 * closes the session and returns; nothing in the flow calls `exit`.
 */
module AppsCreate {
  import opened Wrappers
  import opened Text
  import opened Color
  import opened Remote
  import opened Common
  import opened Shell

  // ---------------------------------------------------------------- hostname

  predicate IsDigit(c: char) {
    '0' <= c <= '9'
  }

  /** `\d+`. */
  predicate Digits(s: string) {
    s != [] && forall i :: 0 <= i < |s| ==> IsDigit(s[i])
  }

  predicate HostChar(c: char) {
    'a' <= c <= 'z' || 'A' <= c <= 'Z' || IsDigit(c) || c == '.' || c == '-'
  }

  /** `[a-zA-Z0-9.-]+`, the whole answer. Such a word holds no quote, no
      slash, no colon and no newline. */
  predicate HostChars(s: string)
    ensures HostChars(s) ==> '\'' !in s && '/' !in s && ':' !in s && '\n' !in s
  {
    s != [] && forall i :: 0 <= i < |s| ==> HostChar(s[i])
  }

  /** `\d+\.\d+\.\d+\.\d+` (and `(\d+\.){3}\d+`), the whole answer: four
      digit groups between three dots. */
  predicate DottedQuad(s: string) {
    var f := SplitAll(s, '.');
    |f| == 4 && Digits(f[0]) && Digits(f[1]) && Digits(f[2]) && Digits(f[3])
  }

  /** `\d+:[^:]+:[^:]+:[^:]+:` at the start of the answer. */
  predicate ColonPrefix(s: string) {
    var f := SplitAll(s, ':');
    |f| >= 5 && Digits(f[0]) && f[1] != [] && f[2] != [] && f[3] != []
  }

  /** The validation the hostname prompt applies: the two negative
      lookaheads, then the character class over the whole answer. */
  predicate ValidHostname(s: string) {
    !DottedQuad(s) && !ColonPrefix(s) && HostChars(s)
  }

  /** The second lookahead can never reject anything: an answer made of the
      allowed characters has no `:`. So a hostname is exactly a non-empty
      word of letters, digits, dots and dashes that is not a dotted quad. */
  lemma ColonCheckRedundant(s: string)
    ensures ValidHostname(s) <==> HostChars(s) && !DottedQuad(s)
  {
    if HostChars(s) {
      SplitWithoutSeparator(s, ':');
    }
  }

  /** Every dotted quad of digit groups, an IPv4 address among them, is
      refused. */
  lemma DottedQuadRefused(a: string, b: string, c: string, d: string)
    requires Digits(a) && Digits(b) && Digits(c) && Digits(d)
    ensures DottedQuad(a + "." + b + "." + c + "." + d)
    ensures !ValidHostname(a + "." + b + "." + c + "." + d)
  {
    DigitsHaveNoDot(a);
    DigitsHaveNoDot(b);
    DigitsHaveNoDot(c);
    DigitsHaveNoDot(d);
    var tail := b + "." + c + "." + d;
    SplitThree(b, c, d);
    SplitAllField(a, '.', tail);
    assert a + "." + b + "." + c + "." + d == a + ['.'] + tail;
  }

  lemma SplitThree(b: string, c: string, d: string)
    requires '.' !in b && '.' !in c && '.' !in d
    ensures SplitAll(b + "." + c + "." + d, '.') == [b, c, d]
  {
    SplitWithoutSeparator(d, '.');
    SplitAllField(c, '.', d);
    assert c + "." + d == c + ['.'] + d;
    SplitAllField(b, '.', c + "." + d);
    assert b + "." + c + "." + d == b + ['.'] + (c + "." + d);
  }

  lemma DigitsHaveNoDot(x: string)
    requires Digits(x)
    ensures '.' !in x
  {
  }

  /** The hostname the prompt settles on: `prompt.ask` asks again until an
      answer passes its validation, so the first valid answer; `None` when
      the operator interrupts before giving one. */
  function FirstValid(answers: seq<string>): (h: Option<string>)
    ensures h.Some? ==> ValidHostname(h.value) && h.value in answers
    ensures h.Some? ==> exists k :: 0 <= k < |answers| && answers[k] == h.value &&
                                  forall j :: 0 <= j < k ==> !ValidHostname(answers[j])
    ensures h.None? <==> forall i :: 0 <= i < |answers| ==> !ValidHostname(answers[i])
  {
    if answers == [] then None
    else if ValidHostname(answers[0]) then Some(answers[0])
    else
      var h := FirstValid(answers[1..]);
      if h.Some? then
        var k :| 0 <= k < |answers| - 1 && answers[1..][k] == h.value &&
                 forall j :: 0 <= j < k ==> !ValidHostname(answers[1..][j]);
        assert answers[k + 1] == h.value;
        assert forall j :: 0 <= j < k + 1 ==> !ValidHostname(answers[j]) by {
          forall j | 0 <= j < k + 1 ensures !ValidHostname(answers[j]) {
            if j > 0 {
              assert answers[j] == answers[1..][j - 1];
            }
          }
        }
        h
      else h
  }

  /** The hostname prompt loop over the answers the operator types. The
      re-check after `ask` cannot fail once the answer is validated. */
  method PromptHostname(answers: seq<string>) returns (h: Option<string>)
    ensures h == FirstValid(answers)
  {
    var i := 0;
    while i < |answers|
      invariant 0 <= i <= |answers|
      invariant FirstValid(answers[i..]) == FirstValid(answers)
    {
      assert answers[i..][1..] == answers[i + 1..];
      var answer := answers[i];
      if ValidHostname(answer) {
        if !DottedQuad(answer) {
          return Some(answer);
        }
      }
      i := i + 1;
    }
    return None;
  }

  /** `hostname.tr('-', '_')`: the name of the app's user. */
  function UserOf(host: string): (user: string)
    ensures |user| == |host| && '-' !in user
  {
    Tr(host, '-', '_')
  }

  /** Only dashes change, and since a hostname has no `_`, the hostname can be
      read back from the user name. */
  lemma UserOfHost(host: string)
    requires ValidHostname(host)
    ensures forall i :: 0 <= i < |host| && host[i] != '-' ==> UserOf(host)[i] == host[i]
    ensures Tr(UserOf(host), '_', '-') == host
  {
    var user := UserOf(host);
    forall i | 0 <= i < |host| ensures Tr(user, '_', '-')[i] == host[i] {
      assert HostChar(host[i]);
    }
  }

  // ---------------------------------------------------------- Ruby versions

  /** `(2|3)\.\d+(\.\d+)*`, the whole line. */
  predicate IsRubyVersion(v: string)
    ensures IsRubyVersion(v) ==> v != []
  {
    var f := SplitAll(v, '.');
    |f| >= 2 && (f[0] == "2" || f[0] == "3") && forall i :: 1 <= i < |f| ==> Digits(f[i])
  }

  /** `map(&:strip)`. */
  function StripAll(lines: seq<string>): (r: seq<string>)
    ensures |r| == |lines| && forall i :: 0 <= i < |lines| ==> r[i] == Strip(lines[i])
  {
    seq(|lines|, i requires 0 <= i < |lines| => Strip(lines[i]))
  }

  /** `select { |v| v.match?(...) }`. */
  function SelectVersions(lines: seq<string>): (r: seq<string>)
    ensures forall v :: v in r <==> v in lines && IsRubyVersion(v)
  {
    if lines == [] then []
    else if IsRubyVersion(lines[0]) then [lines[0]] + SelectVersions(lines[1..])
    else SelectVersions(lines[1..])
  }

  /** The filter keeps the order of the listing: it distributes over
      concatenation. */
  lemma {:induction false} SelectKeepsOrder(a: seq<string>, b: seq<string>)
    ensures SelectVersions(a + b) == SelectVersions(a) + SelectVersions(b)
  {
    if a == [] {
      assert a + b == b;
    } else {
      assert (a + b)[1..] == a[1..] + b;
      SelectKeepsOrder(a[1..], b);
    }
  }

  /** The versions offered from the `asdf list-all ruby` output: its lines,
      stripped, without the empty ones, the matching ones only, newest
      (last listed) first. */
  function Offered(listing: string): seq<string> {
    Reverse(SelectVersions(NonEmpty(StripAll(Split(listing, '\n')))))
  }

  /** Only versions from the listing are offered. */
  lemma OfferedFromListing(listing: string, v: string)
    requires v in Offered(listing)
    ensures IsRubyVersion(v) && v in StripAll(Split(listing, '\n'))
  {
    var lines := StripAll(Split(listing, '\n'));
    var kept := SelectVersions(NonEmpty(lines));
    ReversedHas(kept, v);
    assert v in NonEmpty(lines);
    var i :| 0 <= i < |NonEmpty(lines)| && NonEmpty(lines)[i] == v;
  }

  /** Every version in the listing is offered. */
  lemma ListedIsOffered(listing: string, v: string)
    requires IsRubyVersion(v) && v in StripAll(Split(listing, '\n'))
    ensures v in Offered(listing)
  {
    var lines := StripAll(Split(listing, '\n'));
    var kept := SelectVersions(NonEmpty(lines));
    NonEmptyKeeps(lines, v);
    assert v in kept;
    HasReversed(kept, v);
  }

  /** The versions are offered in the reverse order of the listing: the
      stripped lines that match, last listed first. Rejecting the empty lines
      first changes nothing, since no version is empty. */
  lemma OfferedInOrder(listing: string)
    ensures Offered(listing) == Reverse(SelectVersions(StripAll(Split(listing, '\n'))))
  {
    SelectSkipsEmpty(StripAll(Split(listing, '\n')));
  }

  lemma {:induction false} SelectSkipsEmpty(lines: seq<string>)
    ensures SelectVersions(NonEmpty(lines)) == SelectVersions(lines)
  {
    if lines != [] {
      SelectSkipsEmpty(lines[1..]);
      if lines[0] == [] {
        assert !IsRubyVersion(lines[0]) by {
          assert SplitAll(lines[0], '.') == [[]];
        }
      } else {
        assert NonEmpty(lines) == [lines[0]] + NonEmpty(lines[1..]);
        assert ([lines[0]] + NonEmpty(lines[1..]))[1..] == NonEmpty(lines[1..]);
      }
    }
  }

  /** The entry of a select menu without `cycle` after `down` presses of
      the down key, from the default first entry: the list's end stops it. */
  function Chosen(offered: seq<string>, down: nat): (v: string)
    requires offered != []
    ensures v in offered
    ensures down < |offered| ==> v == offered[down]
  {
    offered[if down < |offered| then down else |offered| - 1]
  }

  /** What the operator does at a menu: press the down key `down` times and
      confirm, or interrupt (which exits the process). */
  datatype Pick = Keys(down: nat) | Interrupt

  // ------------------------------------------------------------------ vhost

  function VhostPath(host: string): string {
    "/var/lib/depo/vhosts/" + host + ".caddy"
  }

  function VhostContent(host: string): string {
    host + " {\n  respond \"<h1>" + host + "</h1>\"\n}"
  }

  /** The vhost file of a hostname is named after it: `File.basename` of
      its path, without `.caddy`, is the hostname. */
  lemma VhostPathNamesHost(host: string)
    requires ValidHostname(host)
    ensures Basename(VhostPath(host), ".caddy") == host
  {
    assert VhostPath(host) == "/var/lib/depo/vhosts" + "/" + host + ".caddy";
    BasenameOfFile("/var/lib/depo/vhosts", host, ".caddy");
  }

  /** As written, the shell hands `echo` the vhost content with both of its
      newlines turned into `n`, so the file is not the content; the corrected
      escaping would hand it over intact. */
  lemma VhostWrite(host: string)
    requires ValidHostname(host)
    ensures Unquote(Quoted(Escape(VhostContent(host))), false) == Some(Tr(VhostContent(host), '\n', 'n'))
    ensures Unquote(Quoted(Escape(VhostContent(host))), false) != Some(VhostContent(host))
    ensures Unquote(Quoted(QuoteBody(VhostContent(host))), false) == Some(VhostContent(host))
  {
    var body := VhostContent(host);
    assert '\'' !in body;
    EscapeWritesNewlinesAsN(body);
    assert body[|host| + 2] == '\n';
    EscapeDropsNewlines(body);
    QuoteBodyRoundTrip(body);
  }

  // --------------------------------------------------------------- commands

  function UserCommand(user: string): string {
    "id -u " + user + " || useradd -m " + user
  }

  function AsUser(user: string, script: string): string {
    "su - " + user + " -c '" + script + "'"
  }

  const AsdfEnv: string := "export ASDF_DIR=\"$HOME/.asdf\"; . $HOME/.asdf/asdf.sh; "

  const CloneScript: string := "git clone https://github.com/asdf-vm/asdf.git ~/.asdf --branch v0.14.0 || true"
  const BashrcScript: string := "echo \\n. $HOME/.asdf/asdf.sh >> ~/.bashrc"
  const PluginScript: string := AsdfEnv + "asdf plugin add ruby 2>/dev/null"
  const ListScript: string := AsdfEnv + "asdf list-all ruby"

  /** The commands before the version menu: create the user, clone asdf,
      source it from `.bashrc`, add the Ruby plugin, list the versions. */
  function HeadCommands(user: string): (cmds: seq<string>)
    ensures |cmds| == 5
  {
    [ UserCommand(user), AsUser(user, CloneScript), AsUser(user, BashrcScript),
      AsUser(user, PluginScript), AsUser(user, ListScript) ]
  }

  /** The commands after it: install the version, probe for the vhost file,
      write it, restart Caddy. */
  function TailCommands(host: string, user: string, version: string): (cmds: seq<string>)
    ensures |cmds| == 4
  {
    [ AsUser(user, InstallScript(version)), ProbeCommand(VhostPath(host)),
      WriteCommand(VhostContent(host), VhostPath(host)), RestartCommand ]
  }

  function InstallScript(version: string): string {
    AsdfEnv + "asdf install ruby " + version + " && asdf global ruby " + version
  }

  function ProbeCommand(path: string): string {
    "test -f " + path + " && echo exists || echo not_exists"
  }

  const RestartCommand: string := "systemctl restart caddy"

  // ----------------------------------------------------------------- phases

  /** Whether a phase's block went through, or the message of the error it
      raised. */
  datatype Phase = Passed | Failed(message: string)

  /** The user phase: a `nil` result or one that mentions "already exists"
      fails it. */
  function UserCheck(r: ExecResult, user: string): (p: Phase)
    ensures p == Passed <==> r.Output? && !Contains(r.text, "already exists")
    ensures r.Fault? ==> p == Failed(r.message)
  {
    match r
    case Fault(m) => Failed(m)
    case Nil => Failed("User " + user + " already exists or could not be created.")
    case Output(text) =>
      if Contains(text, "already exists") then Failed("User " + user + " already exists or could not be created.")
      else Passed
  }

  /** The asdf phase, once both commands are back (the second is not sent
      when the first raised): it fails when either is `nil`. */
  function AsdfCheck(first: ExecResult, second: ExecResult, user: string): (p: Phase)
    ensures p == Passed <==> first.Output? && second.Output?
    ensures first.Fault? ==> p == Failed(first.message)
  {
    if first.Fault? then Failed(first.message)
    else if second.Fault? then Failed(second.message)
    else if first.Nil? || second.Nil? then Failed("asdf could not be installed for " + user)
    else Passed
  }

  /** A phase whose block only asks for a non-`nil` result. */
  function Require(r: ExecResult, nilMessage: string): (p: Phase)
    ensures p == Passed <==> r.Output?
  {
    match r
    case Fault(m) => Failed(m)
    case Nil => Failed(nilMessage)
    case Output(_) => Passed
  }

  /** The vhost probe: `strip` of its result equal to "exists" fails the
      phase before the write; a `nil` result fails it too, since `strip` is
      called on it. */
  function VhostCheck(r: ExecResult, path: string): (p: Phase)
    ensures p == Passed <==> r.Output? && Strip(r.text) != "exists"
  {
    match r
    case Fault(m) => Failed(m)
    case Nil => Failed(NilMessage("strip"))
    case Output(text) => if Strip(text) == "exists" then Failed("Vhost file already exists at " + path) else Passed
  }

  /** Two red lines: the message, then "Aborting app creation.". */
  function Aborted(message: string): string {
    Red(message) + "\n" + Red("Aborting app creation.")
  }

  /** A failed phase: its message, `close`, `return`. */
  function PhaseFailed(issued: seq<string>, what: string, message: string): (t: Trace)
    ensures t.link == Closed && t.outcome.Return? && t.issued == issued
  {
    Trace(issued, Return(Aborted("Failed to " + what + ": " + message)), Closed)
  }

  /** The user and asdf phases: `None` when both passed, else the run
      ends with the failed phase's message and the session closed. */
  function FirstPhases(replies: nat -> Reply, cmds: seq<string>, user: string): (t: Option<Trace>)
    requires |cmds| == 5
    ensures t.Some? ==> && 0 < |t.value.issued| <= 3 && t.value.issued == cmds[..|t.value.issued|]
                        && t.value.link == Closed && t.value.outcome.Return?
    ensures t.None? <==> && UserCheck(Answer(replies(0)), user) == Passed
                         && AsdfCheck(Answer(replies(1)), Answer(replies(2)), user) == Passed
  {
    var created := UserCheck(Answer(replies(0)), user);
    if created.Failed? then Some(PhaseFailed(cmds[..1], "create user", created.message))
    else
      var asdf := AsdfCheck(Answer(replies(1)), Answer(replies(2)), user);
      if asdf.Failed? then Some(PhaseFailed(cmds[..if replies(1).Dropped? then 2 else 3], "install asdf", asdf.message))
      else None
  }

  /** How far the commands before the menu got: the run ended there, or the
      versions were listed. */
  datatype Listing = Halted(t: Trace) | Listed(text: string)

  /** The first phases, then the unprotected plugin and listing commands,
      whose errors reach the rescue clauses of `run` itself: a
      `Net::SSH::Exception` as "SSH connection failed: …", a `nil` listing
      (`split` on `nil`) as "Error: …". Those leave the session open. */
  function Head(replies: nat -> Reply, cmds: seq<string>, user: string): (l: Listing)
    requires |cmds| == 5
    ensures l.Halted? ==> 0 < |l.t.issued| <= 5 && l.t.issued == cmds[..|l.t.issued|]
    ensures l.Halted? ==> l.t.outcome.Return? && (l.t.link == Closed <==> |l.t.issued| <= 3)
    ensures l.Listed? <==> FirstPhases(replies, cmds, user).None? && !replies(3).Dropped? && Answer(replies(4)).Output?
  {
    match FirstPhases(replies, cmds, user)
    case Some(t) => Halted(t)
    case None => ListingPhase(replies, cmds)
  }

  /** The plugin command, whose result is ignored, then the listing. */
  function ListingPhase(replies: nat -> Reply, cmds: seq<string>): (l: Listing)
    requires |cmds| == 5
    ensures l.Halted? ==> 4 <= |l.t.issued| <= 5 && l.t.issued == cmds[..|l.t.issued|]
    ensures l.Halted? ==> l.t.outcome.Return? && l.t.link == LeftOpen
    ensures l.Listed? <==> !replies(3).Dropped? && Answer(replies(4)).Output?
  {
    if replies(3).Dropped? then
      Halted(Trace(cmds[..4], Return(Red("SSH connection failed: " + replies(3).message)), LeftOpen))
    else
      match Answer(replies(4))
      case Fault(m) => Halted(Trace(cmds, Return(Red("SSH connection failed: " + m)), LeftOpen))
      case Nil => Halted(Trace(cmds, Return(Red("Error: " + NilMessage("split"))), LeftOpen))
      case Output(text) => Listed(text)
  }

  /** The phases after the menu, from the exec request numbered `5` on:
      Ruby, the vhost (probe, then write) and the Caddy restart. Every
      failure closes the session; the issued commands are relative to the
      tail. */
  function Tail(replies: nat -> Reply, cmds: seq<string>, path: string, user: string, version: string): (t: Trace)
    requires |cmds| == 4
    ensures 0 < |t.issued| <= 4 && t.issued == cmds[..|t.issued|]
    ensures t.link == Closed && (t.outcome == Finished || t.outcome.Return?)
    ensures t.outcome == Finished <==> |t.issued| == 4 && Answer(replies(8)).Output?
    ensures |t.issued| > 2 <==> Answer(replies(5)).Output? && VhostCheck(Answer(replies(6)), path) == Passed
  {
    var ruby := Require(Answer(replies(5)), "Ruby " + version + " could not be installed for " + user);
    if ruby.Failed? then PhaseFailed(cmds[..1], "install Ruby", ruby.message)
    else VhostPhases(replies, cmds, path)
  }

  /** Once Ruby is installed: the vhost probe and write, then the Caddy
      restart. */
  function VhostPhases(replies: nat -> Reply, cmds: seq<string>, path: string): (t: Trace)
    requires |cmds| == 4
    ensures 2 <= |t.issued| <= 4 && t.issued == cmds[..|t.issued|]
    ensures t.link == Closed && (t.outcome == Finished || t.outcome.Return?)
    ensures t.outcome == Finished <==> |t.issued| == 4 && Answer(replies(8)).Output?
    ensures |t.issued| > 2 <==> VhostCheck(Answer(replies(6)), path) == Passed
  {
    var probe := VhostCheck(Answer(replies(6)), path);
    if probe.Failed? then PhaseFailed(cmds[..2], "create vhost", probe.message)
    else WritePhases(replies, cmds, path)
  }

  /** Once the probe found no vhost file: the write, then the restart. */
  function WritePhases(replies: nat -> Reply, cmds: seq<string>, path: string): (t: Trace)
    requires |cmds| == 4
    ensures 3 <= |t.issued| <= 4 && t.issued == cmds[..|t.issued|]
    ensures t.link == Closed && (t.outcome == Finished || t.outcome.Return?)
    ensures t.outcome == Finished <==> |t.issued| == 4 && Answer(replies(8)).Output?
  {
    var write := Require(Answer(replies(7)), "Failed to create vhost at " + path);
    if write.Failed? then PhaseFailed(cmds[..3], "create vhost", write.message)
    else
      var restart := Require(Answer(replies(8)), "Failed to restart caddy");
      if restart.Failed? then PhaseFailed(cmds, "restart caddy", restart.message)
      else Trace(cmds, Finished, Closed)
  }

  /** The run once the session is open. `emptyMenu` is the message of the
      error the prompt library raises for a menu with no entries. */
  function Connected(replies: nat -> Reply, head: seq<string>, host: string, pick: Pick, emptyMenu: string): Trace
    requires |head| == 5
  {
    var user := UserOf(host);
    match Head(replies, head, user)
    case Halted(t) => t
    case Listed(text) => Menu(replies, head, host, Offered(text), pick, emptyMenu)
  }

  /** The version menu, after the commands `head`, and the phases after it.
      A menu with no entries cannot take `default: 1`: the prompt library
      raises while checking the default, before any key is read, so the
      operator's pick makes no difference there. */
  function Menu(replies: nat -> Reply, head: seq<string>, host: string, offered: seq<string>,
                pick: Pick, emptyMenu: string): Trace
  {
    if offered == [] then Trace(head, Return(Red("Error: " + emptyMenu)), LeftOpen)
    else
      match pick
      case Interrupt => Trace(head, Interrupted, LeftOpen)
      case Keys(down) =>
        var user := UserOf(host);
        var version := Chosen(offered, down);
        var t := Tail(replies, TailCommands(host, user, version), VhostPath(host), user, version);
        Trace(head + t.issued, t.outcome, t.link)
  }

  /** `AppsCreate.run`: the hostname prompt, then the connection as
      `root`. */
  function CreateSpec(answers: seq<string>, connect: (string, string) -> Connection, replies: nat -> Reply,
                      pick: Pick, emptyMenu: string): Trace
  {
    match FirstValid(answers)
    case None => Trace([], Interrupted, Never)
    case Some(host) => ConnectSpec(connect(host, Root), replies, HeadCommands(UserOf(host)), host, pick, emptyMenu)
  }

  /** A `Net::SSH::Exception` while connecting prints "SSH connection
      failed" and returns; any other error reaches the final rescue as
      "Error: …". */
  function ConnectSpec(connection: Connection, replies: nat -> Reply, head: seq<string>, host: string,
                       pick: Pick, emptyMenu: string): Trace
    requires |head| == 5
  {
    match connection
    case Rejected(m) => Trace([], Return(Aborted("SSH connection failed: " + m)), Never)
    case Unreachable(m) => Trace([], Return(Red("Error: " + m)), Never)
    case Accepted => Connected(replies, head, host, pick, emptyMenu)
  }

  /** `AppsCreate.run`. */
  method Run(answers: seq<string>, connect: (string, string) -> Connection, replies: nat -> Reply,
             pick: Pick, emptyMenu: string) returns (t: Trace)
    ensures t == CreateSpec(answers, connect, replies, pick, emptyMenu)
  {
    var found := PromptHostname(answers);
    if found.None? {
      return Trace([], Interrupted, Never);
    }
    var host := found.value;
    t := RunAtHost(connect(host, Root), replies, HeadCommands(UserOf(host)), host, pick, emptyMenu);
  }

  /** The connection and, once it is open, the rest of the flow. */
  method RunAtHost(connection: Connection, replies: nat -> Reply, head: seq<string>, host: string,
                   pick: Pick, emptyMenu: string) returns (t: Trace)
    requires |head| == 5
    ensures t == ConnectSpec(connection, replies, head, host, pick, emptyMenu)
  {
    match connection
    case Rejected(m) =>
      t := Trace([], Return(Aborted("SSH connection failed: " + m)), Never);
    case Unreachable(m) =>
      t := Trace([], Return(Red("Error: " + m)), Never);
    case Accepted =>
      var ssh := new Session(host, Root, replies);
      t := RunConnected(ssh, head, host, pick, emptyMenu);
  }

  /** Everything after the connection, on the new session. */
  method RunConnected(ssh: Session, head: seq<string>, host: string, pick: Pick, emptyMenu: string) returns (t: Trace)
    requires ssh.open && ssh.issued == [] && |head| == 5
    modifies ssh
    ensures t == Connected(ssh.replies, head, host, pick, emptyMenu)
  {
    var user := UserOf(host);
    var listing := RunHead(ssh, head, user);
    if listing.Halted? {
      return listing.t;
    }
    t := RunMenu(ssh, head, host, Offered(listing.text), pick, emptyMenu);
  }

  /** The version menu and the phases after it. */
  method RunMenu(ssh: Session, head: seq<string>, host: string, offered: seq<string>,
                 pick: Pick, emptyMenu: string) returns (t: Trace)
    requires ssh.open && ssh.issued == head && |head| == 5
    modifies ssh
    ensures t == Menu(ssh.replies, head, host, offered, pick, emptyMenu)
  {
    if offered == [] {
      return Trace(ssh.issued, Return(Red("Error: " + emptyMenu)), LeftOpen);
    }
    match pick
    case Interrupt =>
      t := Trace(ssh.issued, Interrupted, LeftOpen);
    case Keys(down) =>
      var user := UserOf(host);
      var version := Chosen(offered, down);
      var tail := RunTail(ssh, TailCommands(host, user, version), VhostPath(host), user, version);
      t := Trace(ssh.issued, tail.outcome, tail.link);
  }

  /** The user and asdf phases, the plugin and the listing. */
  method RunHead(ssh: Session, cmds: seq<string>, user: string) returns (l: Listing)
    requires ssh.open && ssh.issued == [] && |cmds| == 5
    modifies ssh
    ensures l == Head(ssh.replies, cmds, user)
    ensures l.Listed? ==> ssh.open && ssh.issued == cmds
  {
    var stop := RunFirstPhases(ssh, cmds, user);
    if stop.Some? {
      return Halted(stop.value);
    }
    l := RunListing(ssh, cmds);
  }

  /** The user and asdf phases. */
  method RunFirstPhases(ssh: Session, cmds: seq<string>, user: string) returns (stop: Option<Trace>)
    requires ssh.open && ssh.issued == [] && |cmds| == 5
    modifies ssh
    ensures stop == FirstPhases(ssh.replies, cmds, user)
    ensures stop.None? ==> ssh.open && ssh.issued == cmds[..3]
  {
    var created, _ := ssh.Exec(cmds[0], false);
    var p := UserCheck(created, user);
    if p.Failed? {
      ssh.Close();
      assert ssh.issued == cmds[..1];
      return Some(PhaseFailed(ssh.issued, "create user", p.message));
    }
    var clone, _ := ssh.Exec(cmds[1], false);
    var bashrc := Nil;
    if !clone.Fault? {
      var printed;
      bashrc, printed := ssh.Exec(cmds[2], false);
    }
    p := AsdfCheck(clone, bashrc, user);
    if p.Failed? {
      ssh.Close();
      assert ssh.issued == cmds[..if ssh.replies(1).Dropped? then 2 else 3];
      return Some(PhaseFailed(ssh.issued, "install asdf", p.message));
    }
    stop := None;
  }

  /** The plugin command, whose result is ignored, and the listing. */
  method RunListing(ssh: Session, cmds: seq<string>) returns (l: Listing)
    requires |cmds| == 5 && ssh.open && ssh.issued == cmds[..3]
    modifies ssh
    ensures l == ListingPhase(ssh.replies, cmds)
    ensures l.Listed? ==> ssh.open && ssh.issued == cmds
  {
    var plugin, _ := ssh.Exec(cmds[3], false);
    if plugin.Fault? {
      return Halted(Trace(ssh.issued, Return(Red("SSH connection failed: " + plugin.message)), LeftOpen));
    }
    var listed, _ := ssh.Exec(cmds[4], false);
    match listed
    case Fault(m) =>
      l := Halted(Trace(ssh.issued, Return(Red("SSH connection failed: " + m)), LeftOpen));
    case Nil =>
      l := Halted(Trace(ssh.issued, Return(Red("Error: " + NilMessage("split"))), LeftOpen));
    case Output(text) =>
      assert ssh.issued == cmds;
      l := Listed(text);
  }

  /** The Ruby, vhost and Caddy phases. */
  method RunTail(ssh: Session, cmds: seq<string>, path: string, user: string, version: string) returns (t: Trace)
    requires ssh.open && |ssh.issued| == 5 && |cmds| == 4
    modifies ssh
    ensures t == Tail(ssh.replies, cmds, path, user, version)
    ensures ssh.issued == old(ssh.issued) + t.issued
  {
    var ruby, _ := ssh.Exec(cmds[0], false);
    var p := Require(ruby, "Ruby " + version + " could not be installed for " + user);
    if p.Failed? {
      ssh.Close();
      return PhaseFailed(cmds[..1], "install Ruby", p.message);
    }
    t := RunVhost(ssh, cmds, path);
  }

  /** The vhost and Caddy phases. */
  method RunVhost(ssh: Session, cmds: seq<string>, path: string) returns (t: Trace)
    requires ssh.open && |ssh.issued| == 6 && |cmds| == 4
    modifies ssh
    ensures t == VhostPhases(ssh.replies, cmds, path)
    ensures ssh.issued == old(ssh.issued) + cmds[1..|t.issued|]
  {
    var probe, _ := ssh.Exec(cmds[1], false);
    ghost var probed := ssh.issued;
    t := AfterProbe(ssh, cmds, path, VhostCheck(probe, path));
    assert cmds[1..|t.issued|] == [cmds[1]] + cmds[2..|t.issued|];
    assert ssh.issued == probed + cmds[2..|t.issued|];
  }

  /** The vhost phase once the probe is back, then the Caddy restart. */
  method AfterProbe(ssh: Session, cmds: seq<string>, path: string, probe: Phase) returns (t: Trace)
    requires ssh.open && |ssh.issued| == 7 && |cmds| == 4
    requires probe == VhostCheck(Answer(ssh.replies(6)), path)
    modifies ssh
    ensures t == VhostPhases(ssh.replies, cmds, path)
    ensures ssh.issued == old(ssh.issued) + cmds[2..|t.issued|]
  {
    if probe.Failed? {
      ssh.Close();
      return PhaseFailed(cmds[..2], "create vhost", probe.message);
    }
    t := RunWrite(ssh, cmds, path);
  }

  /** The write of the vhost file and the Caddy restart. */
  method RunWrite(ssh: Session, cmds: seq<string>, path: string) returns (t: Trace)
    requires ssh.open && |ssh.issued| == 7 && |cmds| == 4
    modifies ssh
    ensures t == WritePhases(ssh.replies, cmds, path)
    ensures ssh.issued == old(ssh.issued) + cmds[2..|t.issued|]
  {
    var written, _ := ssh.Exec(cmds[2], false);
    var p := Require(written, "Failed to create vhost at " + path);
    if p.Failed? {
      ssh.Close();
      return PhaseFailed(cmds[..3], "create vhost", p.message);
    }
    var restarted, _ := ssh.Exec(cmds[3], false);
    p := Require(restarted, "Failed to restart caddy");
    if p.Failed? {
      ssh.Close();
      return PhaseFailed(cmds, "restart caddy", p.message);
    }
    ssh.Close();
    t := Trace(cmds, Finished, Closed);
  }

  // ----------------------------------------------------------- properties

  /** The version the operator picks, when the flow gets to the menu and
      the menu has an entry. */
  function ChosenVersion(listing: Listing, pick: Pick): (v: Option<string>)
    ensures v.Some? ==> IsRubyVersion(v.value)
  {
    match listing
    case Halted(_) => None
    case Listed(text) =>
      var offered := Offered(text);
      if pick.Keys? && offered != [] then
        var v := Chosen(offered, pick.down);
        OfferedFromListing(text, v);
        Some(v)
      else None
  }

  /** Which of the first phases stops the run: the user phase exactly when
      its result is `nil`, mentions "already exists" or raises; after the
      clone raised the `.bashrc` command is not sent, otherwise both asdf
      commands are. */
  lemma FirstPhasesStop(replies: nat -> Reply, cmds: seq<string>, user: string)
    requires |cmds| == 5
    ensures var t := FirstPhases(replies, cmds, user);
            && (t.Some? && |t.value.issued| == 1 <==> UserCheck(Answer(replies(0)), user) != Passed)
            && (t.Some? && |t.value.issued| == 2 <==> UserCheck(Answer(replies(0)), user) == Passed && replies(1).Dropped?)
            && (t.None? ==> !replies(1).Dropped? && !replies(2).Dropped?)
  {
  }

  /** A vhost file that already exists stops the vhost phase before the
      write: the run ends after the probe, with the session closed. */
  lemma VhostExistsStopsWrite(replies: nat -> Reply, cmds: seq<string>, path: string, user: string, version: string)
    requires |cmds| == 4
    requires Answer(replies(5)).Output? && Answer(replies(6)).Output? && Strip(Answer(replies(6)).text) == "exists"
    ensures Tail(replies, cmds, path, user, version)
            == PhaseFailed(cmds[..2], "create vhost", "Vhost file already exists at " + path)
  {
  }

  /** The menu and the tail: the commands before the menu stay first, the
      tail's commands follow in order, and only a run that reaches the tail
      closes the session here. */
  lemma MenuTrace(replies: nat -> Reply, head: seq<string>, host: string, offered: seq<string>,
                  pick: Pick, emptyMenu: string)
    requires |head| == 5
    ensures var t := Menu(replies, head, host, offered, pick, emptyMenu);
            && |t.issued| >= 5 && t.issued[..5] == head
            && (|t.issued| > 5 <==> pick.Keys? && offered != [])
            && (pick.Keys? && offered != [] ==>
                  t.link == Closed
                  && t.issued == (head + TailCommands(host, UserOf(host), Chosen(offered, pick.down)))[..|t.issued|])
            && (t.outcome == Finished ==> |t.issued| == 9)
            && (t.outcome.Finished? || t.outcome.Return? || t.outcome.Interrupted?)
            && (t.link == LeftOpen <==> |t.issued| == 5)
  {
    if pick.Keys? && offered != [] {
      var user := UserOf(host);
      var version := Chosen(offered, pick.down);
      var cmds := TailCommands(host, user, version);
      var tail := Tail(replies, cmds, VhostPath(host), user, version);
      var t := Menu(replies, head, host, offered, pick, emptyMenu);
      assert t.issued == head + tail.issued;
      assert (head + cmds)[..|t.issued|] == head + cmds[..|tail.issued|];
    }
  }

  /** The phases run in their fixed order: whatever the replies and the
      operator's pick, the commands sent are a prefix of the commands
      before the menu followed by those after it for the chosen version,
      and once the menu is passed the session is closed at the end. */
  lemma PhasesInOrder(replies: nat -> Reply, head: seq<string>, host: string, pick: Pick, emptyMenu: string)
    requires |head| == 5
    ensures var t := Connected(replies, head, host, pick, emptyMenu);
            var v := ChosenVersion(Head(replies, head, UserOf(host)), pick);
            && (v.None? ==> 0 < |t.issued| <= 5 && t.issued == head[..|t.issued|])
            && (v.Some? ==> |t.issued| > 5 && t.link == Closed
                            && t.issued == (head + TailCommands(host, UserOf(host), v.value))[..|t.issued|])
  {
    match Head(replies, head, UserOf(host))
    case Halted(_) =>
    case Listed(text) =>
      MenuTrace(replies, head, host, Offered(text), pick, emptyMenu);
  }

  /** A finished run sent every command, in order, and closed the
      session. */
  lemma FinishedSentAll(replies: nat -> Reply, head: seq<string>, host: string, pick: Pick, emptyMenu: string)
    requires |head| == 5
    ensures var t := Connected(replies, head, host, pick, emptyMenu);
            var v := ChosenVersion(Head(replies, head, UserOf(host)), pick);
            t.outcome == Finished ==>
              v.Some? && t.link == Closed && t.issued == head + TailCommands(host, UserOf(host), v.value)
  {
    match Head(replies, head, UserOf(host))
    case Halted(_) =>
    case Listed(text) =>
      MenuTrace(replies, head, host, Offered(text), pick, emptyMenu);
  }

  /** Once connected, the flow never calls `exit` and never lets an error
      escape. Only the unprotected plugin and listing commands, the empty
      menu and an interrupt at the menu leave the session open. */
  lemma ConnectedEnds(replies: nat -> Reply, head: seq<string>, host: string, pick: Pick, emptyMenu: string)
    requires |head| == 5
    ensures var t := Connected(replies, head, host, pick, emptyMenu);
            && (t.outcome.Finished? || t.outcome.Return? || t.outcome.Interrupted?)
            && (t.link == LeftOpen ==> 4 <= |t.issued| <= 5)
  {
    match Head(replies, head, UserOf(host))
    case Halted(_) =>
    case Listed(text) =>
      MenuTrace(replies, head, host, Offered(text), pick, emptyMenu);
  }

  /** A connection that fails sends nothing, and the flow returns rather
      than exits. */
  lemma ConnectFailureSendsNothing(answers: seq<string>, connect: (string, string) -> Connection, replies: nat -> Reply,
                                   pick: Pick, emptyMenu: string)
    requires FirstValid(answers).Some? && !connect(FirstValid(answers).value, Root).Accepted?
    ensures var t := CreateSpec(answers, connect, replies, pick, emptyMenu);
            t.issued == [] && t.link == Never && t.outcome.Return?
  {
  }

  /** The flow never calls `exit` and nothing escapes it: it finishes,
      returns, or ends on the operator's interrupt. */
  lemma NeverExits(answers: seq<string>, connect: (string, string) -> Connection, replies: nat -> Reply,
                   pick: Pick, emptyMenu: string)
    ensures var t := CreateSpec(answers, connect, replies, pick, emptyMenu);
            t.outcome.Finished? || t.outcome.Return? || t.outcome.Interrupted?
  {
    match FirstValid(answers)
    case None =>
    case Some(host) =>
      var head := HeadCommands(UserOf(host));
      if connect(host, Root).Accepted? {
        ConnectedEnds(replies, head, host, pick, emptyMenu);
      }
      assert CreateSpec(answers, connect, replies, pick, emptyMenu)
          == ConnectSpec(connect(host, Root), replies, head, host, pick, emptyMenu);
  }
}
