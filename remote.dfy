/**
 * The remote session and `ssh_exec!`.
 *
 * The remote host is a script: the n-th exec request on a session gets
 * `replies(n)`. A reply either refuses the exec request (the exec callback
 * reports `success == false`), runs the command and delivers its stdout and
 * stderr chunks in callback order, or makes the transport raise a
 * `Net::SSH::Exception` (a dropped connection, say).
 */
module Remote {

  datatype Chunk = Stdout(data: string) | Stderr(data: string)

  datatype Reply =
    | Refused
    | Ran(chunks: seq<Chunk>)
    | Dropped(message: string)

  /** What `ssh_exec!` hands back: `nil`, the combined output, or an error it
      raises. */
  datatype ExecResult = Nil | Output(text: string) | Fault(message: string)

  /** The result of connecting with `Net::SSH.start(host, user)`: a session;
      a `Net::SSH::Exception` (authentication failure included); or another
      error, such as a socket error for an unknown or unreachable host. */
  datatype Connection = Accepted | Rejected(message: string) | Unreachable(message: string)

  /** All chunk data, stdout and stderr alike, in callback order. */
  function Combined(chunks: seq<Chunk>): string {
    if chunks == [] then [] else Combined(chunks[..|chunks| - 1]) + chunks[|chunks| - 1].data
  }

  /** The chunk data one by one, as `puts data` prints it in verbose mode. */
  function Printed(chunks: seq<Chunk>): (lines: seq<string>)
    ensures |lines| == |chunks|
    ensures forall i :: 0 <= i < |chunks| ==> lines[i] == chunks[i].data
  {
    seq(|chunks|, i requires 0 <= i < |chunks| => chunks[i].data)
  }

  /** Output gathered from two runs of callbacks is the output of each. */
  lemma {:induction false} CombinedAppend(a: seq<Chunk>, b: seq<Chunk>)
    ensures Combined(a + b) == Combined(a) + Combined(b)
    decreases |b|
  {
    if b == [] {
      assert a + b == a;
    } else {
      var b' := b[..|b| - 1];
      assert (a + b)[..|a + b| - 1] == a + b';
      CombinedAppend(a, b');
    }
  }

  /** Each chunk's data sits in the combined output right after the data of
      the chunks before it. */
  lemma CombinedHasChunk(chunks: seq<Chunk>, i: nat)
    requires i < |chunks|
    ensures var before := |Combined(chunks[..i])|;
            before + |chunks[i].data| <= |Combined(chunks)| &&
            Combined(chunks)[before..before + |chunks[i].data|] == chunks[i].data
  {
    assert chunks == chunks[..i] + [chunks[i]] + chunks[i + 1..];
    CombinedAppend(chunks[..i] + [chunks[i]], chunks[i + 1..]);
    CombinedAppend(chunks[..i], [chunks[i]]);
    assert Combined([chunks[i]]) == chunks[i].data by {
      assert [chunks[i]][..0] == [];
    }
  }

  /** What `ssh_exec!` returns for a reply: `nil` exactly for a refused
      exec, the output exactly for a run, and the error of a dropped
      transport. */
  function Answer(reply: Reply): (r: ExecResult)
    ensures r.Nil? <==> reply.Refused?
    ensures r.Output? <==> reply.Ran?
    ensures reply.Dropped? ==> r == Fault(reply.message)
  {
    match reply
    case Refused => Nil
    case Ran(chunks) => Output(Combined(chunks))
    case Dropped(m) => Fault(m)
  }

  /** One SSH session to `host` as `user`. */
  class Session {
    const host: string
    const user: string
    const replies: nat -> Reply
    /** Every command sent so far, in order. */
    var issued: seq<string>
    var open: bool

    constructor (host: string, user: string, replies: nat -> Reply)
      ensures this.host == host && this.user == user && this.replies == replies
      ensures issued == [] && open
    {
      this.host := host;
      this.user := user;
      this.replies := replies;
      issued := [];
      open := true;
    }

    /** The reply the next exec request will get. */
    function Next(): Reply
      reads this
    {
      replies(|issued|)
    }

    /** `ssh_exec!`: sends `command`, then collects the output that the data
        and extended-data callbacks append, printing each chunk when
        `verbose`. The flag changes what is printed and nothing else. */
    method Exec(command: string, verbose: bool) returns (r: ExecResult, printed: seq<string>)
      requires open
      modifies this
      ensures open && issued == old(issued) + [command]
      ensures r == Answer(old(Next()))
      ensures printed == if verbose && old(Next()).Ran? then Printed(old(Next()).chunks) else []
    {
      var reply := replies(|issued|);
      issued := issued + [command];
      printed := [];
      match reply
      case Refused =>
        r := Nil;
      case Dropped(m) =>
        r := Fault(m);
      case Ran(chunks) =>
        var output := "";
        var i := 0;
        while i < |chunks|
          invariant 0 <= i <= |chunks|
          invariant output == Combined(chunks[..i])
          invariant printed == if verbose then Printed(chunks[..i]) else []
        {
          assert chunks[..i + 1][..i] == chunks[..i];
          output := output + chunks[i].data;
          if verbose {
            printed := printed + [chunks[i].data];
          }
          i := i + 1;
        }
        assert chunks[..i] == chunks;
        r := Output(output);
    }

    /** `ssh.close`. */
    method Close()
      modifies this
      ensures !open && issued == old(issued)
    {
      open := false;
    }
  }
}
