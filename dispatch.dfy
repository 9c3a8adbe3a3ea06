/** The batch loop of `leftwm-command` (leftwm/src/bin/leftwm-command.rs,
    lines 24-52): each command is appended to the command pipe, one reply is
    awaited on the return pipe against a 5000 ms timeout, and the reply is
    classified; an "ERROR:" reply makes the final status an error, and a
    timeout ends the process with exit code 1.

    The pipes are not modelled as files. What the loop can observe of them is
    given as inputs:
    - `sends[i]` is the outcome of appending `commands[i]` to the command pipe;
    - `returnPipeOpens` says whether the return pipe could be created and
      connected;
    - `replies` are the lines the return pipe delivers in time, in order.
      A wait that finds them exhausted is a timeout. End of file on the return
      pipe disables the reply branch of the race, so it ends the same way. */
module CommandDispatch {
  import opened ReplyClassifier

  /** The outcome of appending one command line to the command pipe. */
  datatype Send = Written | WriteFailed(reason: string)

  /** Why the process ends with an error result from `main`. */
  datatype ErrorKind =
    | CommandErrors          // at least one reply was "ERROR: ..."
    | ReturnPipeUnavailable  // the return pipe could not be created or connected

  /** How the process ends: `main` returns Ok or Err, or `exit` is called. */
  datatype Status = Ok | Err(kind: ErrorKind) | Exit(code: int)

  /** Everything the batch produces: the printed lines in order, the lines
      appended to the command pipe, and how the process ends. */
  datatype Outcome = Outcome(out: seq<OutLine>, written: seq<string>, status: Status)

  /** The loop's state between two commands: lines printed so far, commands
      appended so far, the `exit_state` flag, and the number of reply lines
      already taken from the return pipe. */
  datatype State = State(out: seq<OutLine>, written: seq<string>, failed: bool, next: nat)

  const Start: State := State([], [], false, 0)

  function WriteErrorLine(reason: string): OutLine {
    OutLine(Stderr, " ERROR: Couldn't write to commands.pipe: " + reason)
  }

  const TimeoutWarning: OutLine :=
    OutLine(Stderr, " WARN: timeout connecting to return pipe. Command may have executed, but errors will not be displayed.")

  /** The process exit code: Rust reports an Err returned from `main` with
      code 1. */
  function ExitCode(s: Status): (c: int) {
    match s
    case Ok => 0
    case Err(_) => 1
    case Exit(c) => c
  }

  /** The loop from command `i` on, as a fold over the batch. Lines already
      printed and commands already written are kept; each remaining command
      adds at most one line; the loop itself never reports a missing return
      pipe; and it exits only with code 1, right after the timeout warning. */
  function Loop(commands: seq<string>, sends: seq<Send>, replies: seq<string>, i: nat, st: State): (o: Outcome)
    requires |sends| == |commands| && i <= |commands|
    ensures |st.out| <= |o.out| <= |st.out| + (|commands| - i) && o.out[..|st.out|] == st.out
    ensures |st.written| <= |o.written| <= |st.written| + (|commands| - i) && o.written[..|st.written|] == st.written
    ensures o.status != Err(ReturnPipeUnavailable)
    ensures o.status.Exit? ==> o.status == Exit(1) && |o.out| > 0 && o.out[|o.out| - 1] == TimeoutWarning
    decreases |commands| - i
  {
    if i == |commands| then
      Outcome(st.out, st.written, if st.failed then Err(CommandErrors) else Ok)
    else match sends[i]
      case WriteFailed(e) =>
        Loop(commands, sends, replies, i + 1, st.(out := st.out + [WriteErrorLine(e)]))
      case Written =>
        if st.next < |replies| then
          var c := Classify(commands[i], replies[st.next]);
          Loop(commands, sends, replies, i + 1,
               State(st.out + [c.line], st.written + [commands[i]], st.failed || c.isError, st.next + 1))
        else
          Outcome(st.out + [TimeoutWarning], st.written + [commands[i]], Exit(1))
  }

  /** The whole of `main` from `exit_state` on: no commands means no return
      pipe is opened; a return pipe that cannot be opened ends `main` with an
      error before anything is printed or written. */
  function Run(commands: seq<string>, sends: seq<Send>, returnPipeOpens: bool, replies: seq<string>): (o: Outcome)
    requires |sends| == |commands|
    ensures |o.out| <= |commands| && |o.written| <= |commands|
    ensures o.status == Err(ReturnPipeUnavailable) <==> commands != [] && !returnPipeOpens
    ensures o.status == Err(ReturnPipeUnavailable) ==> o.out == [] && o.written == []
  {
    if commands == [] then Outcome([], [], Ok)
    else if !returnPipeOpens then Outcome([], [], Err(ReturnPipeUnavailable))
    else Loop(commands, sends, replies, 0, Start)
  }

  /** The batch loop as the source runs it: a loop over the commands with a
      mutable `exit_state`, a `continue` on a failed write and an early exit
      on a timeout. */
  method DispatchBatch(commands: seq<string>, sends: seq<Send>, returnPipeOpens: bool, replies: seq<string>)
    returns (o: Outcome)
    requires |sends| == |commands|
    ensures o == Run(commands, sends, returnPipeOpens, replies)
  {
    var out: seq<OutLine> := [];
    var written: seq<string> := [];
    var failed := false;
    if |commands| > 0 {
      if !returnPipeOpens {
        return Outcome([], [], Err(ReturnPipeUnavailable));
      }
      var next := 0;
      var i := 0;
      while i < |commands|
        invariant i <= |commands|
        invariant Loop(commands, sends, replies, i, State(out, written, failed, next))
               == Loop(commands, sends, replies, 0, Start)
      {
        var command := commands[i];
        if sends[i].WriteFailed? {
          out := out + [WriteErrorLine(sends[i].reason)];
        } else {
          written := written + [command];
          if next < |replies| {
            var c := Classify(command, replies[next]);
            out := out + [c.line];
            failed := failed || c.isError;
            next := next + 1;
          } else {
            return Outcome(out + [TimeoutWarning], written, Exit(1));
          }
        }
        i := i + 1;
      }
    }
    o := Outcome(out, written, if failed then Err(CommandErrors) else Ok);
  }

  // ---------------------------------------------------------------------
  // A closed-form description of the batch, by position.

  /** The number of commands among the first `i` whose write succeeded, which
      is the number of reply lines awaited before command `i`. */
  function SentBefore(sends: seq<Send>, i: nat): (n: nat)
    requires i <= |sends|
    ensures n <= i
  {
    if i == 0 then 0 else SentBefore(sends, i - 1) + (if sends[i - 1].Written? then 1 else 0)
  }

  /** The commands among the first `i` whose write succeeded, in order. */
  function Delivered(commands: seq<string>, sends: seq<Send>, i: nat): (d: seq<string>)
    requires |sends| == |commands| && i <= |commands|
    ensures |d| == SentBefore(sends, i)
  {
    if i == 0 then []
    else Delivered(commands, sends, i - 1) + (if sends[i - 1].Written? then [commands[i - 1]] else [])
  }

  /** Command `i` was written but the return pipe has no reply left for it. */
  predicate TimesOutAt(sends: seq<Send>, replies: seq<string>, i: nat) {
    i < |sends| && sends[i].Written? && SentBefore(sends, i) >= |replies|
  }

  predicate NoTimeoutBefore(sends: seq<Send>, replies: seq<string>, i: nat) {
    forall j :: 0 <= j < i ==> !TimesOutAt(sends, replies, j)
  }

  /** The line printed for command `i` when it does not time out: the write
      error, or the classification of the reply whose position among the
      replies is the number of commands written before it. */
  function LineFor(commands: seq<string>, sends: seq<Send>, replies: seq<string>, i: nat): (line: OutLine)
    requires |sends| == |commands| && i < |commands| && !TimesOutAt(sends, replies, i)
  {
    match sends[i]
    case WriteFailed(e) => WriteErrorLine(e)
    case Written => Classify(commands[i], replies[SentBefore(sends, i)]).line
  }

  /** Command `i` was written and its reply is an "ERROR:" reply. */
  predicate ErrorAt(commands: seq<string>, sends: seq<Send>, replies: seq<string>, i: nat)
    requires |sends| == |commands| && i < |commands|
  {
    sends[i].Written? && SentBefore(sends, i) < |replies|
    && Classify(commands[i], replies[SentBefore(sends, i)]).isError
  }

  /** The loop's state after the first `i` commands, described by position. */
  ghost function Prefix(commands: seq<string>, sends: seq<Send>, replies: seq<string>, i: nat): (st: State)
    requires |sends| == |commands| && i <= |commands| && NoTimeoutBefore(sends, replies, i)
    ensures |st.out| == i
    ensures forall j :: 0 <= j < i ==> st.out[j] == LineFor(commands, sends, replies, j)
    ensures st.failed <==> exists j :: 0 <= j < i && ErrorAt(commands, sends, replies, j)
    ensures st.next == SentBefore(sends, i) && st.written == Delivered(commands, sends, i)
  {
    if i == 0 then Start
    else
      var p := Prefix(commands, sends, replies, i - 1);
      State(p.out + [LineFor(commands, sends, replies, i - 1)],
            Delivered(commands, sends, i),
            p.failed || ErrorAt(commands, sends, replies, i - 1),
            SentBefore(sends, i))
  }

  // ---------------------------------------------------------------------
  // Properties of the batch.

  /** Running the loop over the first `i` commands reaches the positional
      state `Prefix(i)`, as long as none of them timed out. */
  lemma {:induction false} LoopReachesPrefix(commands: seq<string>, sends: seq<Send>, replies: seq<string>, i: nat)
    requires |sends| == |commands| && i <= |commands| && NoTimeoutBefore(sends, replies, i)
    ensures Loop(commands, sends, replies, 0, Start)
         == Loop(commands, sends, replies, i, Prefix(commands, sends, replies, i))
  {
    if i > 0 {
      LoopReachesPrefix(commands, sends, replies, i - 1);
      assert !TimesOutAt(sends, replies, i - 1);
      var p := Prefix(commands, sends, replies, i - 1);
      var q := Prefix(commands, sends, replies, i);
      if sends[i - 1].Written? {
        var c := Classify(commands[i - 1], replies[p.next]);
        assert q == State(p.out + [c.line], p.written + [commands[i - 1]], p.failed || c.isError, p.next + 1);
      } else {
        assert q == p.(out := p.out + [WriteErrorLine(sends[i - 1].reason)]);
      }
      assert Loop(commands, sends, replies, i - 1, p) == Loop(commands, sends, replies, i, q);
    }
  }

  /** A batch without a timeout prints exactly one line per command, in input
      order; each written command is paired with the reply at its position
      among the written commands; the commands appended are exactly the ones
      whose write succeeded; and the result is an error exactly when some
      reply was "ERROR:". */
  lemma RunCompletes(commands: seq<string>, sends: seq<Send>, returnPipeOpens: bool, replies: seq<string>)
    requires |sends| == |commands| && returnPipeOpens
    requires NoTimeoutBefore(sends, replies, |commands|)
    ensures var o := Run(commands, sends, returnPipeOpens, replies);
      && |o.out| == |commands|
      && (forall i :: 0 <= i < |commands| ==> o.out[i] == LineFor(commands, sends, replies, i))
      && o.written == Delivered(commands, sends, |commands|)
      && (o.status == Ok || o.status == Err(CommandErrors))
      && (o.status == Err(CommandErrors) <==> exists i :: 0 <= i < |commands| && ErrorAt(commands, sends, replies, i))
  {
    if commands != [] {
      LoopReachesPrefix(commands, sends, replies, |commands|);
    }
  }

  /** The first command that finds no reply ends the batch: the lines of the
      commands before it, then one warning; it was itself written, no later
      command is written or reported, and the process exits with code 1. */
  lemma RunTimesOut(commands: seq<string>, sends: seq<Send>, replies: seq<string>, t: nat)
    requires |sends| == |commands| && TimesOutAt(sends, replies, t) && NoTimeoutBefore(sends, replies, t)
    ensures var o := Run(commands, sends, true, replies);
      && |o.out| == t + 1
      && (forall i :: 0 <= i < t ==> o.out[i] == LineFor(commands, sends, replies, i))
      && o.out[t] == TimeoutWarning
      && o.written == Delivered(commands, sends, t + 1)
      && o.status == Exit(1)
  {
    LoopReachesPrefix(commands, sends, replies, t);
  }

  /** Once `exit_state` holds an error it is never reset: the batch cannot
      end with Ok from such a state. */
  lemma {:induction false} FailureIsSticky(commands: seq<string>, sends: seq<Send>, replies: seq<string>, i: nat, st: State)
    requires |sends| == |commands| && i <= |commands| && st.failed
    ensures Loop(commands, sends, replies, i, st).status != Ok
    decreases |commands| - i
  {
    if i < |commands| {
      match sends[i]
      case WriteFailed(e) =>
        FailureIsSticky(commands, sends, replies, i + 1, st.(out := st.out + [WriteErrorLine(e)]));
      case Written =>
        if st.next < |replies| {
          var c := Classify(commands[i], replies[st.next]);
          FailureIsSticky(commands, sends, replies, i + 1,
            State(st.out + [c.line], st.written + [commands[i]], true, st.next + 1));
        }
    }
  }

  /** If any timeout happens, the first one is well defined. */
  lemma {:induction false} FirstTimeout(sends: seq<Send>, replies: seq<string>, n: nat) returns (t: nat)
    requires n <= |sends| && !NoTimeoutBefore(sends, replies, n)
    ensures t < n && TimesOutAt(sends, replies, t) && NoTimeoutBefore(sends, replies, t)
  {
    if NoTimeoutBefore(sends, replies, n - 1) {
      t := n - 1;
    } else {
      t := FirstTimeout(sends, replies, n - 1);
    }
  }

  /** The exit code is 0 exactly when there were no commands, or the return
      pipe opened, no wait timed out and no reply was "ERROR:". Write failures
      play no part. */
  lemma ExitCodeZeroIff(commands: seq<string>, sends: seq<Send>, returnPipeOpens: bool, replies: seq<string>)
    requires |sends| == |commands|
    ensures ExitCode(Run(commands, sends, returnPipeOpens, replies).status) == 0
        <==> commands == []
             || (returnPipeOpens && NoTimeoutBefore(sends, replies, |commands|)
                 && forall i :: 0 <= i < |commands| ==> !ErrorAt(commands, sends, replies, i))
  {
    if commands != [] && returnPipeOpens {
      if NoTimeoutBefore(sends, replies, |commands|) {
        RunCompletes(commands, sends, returnPipeOpens, replies);
      } else {
        var t := FirstTimeout(sends, replies, |commands|);
        RunTimesOut(commands, sends, replies, t);
      }
    }
  }

  /** The k-th reply goes to the k-th command whose write succeeded: the
      reply positions of written commands grow with their input positions,
      and command `j`'s reply position is its position among the appended
      commands. */
  lemma {:induction false} PairedByPosition(commands: seq<string>, sends: seq<Send>, i: nat, j: nat)
    requires |sends| == |commands| && j < i <= |commands| && sends[j].Written?
    ensures SentBefore(sends, j) < SentBefore(sends, i)
    ensures Delivered(commands, sends, i)[SentBefore(sends, j)] == commands[j]
  {
    if j < i - 1 {
      PairedByPosition(commands, sends, i - 1, j);
    }
  }

  /** Failed writes consume no reply line: across any run of commands whose
      writes all failed, the reply position does not move. */
  lemma {:induction false} NoWritesNoReplies(sends: seq<Send>, k: nat, i: nat)
    requires k <= i <= |sends| && forall j :: k <= j < i ==> sends[j].WriteFailed?
    ensures SentBefore(sends, i) == SentBefore(sends, k)
  {
    if i > k {
      NoWritesNoReplies(sends, k, i - 1);
    }
  }

  /** When every write fails, each command gets its write-error line on
      stderr, nothing waits on the return pipe, and the result is still Ok:
      write failures do not touch `exit_state`. */
  lemma AllWritesFail(commands: seq<string>, sends: seq<Send>, replies: seq<string>)
    requires |sends| == |commands| && forall j :: 0 <= j < |sends| ==> sends[j].WriteFailed?
    ensures var o := Run(commands, sends, true, replies);
      && |o.out| == |commands|
      && (forall i :: 0 <= i < |commands| ==> o.out[i] == WriteErrorLine(sends[i].reason))
      && o.written == []
      && o.status == Ok
  {
    NoWritesNoReplies(sends, 0, |sends|);
    RunCompletes(commands, sends, true, replies);
  }

  /** With no commands, no return pipe is needed and the result is Ok with
      nothing printed or written. */
  lemma EmptyBatchIsOk(sends: seq<Send>, returnPipeOpens: bool, replies: seq<string>)
    requires |sends| == 0
    ensures Run([], sends, returnPipeOpens, replies) == Outcome([], [], Ok)
  {
  }
}
