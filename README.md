# leftwm-command: reply classification and the batch loop

`leftwm-command` sends a batch of commands to a running LeftWM daemon. Each
command is appended as one line to the daemon's command pipe. The client then
waits up to 5000 ms for one reply line on the return pipe and prints it
against the command. A reply whose first token is `OK:` is printed on stdout.
A reply whose first token is `ERROR:` is printed on stderr and makes the final
result an error. Any other reply is printed whole on stdout. A failed write is
reported and the batch moves on to the next command. A wait that gets no reply
prints a warning and exits with code 1.

The model has two modules:

- `ReplyClassifier` (`reply.dfy`): Rust's `split_once(' ')` as `SplitOnce`,
  and the three-way match on the first token as `Classify`. Lemmas state each
  branch by the prefix of the reply line, with no reference to the split.
- `CommandDispatch` (`dispatch.dfy`): the batch as a fold (`Loop`, `Run`),
  and the imperative loop `DispatchBatch`, proved equal to `Run`. A closed-form
  description by position (`SentBefore`, `Delivered`, `LineFor`, `ErrorAt`,
  `Prefix`) comes with lemmas tying it to the fold. They cover one line per
  command, reply pairing by position, the final status, the timeout cut-off
  and the exit code.

The pipes are inputs, not files:

- `sends[i]` is what happened when `commands[i]` was appended: `Written` or
  `WriteFailed(reason)`.
- `returnPipeOpens` says whether `get_return_pipe` succeeded.
- `replies` are the lines the return pipe delivers in time, in order.

A wait that finds `replies` exhausted is the timeout. End of file on the
return pipe ends the same way: the `Some(res)` pattern of the `select!` then
disables the reply branch, so the timeout wins. The process exits at the
first such wait, so nothing after it is observable. Listing only the in-time
replies therefore loses nothing.

The write-failure path (leftwm/src/bin/leftwm-command.rs:28-30) never touches
`exit_state`, so write failures leave the status alone (`AllWritesFail`,
`ExitCodeZeroIff`).

## Model

| member | source | states |
|---|---|---|
| ReplyClassifier.SplitOnce | leftwm/src/bin/leftwm-command.rs:34 | None exactly when the line has no space; otherwise the left part has no space, and left + " " + right is the line |
| ReplyClassifier.SplitOnceJoin | leftwm/src/bin/leftwm-command.rs:34 | Splitting left + " " + right, with a space-free left, gives back exactly (left, right); the message may itself contain spaces |
| ReplyClassifier.Classify | leftwm/src/bin/leftwm-command.rs:34-42 | A reply is an error exactly when its line goes to stderr; every printed line starts with "{command}: " |
| ReplyClassifier.ClassifyOk | leftwm/src/bin/leftwm-command.rs:34-36 | A line starting "OK: " prints "{command}: {msg}" on stdout, msg being everything after the first space, and is not an error |
| ReplyClassifier.ClassifyError | leftwm/src/bin/leftwm-command.rs:34-37 | A line starting "ERROR: " prints "{command}: {msg}" on stderr and is an error |
| ReplyClassifier.ClassifyOther | leftwm/src/bin/leftwm-command.rs:38-42 | Any other line, with no space or with another first token, prints "{command}: {res}" with the whole line on stdout and is not an error |
| ReplyClassifier.ClassifyIsErrorIff | leftwm/src/bin/leftwm-command.rs:34-42 | A reply sets the error flag if and only if it starts with "ERROR: " |
| ReplyClassifier.BareOkIsVerbatim | leftwm/src/bin/leftwm-command.rs:40-41 | A bare "OK:" has no space and is printed verbatim on stdout, not as an OK reply |
| CommandDispatch.Loop | leftwm/src/bin/leftwm-command.rs:27-46 | The fold over the remaining commands: lines already printed and commands already written are kept, each remaining command adds at most one line and at most one write, it never yields the missing-return-pipe error, and it exits only with code 1 right after the timeout warning; its full result is stated by `LoopReachesPrefix`, `RunCompletes`, `RunTimesOut` and `FailureIsSticky` |
| CommandDispatch.Run | leftwm/src/bin/leftwm-command.rs:24-52 | At most one line and one write per command; the result is the missing-return-pipe error exactly when there are commands and the return pipe (line 26) cannot be opened, and then nothing is printed or written; its full result is stated by `RunCompletes`, `RunTimesOut`, `ExitCodeZeroIff`, `AllWritesFail` and `EmptyBatchIsOk` |
| CommandDispatch.DispatchBatch | leftwm/src/bin/leftwm-command.rs:24-52 | The loop with mutable exit_state, a continue on a failed write and an exit on timeout gives exactly the printed lines, written commands and status of the fold Run |
| CommandDispatch.Delivered | leftwm/src/bin/leftwm-command.rs:27-28 | The commands appended to the command pipe number exactly the successful writes |
| CommandDispatch.Prefix | leftwm/src/bin/leftwm-command.rs:27-46 | After i commands with no timeout: i printed lines, line j being LineFor(j); the error flag is set iff some earlier reply was ERROR; the reply cursor equals the number of successful writes |
| CommandDispatch.LoopReachesPrefix | leftwm/src/bin/leftwm-command.rs:27-46 | Running the loop over the first i commands reaches the state Prefix(i) when none of them timed out |
| CommandDispatch.RunCompletes | leftwm/src/bin/leftwm-command.rs:24-52 | Without a timeout: one line per command in input order, each paired with the reply at its position among the written commands; the written commands are the successful writes; the status is Err exactly when some reply was ERROR, else Ok |
| CommandDispatch.RunTimesOut | leftwm/src/bin/leftwm-command.rs:32-44 | At the first wait with no reply: the earlier commands' lines, then exactly one warning; no later command is written or reported; status Exit(1) |
| CommandDispatch.FailureIsSticky | leftwm/src/bin/leftwm-command.rs:24-37 | Once exit_state is an error, no later step makes the final status Ok |
| CommandDispatch.ExitCodeZeroIff | leftwm/src/bin/leftwm-command.rs:24-52 | Exit code 0 if and only if there are no commands, or the return pipe opened, no wait timed out and no reply was ERROR; write failures do not count |
| CommandDispatch.PairedByPosition | leftwm/src/bin/leftwm-command.rs:27-33 | Reply positions grow with command positions, and a written command's reply position is its index among the appended commands |
| CommandDispatch.NoWritesNoReplies | leftwm/src/bin/leftwm-command.rs:28-30 | Commands whose write failed consume no reply line: across any run of failed writes, wherever it sits in the batch, the reply position does not move |
| CommandDispatch.AllWritesFail | leftwm/src/bin/leftwm-command.rs:28-30 | If every write fails, each command gets its write-error line on stderr, nothing is appended and the status stays Ok |
| CommandDispatch.EmptyBatchIsOk | leftwm/src/bin/leftwm-command.rs:25-27 | No commands: nothing printed or written and the result is Ok, whether or not a return pipe could be opened |

## Left out

- Pipe setup: XDG runtime-path lookup, opening the command pipe, and creating and connecting the return pipe (leftwm/src/bin/leftwm-command.rs:16-23, 133-149). This is filesystem I/O. Its only effect inside the loop's region is the `?` at line 26, modelled by `returnPipeOpens`. `CommandPipe` and `ReturnPipe` belong to `leftwm_core`, which is not part of this model.
- The `tokio::select!` race and the `timeout` sleep (lines 32, 44, 151-154). This is async machinery. Only its outcome is modelled: a reply from `replies`, or the timeout when none is left.
- Line framing and the text of the I/O error in a failed write. The reply line is taken as the string `read_return` yields. The error's display text is the `reason` of `WriteFailed`.
- The `--list` flag and `print_commandlist` (lines 49-51, 65-122): static help text. The clap argument definitions (55-63) and the `Error` enum (124-131) are also left out.
- The message Rust prints when `main` returns an `Err`. Only its exit code, 1, is modelled (`ExitCode`).
- leftwm/src/bin/leftwm-log.rs: it chooses a log backend at compile time and runs `journalctl`, `cat`, `tail` or `grep` through `/bin/sh`. That is external-process I/O with no logic of its own.
