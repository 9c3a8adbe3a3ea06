/** Classification of one reply line read from the return pipe
    (leftwm/src/bin/leftwm-command.rs, lines 34-42). */
module ReplyClassifier {

  datatype Option<T> = None | Some(value: T)

  /** The two console streams the client prints to. */
  datatype Stream = Stdout | Stderr

  /** One printed line: the stream it goes to and its text (without the newline). */
  datatype OutLine = OutLine(stream: Stream, text: string)

  /** The printed line for one reply, and whether the reply marks the batch as failed. */
  datatype Classified = Classified(line: OutLine, isError: bool)

  const OkToken: string := "OK:"
  const ErrorToken: string := "ERROR:"

  /** Rust's `str::split_once(sep)`: the text before the FIRST `sep` and the
      text after it, or None when `sep` does not occur. */
  function SplitOnce(s: string, sep: char): (r: Option<(string, string)>)
    ensures r.None? <==> sep !in s
    ensures r.Some? ==> sep !in r.value.0 && s == r.value.0 + [sep] + r.value.1
  {
    if |s| == 0 then None
    else if s[0] == sep then Some(([], s[1..]))
    else match SplitOnce(s[1..], sep)
      case None => None
      case Some(p) => Some(([s[0]] + p.0, p.1))
  }

  /** Splitting is the inverse of joining with a separator-free left part:
      the split happens at the first separator, so the right part may itself
      contain separators. */
  lemma {:induction false} SplitOnceJoin(left: string, sep: char, right: string)
    requires sep !in left
    ensures SplitOnce(left + [sep] + right, sep) == Some((left, right))
  {
    var s := left + [sep] + right;
    if left == [] {
      assert s[1..] == right;
    } else {
      assert s[0] == left[0];
      assert s[1..] == left[1..] + [sep] + right;
      SplitOnceJoin(left[1..], sep, right);
      assert [s[0]] + left[1..] == left;
    }
  }

  /** The three-way match on the first token of a reply line. */
  function Classify(command: string, res: string): (r: Classified)
    ensures r.isError <==> r.line.stream == Stderr
    ensures StartsWith(r.line.text, command + ": ")
  {
    match SplitOnce(res, ' ')
    case Some(p) =>
      if p.0 == OkToken then Classified(OutLine(Stdout, command + ": " + p.1), false)
      else if p.0 == ErrorToken then Classified(OutLine(Stderr, command + ": " + p.1), true)
      else Classified(OutLine(Stdout, command + ": " + res), false)
    case None => Classified(OutLine(Stdout, command + ": " + res), false)
  }

  predicate StartsWith(s: string, prefix: string) {
    |prefix| <= |s| && s[..|prefix|] == prefix
  }

  /** A reply whose first token is exactly "OK:" prints the message after the
      first space on stdout and leaves the batch status alone. */
  lemma ClassifyOk(command: string, res: string)
    requires StartsWith(res, OkToken + " ")
    ensures Classify(command, res) == Classified(OutLine(Stdout, command + ": " + res[4..]), false)
  {
    assert res == OkToken + [' '] + res[4..];
    SplitOnceJoin(OkToken, ' ', res[4..]);
  }

  /** A reply whose first token is exactly "ERROR:" prints the message after
      the first space on stderr and marks the batch as failed. */
  lemma ClassifyError(command: string, res: string)
    requires StartsWith(res, ErrorToken + " ")
    ensures Classify(command, res) == Classified(OutLine(Stderr, command + ": " + res[7..]), true)
  {
    assert res == ErrorToken + [' '] + res[7..];
    SplitOnceJoin(ErrorToken, ' ', res[7..]);
  }

  /** Any other reply -- one without a space, or whose first token is neither
      "OK:" nor "ERROR:" -- is printed whole on stdout and is not an error. */
  lemma ClassifyOther(command: string, res: string)
    requires !StartsWith(res, OkToken + " ") && !StartsWith(res, ErrorToken + " ")
    ensures Classify(command, res) == Classified(OutLine(Stdout, command + ": " + res), false)
  {
  }

  /** A reply is an error exactly when it starts with "ERROR: ". */
  lemma ClassifyIsErrorIff(command: string, res: string)
    ensures Classify(command, res).isError <==> StartsWith(res, ErrorToken + " ")
  {
    if StartsWith(res, ErrorToken + " ") {
      ClassifyError(command, res);
    } else if StartsWith(res, OkToken + " ") {
      ClassifyOk(command, res);
    } else {
      ClassifyOther(command, res);
    }
  }

  /** Worked case: a bare "OK:" has no space, so it is printed verbatim. */
  lemma BareOkIsVerbatim(command: string)
    ensures Classify(command, "OK:") == Classified(OutLine(Stdout, command + ": OK:"), false)
  {
  }
}
