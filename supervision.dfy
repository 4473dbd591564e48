/**
 * How `execute_code` turns the way the child process ended into `stdout`,
 * `stderr` and `exitCode` (the try/except around `subprocess.run`).  Launching
 * and waiting are not modelled: the way the run ended is an input.
 */
module Supervision {
  import opened Config
  import opened Wrappers
  import opened PyStr

  /** How `subprocess.run` returned.  `out` and `err` are the child's output
      already decoded as UTF-8 with replacement; `msg` is `str(e)` of any other
      exception (a missing interpreter, say). */
  datatype Outcome =
    | Completed(out: string, err: string, rc: int)
    | TimedOut
    | Failed(msg: string)

  datatype Captured = Captured(stdout: string, stderr: string, exitCode: int)

  const TIMEOUT_EXIT_CODE: int := 124
  const ERROR_EXIT_CODE: int := 1

  function TimeoutMessage(timeout: int): string {
    "Execution timed out after " + IntToDecimal(timeout) + " seconds"
  }

  /** The three values the try/except leaves behind. */
  function Capture(o: Outcome, timeout: int): (c: Captured)
    ensures o.Completed? ==> c.exitCode == o.rc && c.stdout <= o.out && c.stderr <= o.err
    ensures |c.stdout| <= MAX_OUTPUT_BYTES
    ensures !o.Completed? ==> c.stdout == ""
    ensures o.TimedOut? ==> c.exitCode == TIMEOUT_EXIT_CODE
    ensures o.Failed? ==> c.exitCode == ERROR_EXIT_CODE && c.stderr == o.msg
  {
    match o
    case Completed(out, err, rc) =>
      Captured(Truncate(out, MAX_OUTPUT_BYTES), Truncate(err, MAX_OUTPUT_BYTES), rc)
    case TimedOut => Captured("", TimeoutMessage(timeout), TIMEOUT_EXIT_CODE)
    case Failed(msg) => Captured("", msg, ERROR_EXIT_CODE)
  }

  /** The try/except itself, assigning the three variables branch by branch. */
  method CaptureOutcome(o: Outcome, timeout: int) returns (stdout: string, stderr: string, exitCode: int)
    ensures Captured(stdout, stderr, exitCode) == Capture(o, timeout)
  {
    if o.Completed? {
      stdout := o.out;
      if |stdout| > MAX_OUTPUT_BYTES {
        stdout := stdout[..MAX_OUTPUT_BYTES];
      }
      stderr := o.err;
      if |stderr| > MAX_OUTPUT_BYTES {
        stderr := stderr[..MAX_OUTPUT_BYTES];
      }
      exitCode := o.rc;
    } else if o.TimedOut? {
      stdout := "";
      stderr := "Execution timed out after " + IntToDecimal(timeout) + " seconds";
      exitCode := 124;
    } else {
      stdout := "";
      stderr := o.msg;
      exitCode := 1;
    }
  }

  /** Normal completion: each stream is a prefix of the child's output of at
      most MAX_OUTPUT_BYTES characters, unchanged when already within the cap,
      exactly at the cap otherwise; the exit code is the child's. */
  lemma CompletedCapture(out: string, err: string, rc: int, timeout: int)
    ensures var c := Capture(Completed(out, err, rc), timeout);
      |c.stdout| <= MAX_OUTPUT_BYTES && c.stdout <= out
      && |c.stderr| <= MAX_OUTPUT_BYTES && c.stderr <= err
      && (|out| <= MAX_OUTPUT_BYTES ==> c.stdout == out)
      && (|err| <= MAX_OUTPUT_BYTES ==> c.stderr == err)
      && (|out| > MAX_OUTPUT_BYTES ==> |c.stdout| == MAX_OUTPUT_BYTES)
      && (|err| > MAX_OUTPUT_BYTES ==> |c.stderr| == MAX_OUTPUT_BYTES)
      && c.exitCode == rc
  {
  }

  /** A timeout gives exit code 124, no stdout, and a stderr that names the
      effective timeout: the number can be read back from the message. */
  lemma TimedOutCapture(timeout: int)
    ensures var c := Capture(TimedOut, timeout);
      c.exitCode == 124 && c.stdout == ""
      && c.stderr == "Execution timed out after " + IntToDecimal(timeout) + " seconds"
    ensures var m := Capture(TimedOut, timeout).stderr;
      |m| > 34 && ParseDecimal(m[26..|m| - 8]) == Some(timeout)
  {
    var m := Capture(TimedOut, timeout).stderr;
    assert m[26..|m| - 8] == IntToDecimal(timeout);
    ParseIntToDecimal(timeout);
  }

  /** Two different timeouts never produce the same timeout message. */
  lemma TimeoutMessageInjective(t1: int, t2: int)
    requires TimeoutMessage(t1) == TimeoutMessage(t2)
    ensures t1 == t2
  {
    var m1, m2 := TimeoutMessage(t1), TimeoutMessage(t2);
    assert m1[26..|m1| - 8] == IntToDecimal(t1);
    assert m2[26..|m2| - 8] == IntToDecimal(t2);
    IntToDecimalInjective(t1, t2);
  }

  /** Any other exception gives exit code 1, no stdout and the message as stderr. */
  lemma FailedCapture(msg: string, timeout: int)
    ensures Capture(Failed(msg), timeout) == Captured("", msg, 1)
  {
  }

  /** The timeout sentinel is not reserved: a child that prints the timeout
      message on stderr and exits with 124 yields the very result a timeout does
      whenever the message fits under the cap, as it does for every timeout
      from -1000 to 120. */
  lemma SentinelCanBeForged(timeout: int)
    requires |TimeoutMessage(timeout)| <= MAX_OUTPUT_BYTES
    ensures Capture(Completed("", TimeoutMessage(timeout), 124), timeout) == Capture(TimedOut, timeout)
  {
  }

  /** Every timeout an admitted request can carry from -1000 up has a message
      under the cap. */
  lemma TimeoutMessageFits(timeout: int)
    requires -1000 <= timeout <= MAX_TIMEOUT
    ensures |TimeoutMessage(timeout)| <= MAX_OUTPUT_BYTES
  {
    NatToDecimalLength(if timeout < 0 then -timeout else timeout);
  }

  lemma {:induction false} NatToDecimalLength(n: nat)
    ensures |NatToDecimal(n)| <= n + 1
  {
    if n >= 10 {
      NatToDecimalLength(n / 10);
    }
  }
}
