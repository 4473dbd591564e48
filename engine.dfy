/**
 * `execute_code` as a whole: the workspace lifecycle and the order of its
 * steps.  The file system, the child process and the clock are inputs
 * (`Effects`); the temporary directory is an object whose phase records
 * how far the lifecycle got.
 */
module Engine {
  import opened Wrappers
  import opened Admission
  import opened Staging
  import opened Supervision
  import opened Collection

  /** The OSError staging can raise, and where (its message in `msg`). */
  datatype StagingFault =
    | MakedirsFailed(msg: string)     // `os.makedirs(output_dir)`, line 81
    | ScriptWriteFailed(msg: string)  // opening or writing the script, lines 92-93

  /** What the outside world does during one call. */
  datatype Effects = Effects(
    workDir: string,                      // the path `tempfile.mkdtemp` returns
    stagingFault: Option<StagingFault>,   // an OSError raised while staging
    outcome: Outcome,                     // how `subprocess.run` ended
    after: OutputDir)                     // the output path once the child is done

  /** The dictionary `execute_code` returns: exactly these four keys. */
  datatype ExecResult = ExecResult(stdout: string, stderr: string, exitCode: int, files: seq<FileRecord>)

  /** The exceptions `execute_code` lets escape. */
  datatype EngineError = StagingError(fault: StagingFault) | CollectionError(error: CollectError)

  datatype Execution = Returned(result: ExecResult) | Raised(error: EngineError)

  /** Created: the work root exists.  ScriptWritten: the output directory and
      the script exist.  ChildExited: the child has finished.  FilesRead: the
      output files are read.  Removed: `shutil.rmtree(work_dir, ignore_errors=True)`
      has been called; being best effort, it may leave files behind. */
  datatype Phase = Created | ScriptWritten | ChildExited | FilesRead | Removed

  /** The result, the phase the workspace is left in, and the script and
      command the child was launched with (none when staging raised). */
  datatype Trace = Trace(execution: Execution, finalPhase: Phase, launched: Option<Staged>)

  /** The temporary directory of one call. */
  class Workspace {
    const root: string
    var phase: Phase
    var staged: Option<Staged>
    var output: OutputDir

    /** `tempfile.mkdtemp`: a fresh, empty work root. */
    constructor (root: string)
      ensures this.root == root
      ensures phase == Created && staged == None && output == NotADirectory
    {
      this.root := root;
      phase := Created;
      staged := None;
      output := NotADirectory;
    }

    /** Lines 80-93: create the output directory, then write the script.  When
        `os.makedirs` raises nothing is created; when the write raises the
        output directory already exists but no script was staged. */
    method Stage(lang: Language, code: string, q: Quoting, fault: Option<StagingFault>)
      requires phase == Created
      modifies this
      ensures fault.None? ==>
        phase == ScriptWritten && staged == Some(Staging.Stage(lang, code, root, q)) && output == Listing([])
      ensures fault.Some? ==> phase == Created && staged == old(staged)
      ensures fault.Some? && fault.value.MakedirsFailed? ==> output == old(output)
      ensures fault.Some? && fault.value.ScriptWriteFailed? ==> output == Listing([])
    {
      if fault.Some? && fault.value.MakedirsFailed? {
        return;
      }
      output := Listing([]);
      if fault.None? {
        staged := Some(Staging.Stage(lang, code, root, q));
        phase := ScriptWritten;
      }
    }

    /** The child has run; `after` is what it left in the output directory. */
    method Finish(after: OutputDir)
      requires phase == ScriptWritten
      modifies this
      ensures phase == ChildExited && output == after && staged == old(staged)
    {
      output := after;
      phase := ChildExited;
    }

    /** Lines 121-129: read the output directory; a listing or a read that
        raises leaves the phase at ChildExited. */
    method Collect() returns (r: Result<seq<FileRecord>, CollectError>)
      requires phase == ChildExited
      modifies this
      ensures r == Collected(output) && output == old(output) && staged == old(staged)
      ensures phase == if r.Success? then FilesRead else ChildExited
    {
      r := CollectFiles(output);
      if r.Success? {
        phase := FilesRead;
      }
    }

    /** Line 132: `shutil.rmtree(work_dir, ignore_errors=True)`.  Its errors
        are ignored, so the phase records that it was called and nothing about
        what it deleted. */
    method Remove()
      requires phase == FilesRead
      modifies this
      ensures phase == Removed && staged == old(staged) && output == old(output)
    {
      phase := Removed;
    }
  }

  /** What `execute_code` returns or raises, and the phase its workspace is left in. */
  function ExecuteSpec(lang: Language, code: string, timeout: int, q: Quoting, fx: Effects): (t: Trace)
    ensures t.finalPhase == Removed <==> t.execution.Returned?
    ensures t.execution.Raised? ==> t.finalPhase in {Created, ChildExited}
    ensures t.finalPhase == Created <==> fx.stagingFault.Some?
    ensures t.launched.None? <==> fx.stagingFault.Some?
  {
    if fx.stagingFault.Some? then Trace(Raised(StagingError(fx.stagingFault.value)), Created, None)
    else
      var st := Some(Staging.Stage(lang, code, fx.workDir, q));
      var c := Capture(fx.outcome, timeout);
      match Collected(fx.after)
      case Failure(err) => Trace(Raised(CollectionError(err)), ChildExited, st)
      case Success(files) => Trace(Returned(ExecResult(c.stdout, c.stderr, c.exitCode, files)), Removed, st)
  }

  /** `execute_code(language, code, timeout)`. */
  method ExecuteCode(lang: Language, code: string, timeout: int, q: Quoting, fx: Effects)
    returns (r: Execution, finalPhase: Phase, launched: Option<Staged>)
    ensures Trace(r, finalPhase, launched) == ExecuteSpec(lang, code, timeout, q, fx)
  {
    var ws := new Workspace(fx.workDir);
    ws.Stage(lang, code, q, fx.stagingFault);
    if fx.stagingFault.Some? {
      return Raised(StagingError(fx.stagingFault.value)), ws.phase, None;
    }
    launched := ws.staged;
    var stdout, stderr, exitCode := CaptureOutcome(fx.outcome, timeout);
    ws.Finish(fx.after);
    var files := ws.Collect();
    if files.Failure? {
      return Raised(CollectionError(files.error)), ws.phase, launched;
    }
    ws.Remove();
    r := Returned(ExecResult(stdout, stderr, exitCode, files.value));
    finalPhase := ws.phase;
  }

  /** Removal of the work root is attempted exactly when `execute_code` returns, and it
      returns on every way the child can end (completion, timeout, launch
      failure) unless staging, listing the output directory or a file read
      raises. */
  lemma CleanupOnEveryOutcome(lang: Language, code: string, timeout: int, q: Quoting, fx: Effects)
    ensures var t := ExecuteSpec(lang, code, timeout, q, fx);
      t.finalPhase == Removed <==> t.execution.Returned?
    ensures ExecuteSpec(lang, code, timeout, q, fx).execution.Returned? <==>
      fx.stagingFault.None? && Collected(fx.after).Success?
    ensures forall o: Outcome ::
      ExecuteSpec(lang, code, timeout, q, fx.(outcome := o)).finalPhase
        == ExecuteSpec(lang, code, timeout, q, fx).finalPhase
  {
  }

  /** Once staging succeeds the child is launched with the script of
      `Staging.Stage` for the work root: its interpreter is fixed by the
      language and its text ends with the code. */
  lemma LaunchedScript(lang: Language, code: string, timeout: int, q: Quoting, fx: Effects)
    ensures var t := ExecuteSpec(lang, code, timeout, q, fx);
      (t.launched.Some? <==> fx.stagingFault.None?)
      && (t.launched.Some? ==>
            t.launched.value == Staging.Stage(lang, code, fx.workDir, q)
            && t.launched.value.command == [Interpreter(lang), t.launched.value.scriptPath]
            && t.launched.value.script[|t.launched.value.script| - |code|..] == code)
  {
    ScriptEndsWithCode(lang, code, fx.workDir, q);
  }

  /** A file that cannot be read escapes as an exception and the work root is
      not removed: the cleanup of line 132 is not in a `finally`. */
  lemma UnreadableFileSkipsCleanup(lang: Language, code: string, timeout: int, q: Quoting, fx: Effects, e: Entry)
    requires fx.stagingFault.None? && fx.after.Listing?
    requires e in fx.after.entries && Kept(e) && !e.readable
    ensures ExecuteSpec(lang, code, timeout, q, fx).execution.Raised?
    ensures ExecuteSpec(lang, code, timeout, q, fx).execution.error.CollectionError?
    ensures ExecuteSpec(lang, code, timeout, q, fx).finalPhase == ChildExited
  {
    CollectedFails(fx.after.entries);
  }

  /** So does an output directory that `os.listdir` cannot read: its
      exception escapes the same way. */
  lemma UnlistableOutputSkipsCleanup(lang: Language, code: string, timeout: int, q: Quoting, fx: Effects)
    requires fx.stagingFault.None? && fx.after.Unlistable?
    ensures ExecuteSpec(lang, code, timeout, q, fx).execution == Raised(CollectionError(ListingFailed))
    ensures ExecuteSpec(lang, code, timeout, q, fx).finalPhase == ChildExited
  {
  }

  /** The returned dictionary: stdout, stderr and exitCode are fixed by how
      the child ended alone, and files by the output directory alone. */
  lemma ResultComposition(lang: Language, code: string, timeout: int, q: Quoting, fx: Effects)
    requires ExecuteSpec(lang, code, timeout, q, fx).execution.Returned?
    ensures var res := ExecuteSpec(lang, code, timeout, q, fx).execution.result;
      Captured(res.stdout, res.stderr, res.exitCode) == Capture(fx.outcome, timeout)
      && Collected(fx.after) == Success(res.files)
  {
  }

  /** Files are still collected after a timeout or a launch failure. */
  lemma FilesCollectedWhateverTheOutcome(lang: Language, code: string, timeout: int, q: Quoting, fx: Effects, o: Outcome)
    requires ExecuteSpec(lang, code, timeout, q, fx).execution.Returned?
    ensures var t := ExecuteSpec(lang, code, timeout, q, fx.(outcome := o));
      t.execution.Returned?
      && t.execution.result.files == ExecuteSpec(lang, code, timeout, q, fx).execution.result.files
  {
  }
}
