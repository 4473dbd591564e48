# PAI sandbox execution core, modelled in Dafny

The sandbox is a small HTTP server (`sandbox/entrypoint.py`). It runs one
untrusted Python or Node snippet per `POST /run` request in a throw-away
directory. It returns the snippet's stdout, stderr, exit code and the files it
wrote to `output/`, base64-encoded. This project models the deterministic
decisions under that plumbing:

- **admission** (`Admission`): the field defaults, the `min(timeout, 120)` clamp,
  and the two 400 rejections, checked in the source's order;
- **staging** (`Staging`): the paths, script extension, language header and
  interpreter command;
- **outcome mapping** (`Supervision`): completed, timed out or failed becomes
  `(stdout, stderr, exitCode)`;
- **collection** (`Collection`): sort the listing, keep regular files under
  5 MiB, encode each as base64 (`Base64`, section 4 of RFC 4648);
- **lifecycle** (`Engine`): a `Workspace` object moves Created → ScriptWritten →
  ChildExited → FilesRead → Removed, and `ExecuteCode` drives it;
- **request handling** (`Gateway`): admission, then execution, then the reply.

`PyStr` holds the Python string operations the code relies on: `isspace`,
`strip`, the code-point order `sorted` uses, `str(int)` and `s[:n]`.
`Config` holds the constants of lines 22-25.

The outside world is an input. An `Effects` value gives the path `mkdtemp`
returns, an optional OSError raised while staging, how `subprocess.run` ended,
and what the output directory holds afterwards. The quoting done by `repr`
and `json.dumps` is a pair of functions (`Staging.Quoting`).

## Behaviour of the code worth knowing

- The timeout has no lower clamp. It is `min(int(t), 120)`, so 0 and negative values pass (`Admission.NoLowerClamp`).
- `int(timeout)` is evaluated before the language check. An unconvertible timeout raises even for an unsupported language (`Admission.TimeoutConvertedFirst`).
- Exit code 124 is not reserved. A child that exits 124 and prints the timeout message yields exactly the timeout result whenever the message fits under the output cap, as it does for every timeout from -1000 to 120 (`Supervision.SentinelCanBeForged`, `Supervision.TimeoutMessageFits`).
- On a timeout, stderr is only the message. No partial output is drained and no process group is killed.
- Staging errors are not turned into exit code 1. Errors from `makedirs` and the script write escape `execute_code`, and the work root is left behind. When the write fails, `output/` already exists (`Engine.Workspace.Stage`).
- A file that cannot be read is not skipped. The exception escapes, and `rmtree` (which is not in a `finally`) never runs (`Engine.UnreadableFileSkipsCleanup`). The same holds when `os.listdir` itself raises (`Engine.UnlistableOutputSkipsCleanup`).
- Cleanup is best effort. `rmtree(..., ignore_errors=True)` swallows its errors, so a returned result means only that removal was attempted.
- The child's environment is `os.environ` plus two variables, not an allow-list. This is not modelled (see below).

## Model

| member | source | states |
|---|---|---|
| PyStr.LStrip | sandbox/entrypoint.py:69 | the result is a suffix of the input, what it drops is all whitespace, and it does not start with whitespace |
| PyStr.RStrip | sandbox/entrypoint.py:69 | the result is a prefix of the input, what it drops is all whitespace, and it does not end with whitespace |
| PyStr.StripEmptyIffAllSpace | sandbox/entrypoint.py:69 | `not code.strip()` holds exactly when every character is Python whitespace |
| PyStr.Strip | sandbox/entrypoint.py:69 | `strip()` is the input with whitespace-only runs removed at both ends: a contiguous slice of it, preceded and followed only by whitespace, that neither starts nor ends with whitespace |
| PyStr.Less | sandbox/entrypoint.py:124 | the order `sorted` uses never relates a string to itself |
| PyStr.LessAsymmetric | sandbox/entrypoint.py:124 | the string order `sorted` uses is asymmetric |
| PyStr.LessTransitive | sandbox/entrypoint.py:124 | that order is transitive |
| PyStr.NotLessTransitive | sandbox/entrypoint.py:124 | its reflexive closure is transitive |
| PyStr.LessTotal | sandbox/entrypoint.py:124 | any two different names are ordered one way or the other |
| PyStr.Truncate | sandbox/entrypoint.py:109-110 | `s[:n]` is a prefix of at most n characters, the whole string when it fits, exactly n characters otherwise |
| PyStr.NatToDecimal | sandbox/entrypoint.py:114 | `str(n)` is a non-empty run of digits without a leading zero |
| PyStr.IntToDecimal | sandbox/entrypoint.py:114 | `str(n)` is non-empty, starts with `-` exactly for negative n, and is digits after the sign |
| PyStr.ParseIntToDecimal | sandbox/entrypoint.py:114 | the decimal text of an int reads back to that int |
| PyStr.IntToDecimalInjective | sandbox/entrypoint.py:114 | different ints format differently |
| Base64.DecodeSextet | sandbox/entrypoint.py:128 | a character decodes only if it is in the base64 alphabet, and then to the value it encodes |
| Base64.Encode | sandbox/entrypoint.py:128 | `b64encode` gives four characters per started group of three bytes |
| Base64.DecodeEncode | sandbox/entrypoint.py:128 | every byte string decodes back from its encoding |
| Base64.EncodeDecode | sandbox/entrypoint.py:128 | every text that decodes is exactly the encoding of its decoded bytes |
| Admission.ParseLanguage | sandbox/entrypoint.py:65 | a language is accepted exactly when it is "python" or "node" |
| Admission.EffectiveTimeout | sandbox/entrypoint.py:63 | the timeout is 30 by default and `min(n, 120)` otherwise; it never exceeds 120; `int()` failing means no timeout |
| Admission.Admit | sandbox/entrypoint.py:61-71 | a rejection has status 400; an admitted request has a timeout of at most 120 and its own code, which is a string that is not blank; the handler raises exactly when the timeout does not convert, or the language is supported and the code is not a string |
| Admission.AdmitAccepts | sandbox/entrypoint.py:61-73 | execute_code runs exactly when the timeout converts, the language is supported and the code is a string that is not all whitespace; it gets that language and code unchanged |
| Admission.LanguageDefaultsToPython | sandbox/entrypoint.py:61 | a missing language runs as Python, and the only possible rejection is "empty code" |
| Admission.UnsupportedLanguageRejected | sandbox/entrypoint.py:65-67 | an unsupported language gives 400 "unsupported language: ..." whatever the code is, so the language check comes before the empty-code check |
| Admission.EmptyCodeRejected | sandbox/entrypoint.py:69-71 | missing or whitespace-only code with a supported language gives 400 "empty code" |
| Admission.TimeoutConvertedFirst | sandbox/entrypoint.py:63 | an unconvertible timeout raises before any other check |
| Admission.AcceptedTimeout | sandbox/entrypoint.py:63 | an admitted timeout is `min(requested, 120)`, 30 by default, and at most 120 |
| Admission.NoLowerClamp | sandbox/entrypoint.py:63 | a request with a supported language and non-blank code is admitted with any converted timeout up to 120, zero and negative ones included, unchanged |
| Admission.NegativeTimeoutAdmitted | sandbox/entrypoint.py:61-73 | a Node request with timeout -5 is admitted with timeout -5 |
| Staging.Join | sandbox/entrypoint.py:80 | `os.path.join` keeps the directory as a prefix and the relative name as a suffix |
| Staging.Header | sandbox/entrypoint.py:87-90 | the header ends in a newline, and the Node header ends its statement with `;` |
| Staging.HeaderOneLine | sandbox/entrypoint.py:87-90 | when the quoted output path holds no newline, as `repr` and `json.dumps` guarantee, the header is a single line |
| Staging.Stage | sandbox/entrypoint.py:80-95 | the command is the interpreter applied to the script path, and the script ends with the code |
| Staging.ScriptFileName | sandbox/entrypoint.py:83-84 | for a work root without a trailing slash, the script path is exactly `<root>/script.py` for Python and `<root>/script.js` otherwise |
| Staging.CommandFromLanguageOnly | sandbox/entrypoint.py:95 | the command is `[python3, path]` or `[node, path]` and is the same for any code |
| Staging.ScriptEndsWithCode | sandbox/entrypoint.py:87-93 | the script is the language header followed by the code verbatim |
| Staging.OutputDirInsideWorkRoot | sandbox/entrypoint.py:80 | for a work root without a trailing slash, OUTPUT_DIR is exactly `<root>/output` |
| Supervision.Capture | sandbox/entrypoint.py:97-119 | after completion the exit code is the child's and each stream a prefix of the child's, stdout at most 100 KiB; after a timeout or an error stdout is empty and the exit code is 124 or 1, and an error's message is stderr |
| Supervision.CaptureOutcome | sandbox/entrypoint.py:97-119 | the branch-by-branch assignment gives the stdout, stderr and exit code of the outcome mapping |
| Supervision.CompletedCapture | sandbox/entrypoint.py:109-111 | after normal completion each stream is a prefix of at most 100 KiB characters, is unchanged when it fits, is cut to exactly the cap otherwise, and the exit code is the child's |
| Supervision.TimedOutCapture | sandbox/entrypoint.py:112-115 | a timeout gives exit code 124, empty stdout, and the message with the effective timeout, which can be read back from it |
| Supervision.TimeoutMessageInjective | sandbox/entrypoint.py:114 | different timeouts give different messages |
| Supervision.FailedCapture | sandbox/entrypoint.py:116-119 | any other exception gives exit code 1, empty stdout and the message as stderr |
| Supervision.SentinelCanBeForged | sandbox/entrypoint.py:109-115 | whenever the timeout message fits under the 100 KiB cap, a child that exits 124 and prints it is indistinguishable from a timeout |
| Supervision.TimeoutMessageFits | sandbox/entrypoint.py:114 | the timeout message fits under the cap for every timeout from -1000 to 120 |
| Collection.RecordRoundTrip | sandbox/entrypoint.py:127-129 | a record's size is the file's byte count and its data decodes back to the file's bytes |
| Collection.Insert | sandbox/entrypoint.py:124 | inserting adds exactly one element |
| Collection.InsertSorted | sandbox/entrypoint.py:124 | inserting into a name-sorted list keeps it sorted |
| Collection.SortByName | sandbox/entrypoint.py:124 | `sorted` returns a permutation of the listing in name order |
| Collection.InsertStrict | sandbox/entrypoint.py:124 | inserting a new name into a strictly ascending list keeps it strictly ascending |
| Collection.SortStrict | sandbox/entrypoint.py:124 | a listing with distinct names sorts into strictly ascending names |
| Collection.CollectSpec | sandbox/entrypoint.py:122-129 | a collection has at most one record per entry, and a failure names a kept entry that cannot be read |
| Collection.Collected | sandbox/entrypoint.py:122-129 | no output directory gives no files, and the listing error is raised exactly when the directory cannot be listed |
| Collection.CollectStep | sandbox/entrypoint.py:126-129 | one loop iteration skips an entry that is not kept, raises on an unreadable kept file, and otherwise appends its record |
| Collection.FailureSticks | sandbox/entrypoint.py:127-128 | once a read has raised, the rest of the listing does not change the outcome |
| Collection.CollectFiles | sandbox/entrypoint.py:122-129 | the loop that appends to `files` yields the collection the specification gives, or the name of the first unreadable kept file |
| Collection.CollectSpecMembers | sandbox/entrypoint.py:126-129 | a successful collection has exactly the records of the kept entries |
| Collection.CollectSpecAscending | sandbox/entrypoint.py:124-129 | collecting a strictly ascending listing gives strictly ascending names |
| Collection.CollectSpecFails | sandbox/entrypoint.py:127-128 | collection raises exactly when a kept entry cannot be read |
| Collection.CollectedFiles | sandbox/entrypoint.py:122-129 | the files are in strictly ascending name order; each is a regular file under 5 MiB from the listing; all such files are there; all other entries are absent |
| Collection.CollectedFails | sandbox/entrypoint.py:126-128 | collecting a listing raises exactly when one of its regular files under 5 MiB cannot be read |
| Engine.Workspace.constructor | sandbox/entrypoint.py:79 | a fresh work root with nothing staged |
| Engine.Workspace.Stage | sandbox/entrypoint.py:80-93 | staging creates the empty output directory and writes the script; a `makedirs` fault leaves the workspace as it was, a script-write fault leaves the output directory created and nothing staged |
| Engine.Workspace.Finish | sandbox/entrypoint.py:97-108 | after the child has run, the output directory holds what the child left |
| Engine.Workspace.Collect | sandbox/entrypoint.py:121-129 | collection runs only after the child has exited, and moves to FilesRead only when no read raised |
| Engine.Workspace.Remove | sandbox/entrypoint.py:132 | removal is attempted only after collection, and it records only that `rmtree` was called |
| Engine.ExecuteSpec | sandbox/entrypoint.py:77-139 | removal of the work root is attempted exactly when a result is returned; an exception leaves it in the Created or ChildExited phase; it stays Created and nothing is launched exactly when staging raises |
| Engine.ExecuteCode | sandbox/entrypoint.py:77-139 | execute_code's steps in order produce the specified result or exception, final phase and launched script |
| Engine.CleanupOnEveryOutcome | sandbox/entrypoint.py:97-132 | removal of the work root is attempted exactly when a result is returned, and how the child ended never changes that |
| Engine.LaunchedScript | sandbox/entrypoint.py:83-98 | after staging the child is launched with the fixed interpreter and a script that ends with the code |
| Engine.UnreadableFileSkipsCleanup | sandbox/entrypoint.py:127-132 | an unreadable kept file raises a collection error and leaves the work root in place |
| Engine.UnlistableOutputSkipsCleanup | sandbox/entrypoint.py:123-132 | an output directory that `os.listdir` cannot read raises the listing error and leaves the work root in place |
| Engine.ResultComposition | sandbox/entrypoint.py:134-139 | stdout, stderr and exitCode come only from the outcome, and files only from the output directory |
| Engine.FilesCollectedWhateverTheOutcome | sandbox/entrypoint.py:112-129 | files are collected the same way after a timeout or a launch failure |
| Gateway.HandleSpec | sandbox/entrypoint.py:61-74 | a workspace exists exactly for admitted requests, a 400 reply comes exactly from a rejection, and a 200 reply only after removal of the workspace was attempted |
| Gateway.HandleRun | sandbox/entrypoint.py:61-74 | the handler admits, runs and replies as specified |
| Gateway.RejectionRunsNothing | sandbox/entrypoint.py:65-73 | a rejected request creates no workspace, and its reply does not depend on anything the engine would do |
| Gateway.UnsupportedLanguageNotRun | sandbox/entrypoint.py:65-67 | an unsupported language is answered 400 without a workspace |
| Gateway.AnsweredImpliesRemoved | sandbox/entrypoint.py:61-74 | a request gets a 200 reply exactly when it is admitted and neither staging nor collection raises, and then carries the collected files; it gets no reply exactly when `int()` raises or an admitted run raises |
| Gateway.TimeoutIsAnOrdinaryReply | sandbox/entrypoint.py:112-115 | a timeout is a 200 reply with exit code 124, empty stdout, the timeout message and the collected files |

## Left out

- HTTP transport: routing to `/run` and `/health`, `_send_json`, `do_GET`, `log_message` and the server main block. These are protocol glue.
- Reading the body by Content-Length, and JSON parsing with its "invalid JSON" 400. Admission starts from the parsed members. A body that is valid JSON but not an object (where `body.get` raises) is not modelled.
- The `int()` conversion itself. Its result, or the fact that it raises, is an input (`TimeoutField`).
- `str()` of a non-string language value. It is given as text (`Field.NonText`).
- `subprocess.run`, the timeout clock, UTF-8 decoding with replacement, and the child's environment (`os.environ` plus OUTPUT_DIR and MPLBACKEND). How the run ended is an input (`Outcome`), and the model does not tie which outcome occurs to the timeout value.
- The exact quoting of `repr` and `json.dumps`. These are given as functions.
- Real file-system effects. The model covers neither the uniqueness of `mkdtemp` nor a failing `mkdtemp` (no workspace exists then). The listing is a sequence of entries with name, `isfile`, content and readability; `getsize` is the content length, so the two size calls at lines 126 and 129 are assumed to agree.
- An exception that escapes `do_POST` is modelled as "no reply". What the server prints and how it closes the connection are not modelled.
- Concurrency between requests. The core has no shared state.
- Surrogate code points (U+D800-U+DFFF). Python strings may hold them, for instance file names `os.listdir` decodes with `surrogateescape` or a JSON `"\ud800"`; Dafny characters cannot, so such names and code are outside the model.
- Engine.Workspace.Stage: a script file partly written before the write raised is not tracked; the model records only that `output/` exists and nothing was staged.
- Engine.Workspace.Remove: what `rmtree` actually deletes is not modelled. With `ignore_errors=True` removal can be partial and its errors are swallowed; the Removed phase means only that it was called.
