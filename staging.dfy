/**
 * Staging in `execute_code`: the output directory path, the script file name,
 * the language header and the interpreter command.  Python's `repr` and
 * `json.dumps` of the output path are foreign library code; they are given as
 * the two functions of a `Quoting`.
 */
module Staging {
  import opened Config
  import opened Admission

  datatype Quoting = Quoting(pyRepr: string -> string, jsonDumps: string -> string)

  datatype Staged = Staged(outputDir: string, scriptPath: string, script: string, command: seq<string>)

  /** `os.path.join(a, b)` of POSIX Python for two components. */
  function Join(a: string, b: string): (r: string)
    ensures |b| > 0 && b[0] != '/' ==> |r| >= |a| + |b| && r[..|a|] == a && r[|r| - |b|..] == b
    ensures |b| > 0 && b[0] == '/' ==> r == b
  {
    if |b| > 0 && b[0] == '/' then b
    else if a == [] || a[|a| - 1] == '/' then a + b
    else a + "/" + b
  }

  function Extension(l: Language): string {
    if l == Python then ".py" else ".js"
  }

  function Interpreter(l: Language): string {
    if l == Python then "python3" else "node"
  }

  /** The first line of the script: it sets OUTPUT_DIR to the output directory.
      It ends the line, so the code starts on a line of its own. */
  function Header(l: Language, outputDir: string, q: Quoting): (h: string)
    ensures |h| > 0 && h[|h| - 1] == '\n'
    ensures l == Node ==> |h| >= 2 && h[|h| - 2..] == ";\n"
  {
    if l == Python then "import os; os.environ[\"OUTPUT_DIR\"] = " + q.pyRepr(outputDir) + "\n"
    else "process.env.OUTPUT_DIR = " + q.jsonDumps(outputDir) + ";\n"
  }

  /** `repr` and `json.dumps` escape a newline, so the header is a single line:
      no newline comes before its last character. */
  lemma HeaderOneLine(l: Language, outputDir: string, q: Quoting)
    requires '\n' !in q.pyRepr(outputDir) && '\n' !in q.jsonDumps(outputDir)
    ensures var h := Header(l, outputDir, q); '\n' !in h[..|h| - 1]
  {
    var h := Header(l, outputDir, q);
    if l == Python {
      assert h[..|h| - 1] == "import os; os.environ[\"OUTPUT_DIR\"] = " + q.pyRepr(outputDir);
    } else {
      assert h[..|h| - 1] == "process.env.OUTPUT_DIR = " + q.jsonDumps(outputDir) + ";";
    }
  }

  /** Everything `execute_code` prepares before launching, for the work root `workDir`. */
  function Stage(l: Language, code: string, workDir: string, q: Quoting): (st: Staged)
    ensures st.command == [Interpreter(l), st.scriptPath]
    ensures |st.script| >= |code| && st.script[|st.script| - |code|..] == code
  {
    var outputDir := Join(workDir, OUTPUT_DIR_NAME);
    var scriptPath := Join(workDir, "script" + Extension(l));
    Staged(outputDir, scriptPath, Header(l, outputDir, q) + code, [Interpreter(l), scriptPath])
  }

  /** The file is `script.py` exactly for Python and `script.js` otherwise,
      directly inside the work root (a path `mkdtemp` returns: not empty, no
      trailing slash). */
  lemma ScriptFileName(l: Language, code: string, workDir: string, q: Quoting)
    requires workDir != [] && workDir[|workDir| - 1] != '/'
    ensures Stage(l, code, workDir, q).scriptPath == workDir + "/" + "script" + Extension(l)
    ensures Extension(l) == ".py" <==> l == Python
  {
  }

  /** The command is the interpreter of the language applied to the script path;
      no part of it depends on the submitted code. */
  lemma CommandFromLanguageOnly(l: Language, code1: string, code2: string, workDir: string, q: Quoting)
    ensures var c := Stage(l, code1, workDir, q).command;
      c == [Interpreter(l), Stage(l, code1, workDir, q).scriptPath]
      && c[0] == (if l == Python then "python3" else "node")
    ensures Stage(l, code1, workDir, q).command == Stage(l, code2, workDir, q).command
  {
  }

  /** The script is the header followed by the code verbatim: the code is a
      suffix of the script and the header does not depend on the code. */
  lemma ScriptEndsWithCode(l: Language, code: string, workDir: string, q: Quoting)
    ensures var st := Stage(l, code, workDir, q);
      st.script == Header(l, st.outputDir, q) + code
      && |st.script| >= |code| && st.script[|st.script| - |code|..] == code
  {
    var st := Stage(l, code, workDir, q);
    assert st.script[|st.script| - |code|..] == code;
  }

  /** The OUTPUT_DIR the header sets is the `output` directory directly inside
      the work root. */
  lemma OutputDirInsideWorkRoot(l: Language, code: string, workDir: string, q: Quoting)
    requires workDir != [] && workDir[|workDir| - 1] != '/'
    ensures Stage(l, code, workDir, q).outputDir == workDir + "/" + OUTPUT_DIR_NAME
  {
  }
}
