/** The module-level constants of sandbox/entrypoint.py. */
module Config {

  /** Upper clamp for the requested timeout, in seconds. */
  const MAX_TIMEOUT: int := 120

  /** Timeout used when the request names none, in seconds. */
  const DEFAULT_TIMEOUT: int := 30

  /** Cap on stdout and stderr, applied to characters of the decoded text. */
  const MAX_OUTPUT_BYTES: nat := 100 * 1024

  /** Name of the output directory inside the work root. */
  const OUTPUT_DIR_NAME: string := "output"

  /** Size ceiling for a collected file: files must be strictly smaller. */
  const MAX_FILE_BYTES: nat := 5 * 1024 * 1024
}
