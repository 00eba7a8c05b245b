/**
 * The exceptions the core raises or lets through, one constructor per kind.
 * `TaskException` is the package's base class; `TaskCommandException` and
 * `ListNotFoundException` derive from it. The Python built-in errors that can
 * escape (a `TypeError` from a bad argument, a `json` decoding error, an
 * `IndexError`) and `click.ClickException` are listed too, because the CLI
 * treats them differently.
 */
module Failures {

  datatype Failure =
      /** `TaskException("reminders-cli not found")`: the tool is not on the search path. */
    | ToolNotFound
      /** `TaskException("invalid mode")`. */
    | InvalidMode
      /** `TaskCommandException`: the process exited nonzero. */
    | CommandFailed(returncode: int, cmd: string, output: string, stdout: string, stderr: string)
      /** `ListNotFoundException("List '<name>' not found")`. */
    | ListNotFound(message: string)
      /** The error `json.loads` raises on text that is not a JSON document. */
    | JsonDecodeError
      /** `TypeError`: a `None` list name reached the process invocation. */
    | ArgumentNotString
      /** `TypeError`: a key of a task record, after renaming, is not a `TaskItem` field. */
    | UnexpectedField
      /** `TypeError`: `title` or `parent` is missing from a task record. */
    | MissingField
      /** `TypeError` / `AttributeError`: an element of the task document is not a JSON object. */
    | NotARecord
      /** `TypeError`: the task document is a number, a boolean or null, which cannot be iterated. */
    | NotIterable
      /** `IndexError`: the first output line of a command that printed nothing. */
    | NoOutputLine
      /** `click.ClickException` with a message of its own. */
    | Click(message: string)
      /** `click.ClickException(e)` wrapping a command failure. */
    | ClickWrapping(cause: Failure)
}
