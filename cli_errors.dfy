/**
 * Go error values as the CLI builds them, and the CLI's own error type: a
 * user-facing message with an exit code over an optional technical error.
 * Errors form chains through `Unwrap`; `Is` and `As` walk those chains.
 */
module CliErrors {
  import opened Wrappers
  import opened GoStrings

  /** The exit codes of the CLI. */
  const ExitSuccess := 0
  const ExitError := 1
  const ExitUsageError := 2
  const ExitAuthError := 3
  const ExitNetworkError := 4

  /**
   * The error values that occur: a plain error with its text, a `net.Error`
   * (with what its Timeout and Temporary methods report), the result of
   * `fmt.Errorf("context: %w", inner)`, and a CLIError.
   */
  datatype Error =
    | Plain(text: string)
    | NetError(text: string, timeout: bool, temporary: bool)
    | Wrapped(context: string, inner: Error)
    | Cli(cli: CliError)

  datatype CliError = CliError(technical: Option<Error>, userMsg: string, exitCode: int, stackTrace: string)

  /** `err.Error()`. */
  function Message(err: Error): string
    decreases err, 1
  {
    match err
    case Plain(text) => text
    case NetError(text, _, _) => text
    case Wrapped(context, inner) => context + ": " + Message(inner)
    case Cli(c) => CliMessage(c)
  }

  /** CLIError.Error: the user message, followed by the technical error when there is one. */
  function CliMessage(c: CliError): (m: string)
    ensures c.technical.None? ==> m == c.userMsg
    ensures c.technical.Some? ==> m == c.userMsg + ": " + Message(c.technical.value)
    decreases Cli(c), 0
  {
    match c.technical
    case None => c.userMsg
    case Some(t) => c.userMsg + ": " + Message(t)
  }

  /** `errors.Unwrap`: the next error of the chain; CLIError.Unwrap gives the technical error. */
  function Unwrap(err: Error): (r: Option<Error>)
    ensures r.Some? ==> r.value < err
  {
    match err
    case Wrapped(_, inner) => Some(inner)
    case Cli(c) => c.technical
    case _ => None
  }

  /** `errors.Is` for errors compared by value: `target` is somewhere on the chain of `err`. */
  predicate Is(err: Error, target: Error)
    decreases err
  {
    err == target || (Unwrap(err).Some? && Is(Unwrap(err).value, target))
  }

  /** `errors.As` with a CLIError target: the first CLIError on the chain. */
  function AsCli(err: Error): (r: Option<CliError>)
    ensures r.Some? ==> Is(err, Cli(r.value))
    decreases err
  {
    match err
    case Cli(c) => Some(c)
    case _ => if Unwrap(err).Some? then AsCli(Unwrap(err).value) else None
  }

  /** Every error on a chain is reached by unwrapping, so it is on the chain of anything wrapping it. */
  lemma {:induction false} IsIsTransitive(a: Error, b: Error, c: Error)
    requires Is(a, b) && Is(b, c)
    ensures Is(a, c)
    decreases a
  {
    if a != b {
      IsIsTransitive(Unwrap(a).value, b, c);
    }
  }

  // ---------------------------------------------------------------- constructors

  function NewCliError(technical: Option<Error>, userMsg: string, exitCode: int): (c: CliError)
    ensures c.technical == technical && c.userMsg == userMsg && c.exitCode == exitCode && c.stackTrace == ""
  {
    CliError(technical, userMsg, exitCode, "")
  }

  function NewError(technical: Option<Error>, userMsg: string): (c: CliError)
    ensures c == NewCliError(technical, userMsg, ExitError)
  {
    NewCliError(technical, userMsg, ExitError)
  }

  /** A usage error never carries a technical error, so its message is the user message. */
  function NewUsageError(userMsg: string): (c: CliError)
    ensures c == NewCliError(None, userMsg, ExitUsageError)
    ensures CliMessage(c) == userMsg && Unwrap(Cli(c)).None?
  {
    NewCliError(None, userMsg, ExitUsageError)
  }

  function NewAuthError(technical: Option<Error>, userMsg: string): (c: CliError)
    ensures c == NewCliError(technical, userMsg, ExitAuthError)
  {
    NewCliError(technical, userMsg, ExitAuthError)
  }

  function NewNetworkError(technical: Option<Error>, userMsg: string): (c: CliError)
    ensures c == NewCliError(technical, userMsg, ExitNetworkError)
  {
    NewCliError(technical, userMsg, ExitNetworkError)
  }

  /** WithStackTrace: the same error with the captured trace; capturing it is left to the caller. */
  function WithStackTrace(c: CliError, trace: string): (r: CliError)
    ensures r.stackTrace == trace
    ensures r.technical == c.technical && r.userMsg == c.userMsg && r.exitCode == c.exitCode
  {
    c.(stackTrace := trace)
  }

  /** The technical error of a CLIError stays on its chain. */
  lemma TechnicalErrorStaysOnTheChain(c: CliError)
    requires c.technical.Some?
    ensures Is(Cli(c), c.technical.value)
    ensures Unwrap(Cli(c)) == c.technical
  {
  }

  // ---------------------------------------------------------------- wrapping

  /** Wrap: nil stays nil; otherwise "message: inner", with inner next on the chain. */
  function Wrap(err: Option<Error>, message: string): (r: Option<Error>)
    ensures r.None? <==> err.None?
    ensures r.Some? ==> Message(r.value) == message + ": " + Message(err.value)
    ensures r.Some? ==> Unwrap(r.value) == err && Is(r.value, err.value)
  {
    match err
    case None => None
    case Some(e) => Some(Wrapped(message, e))
  }

  /** Wrapf: Wrap with the context produced by `sprintf` from the format and its arguments. */
  function Wrapf(err: Option<Error>, format: string, args: seq<string>,
                 sprintf: (string, seq<string>) -> string): (r: Option<Error>)
    ensures r.None? <==> err.None?
    ensures r.Some? ==> Message(r.value) == sprintf(format, args) + ": " + Message(err.value)
    ensures r.Some? ==> Unwrap(r.value) == err
  {
    Wrap(err, sprintf(format, args))
  }

  /** The CLIError of a chain is the same after wrapping. */
  lemma WrapKeepsTheCliError(err: Error, message: string)
    ensures AsCli(Wrap(Some(err), message).value) == AsCli(err)
  {
  }

  // ---------------------------------------------------------------- display

  const TechnicalHeading := "\n\nTechnical details:\n  "
  const StackHeading := "\n\nStack trace:\n"

  /**
   * FormatError: for a chain holding a CLIError, its user message, then its
   * technical error and stack trace when asked for and present; otherwise the
   * error's own message.
   */
  function FormatError(err: Error, includeStack: bool): (s: string)
    ensures AsCli(err).None? ==> s == Message(err)
    ensures AsCli(err).Some? ==>
              var c := AsCli(err).value;
              s == c.userMsg
                   + (if c.technical.Some? && includeStack then TechnicalHeading + Message(c.technical.value) else "")
                   + (if c.stackTrace != "" && includeStack then StackHeading + c.stackTrace else "")
  {
    match AsCli(err)
    case None => Message(err)
    case Some(c) =>
      var details := if c.technical.Some? && includeStack then TechnicalHeading + Message(c.technical.value) else "";
      var trace := if c.stackTrace != "" && includeStack then StackHeading + c.stackTrace else "";
      c.userMsg + details + trace
  }

  /** Without the stack flag only the user message of a CLIError is shown. */
  lemma FormatHidesDetailsByDefault(err: Error)
    requires AsCli(err).Some?
    ensures FormatError(err, false) == AsCli(err).value.userMsg
  {
  }

  /** The display of a CLIError always starts with its user message. */
  lemma FormatStartsWithUserMessage(err: Error, includeStack: bool)
    requires AsCli(err).Some?
    ensures HasPrefix(FormatError(err, includeStack), AsCli(err).value.userMsg)
  {
    var c := AsCli(err).value;
    var s := FormatError(err, includeStack);
    assert s[..|c.userMsg|] == c.userMsg;
  }

  /** Wrapping a CLIError in more context does not change how it is displayed. */
  lemma FormatSeesThroughWrapping(err: Error, message: string, includeStack: bool)
    requires AsCli(err).Some?
    ensures FormatError(Wrap(Some(err), message).value, includeStack) == FormatError(err, includeStack)
  {
  }
}
