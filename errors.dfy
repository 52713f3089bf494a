/**
 * errors/errors.go: PluggableError, an error value whose optional status,
 * detail and payload are taken positionally from a variadic argument list.
 */
module PluggableErrors {
  import opened Wrappers

  /** The dynamic type of one `interface{}` argument passed to New. */
  datatype Arg = IntArg(i: int) | StrArg(s: string) | OtherArg(tag: string) | NilArg

  /** The fields of PluggableError; `errors` is None when the interface field is nil. */
  datatype PluggableError = PluggableError(status: int, errors: Option<Arg>, detail: string, s: string)

  /**
   * The type assertions in New succeed: args[0] is an int, args[1] a string,
   * and args[2] a non-nil value (asserting a nil interface value panics).
   */
  predicate ArgsWellTyped(args: seq<Arg>)
  {
    (|args| >= 1 ==> args[0].IntArg?) &&
    (|args| >= 2 ==> args[1].StrArg?) &&
    (|args| >= 3 ==> args[2] != NilArg)
  }

  /** New(text, args...): status, detail and payload filled only when enough arguments are given. */
  function New(text: string, args: seq<Arg>): (e: PluggableError)
    requires ArgsWellTyped(args)
    ensures e.s == text
    ensures |args| >= 1 ==> e.status == args[0].i
    ensures |args| < 1 ==> e.status == 0
    ensures |args| >= 2 ==> e.detail == args[1].s
    ensures |args| < 2 ==> e.detail == ""
    ensures |args| >= 3 ==> e.errors == Some(args[2])
    ensures |args| < 3 ==> e.errors == None
  {
    var status := if |args| >= 1 then args[0].i else 0;
    var detail := if |args| >= 2 then args[1].s else "";
    var payload := if |args| >= 3 then Some(args[2]) else None;
    PluggableError(status, payload, detail, text)
  }

  /** PluggableError.Error: the message text. */
  function Error(e: PluggableError): string
  {
    e.s
  }

  /** Error() gives back exactly the text New was called with, whatever the arguments. */
  lemma ErrorReturnsText(text: string, args: seq<Arg>)
    requires ArgsWellTyped(args)
    ensures Error(New(text, args)) == text
  {
  }

  /** Arguments past the third are ignored. */
  lemma ExtraArgsIgnored(text: string, args: seq<Arg>, extra: seq<Arg>)
    requires |args| >= 3 && ArgsWellTyped(args)
    ensures ArgsWellTyped(args + extra)
    ensures New(text, args + extra) == New(text, args)
  {
    assert (args + extra)[..3] == args[..3];
  }
}
