/** Values shared by every part of the model: outcomes, failures and the
    commands that travel to the viewer's command interpreter. */
module Types {

  datatype Option<T> = None | Some(value: T)

  /** The two ways a wrapper call of `Interface` fails. */
  datatype Failure =
    | AssertionFailed(message: string)  // a Python `assert` that did not hold, with its message
    | IndexOutOfRange                   // a reply token read past the end of the split (IndexError)

  datatype Result<T> = Ok(value: T) | Err(failure: Failure)

  /** One Tk `send`: the interpreter addressed (the wave app's Tk name, unset
      until the caller sets it), the command name and its arguments. */
  datatype Command = Command(target: Option<string>, name: string, args: seq<string>)

  /** The viewer, seen from outside: its reply to the n-th command it
      receives (counting from 0). */
  type HostReply = (nat, Command) -> string

  /** The reply by which every Verdi command reports failure. */
  const FailureReply: string := "0"
}
