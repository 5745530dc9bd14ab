/** The optional-value type shared by the token and lexer modules. */
module Wrappers {

  datatype Option<+T> = None | Some(value: T)
}
