/** Option and Result values used in place of Python's None and raised ValueErrors. */
module Outcomes {

  datatype Option<+T> = None | Some(value: T)

  /** The ValueErrors the engine raises: the two configuration checks of init,
      and an action that is not in the acting seat's legal set. */
  datatype Error = ChipsLengthMismatch | TooManyPlayers | InvalidAction

  datatype Result<+T> = Ok(value: T) | Err(error: Error)
}
