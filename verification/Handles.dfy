// Actions and the handles that stand for them.
module Handles {
  import opened Base

  /** An action is opaque here, except that running it may yield a continuation. */
  datatype Action = Action(id: nat, continuation: Option<Action>)

  datatype Handle = Handle(index: nat, generation: nat)
}
