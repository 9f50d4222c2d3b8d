/** The two failure-carrying datatypes the models share. */
module Results {
  datatype Option<+T> = None | Some(value: T)

  /** `Err` stands for a raised exception; `reason` names which check raised it. */
  datatype Result<+T> = Ok(value: T) | Err(reason: string)
}
