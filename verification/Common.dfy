/** What several models share. */
module Common {

  datatype Option<+T> = None | Some(value: T)

  /** The answer of a request processor, which tells the chain it is in how to go on. */
  datatype Action = Continue | WaitingForEvent | SkipThisChain | SkipAllChains
}
