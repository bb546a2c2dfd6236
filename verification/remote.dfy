/** The remote host's side of the apps window: the catalog entries it reports,
    the stream configuration handed to a launch, and the outcome of one remote
    call. Every network call is an input to the model: it either returned a
    value or failed with one of the two failure kinds the window catches. */
module Remote {

  /** A Java `int`. Ids, session handles and the configuration are all of this width. */
  newtype int32 = x: int | -0x8000_0000 <= x < 0x8000_0000

  /** One launchable application on the host, keyed for the user by its display name. */
  datatype App = App(id: int32, name: string)

  /** The stream configuration derived from the user's preferences. */
  datatype Config = Config(width: int32, height: int32, refreshRate: int32)

  /** The two failures a remote call can raise: an I/O failure, or a response
      the XML parser rejected. */
  datatype Failure = Transport | Protocol

  /** The outcome of one remote call. */
  datatype Call<+T> = Ok(value: T) | Err(failure: Failure)

  /** A possibly missing value; `None` stands for Java's `null`. */
  datatype Option<+T> = None | Some(value: T)
}
