/**
 * The error types of the multi-producer multi-consumer channel
 * (common/mpmc/src/error.rs): the conversions between them and the
 * messages they display.
 */
module ChannelError {

  /** `SendError<T>`: the value that could not be sent. */
  datatype SendError<T> = SendError(value: T)

  /** `RecvError`. */
  datatype RecvError = RecvError

  datatype TryRecvError = Empty | Disconnected

  datatype RecvTimeoutError = Timeout | RecvDisconnected

  datatype TrySendError<T> = Full(value: T) | SendDisconnected(value: T)

  datatype SendTimeoutError<T> = SendTimeout(value: T) | TimeoutDisconnected(value: T)

  /** `From<SendError<T>> for TrySendError<T>`. */
  function TrySendFromSend<T>(err: SendError<T>): TrySendError<T>
  {
    match err
    case SendError(t) => SendDisconnected(t)
  }

  /** `From<RecvError> for TryRecvError`. */
  function TryRecvFromRecv(err: RecvError): TryRecvError
  {
    match err
    case RecvError => Disconnected
  }

  /** `From<RecvError> for RecvTimeoutError`. */
  function RecvTimeoutFromRecv(err: RecvError): RecvTimeoutError
  {
    match err
    case RecvError => RecvDisconnected
  }

  /** `From<SendError<T>> for SendTimeoutError<T>`. */
  function SendTimeoutFromSend<T>(err: SendError<T>): SendTimeoutError<T>
  {
    match err
    case SendError(e) => TimeoutDisconnected(e)
  }

  /** `Display` and `description` of `SendError`. */
  function SendErrorMessage<T>(err: SendError<T>): string
  {
    "sending on a closed channel"
  }

  /** `Display` and `description` of `TrySendError`. */
  function TrySendErrorMessage<T>(err: TrySendError<T>): string
  {
    match err
    case Full(_) => "sending on a full channel"
    case SendDisconnected(_) => "sending on a closed channel"
  }

  /** `Display` and `description` of `RecvError`. */
  function RecvErrorMessage(err: RecvError): string
  {
    "receiving on a closed channel"
  }

  /** `Display` and `description` of `TryRecvError`. */
  function TryRecvErrorMessage(err: TryRecvError): string
  {
    match err
    case Empty => "receiving on an empty channel"
    case Disconnected => "receiving on a closed channel"
  }

  /** `Display` and `description` of `RecvTimeoutError`. */
  function RecvTimeoutErrorMessage(err: RecvTimeoutError): string
  {
    match err
    case Timeout => "timed out waiting on channel"
    case RecvDisconnected => "channel is empty and sending half is closed"
  }

  /** `Display` of `SendTimeoutError`. */
  function SendTimeoutErrorMessage<T>(err: SendTimeoutError<T>): string
  {
    match err
    case SendTimeout(_) => "timed out waiting on send operation"
    case TimeoutDisconnected(_) => "sending on a disconnected channel"
  }

  /**
   * A failed send converts into the Disconnected variant of either richer
   * error, carrying the same value back to the caller.
   */
  lemma SendConversionsKeepValue<T>(err: SendError<T>)
    ensures TrySendFromSend(err).SendDisconnected? && TrySendFromSend(err).value == err.value
    ensures SendTimeoutFromSend(err).TimeoutDisconnected? && SendTimeoutFromSend(err).value == err.value
  {
  }

  /** A failed receive converts into the Disconnected variant of either richer error. */
  lemma RecvConversionsDisconnect(err: RecvError)
    ensures TryRecvFromRecv(err) == Disconnected && RecvTimeoutFromRecv(err) == RecvDisconnected
  {
  }

  /**
   * Converting a `SendError` into a `TrySendError`, or a `RecvError` into a
   * `TryRecvError`, keeps the message the user sees.
   */
  lemma ConversionKeepsMessage<T>(s: SendError<T>, r: RecvError)
    ensures TrySendErrorMessage(TrySendFromSend(s)) == SendErrorMessage(s)
    ensures TryRecvErrorMessage(TryRecvFromRecv(r)) == RecvErrorMessage(r)
  {
  }

  /**
   * Converting into the timeout errors does not keep the message: a
   * disconnected `RecvTimeoutError` and `SendTimeoutError` each display
   * their own text.
   */
  lemma TimeoutConversionsChangeMessage<T>(s: SendError<T>, r: RecvError)
    ensures SendTimeoutErrorMessage(SendTimeoutFromSend(s)) != SendErrorMessage(s)
    ensures RecvTimeoutErrorMessage(RecvTimeoutFromRecv(r)) != RecvErrorMessage(r)
  {
  }

  /** The message tells the variants apart, whatever value they carry. */
  lemma MessagesDistinguishVariants<T>(a: TrySendError<T>, b: TrySendError<T>, c: TryRecvError, d: TryRecvError,
                                       e: RecvTimeoutError, f: RecvTimeoutError,
                                       g: SendTimeoutError<T>, h: SendTimeoutError<T>)
    ensures TrySendErrorMessage(a) == TrySendErrorMessage(b) <==> a.Full? == b.Full?
    ensures TryRecvErrorMessage(c) == TryRecvErrorMessage(d) <==> c == d
    ensures RecvTimeoutErrorMessage(e) == RecvTimeoutErrorMessage(f) <==> e == f
    ensures SendTimeoutErrorMessage(g) == SendTimeoutErrorMessage(h) <==> g.SendTimeout? == h.SendTimeout?
  {
  }
}
