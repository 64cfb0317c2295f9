/** What the kernel may answer to a call on a nonblocking socket. */
module Sockets {

  /** Answers of `recv`. */
  datatype Receipt = Data(bytes: string) | Eof | ReadInterrupted | ReadWouldBlock | ReadFailed

  /** Answers of `send` and `sendfile`; the kernel never takes more than it is offered. */
  datatype Sending = Sent(count: nat) | SendInterrupted | SendWouldBlock | SendFailed
}
