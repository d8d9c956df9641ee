/** Operations as values: an operation's address and the fields that never
    change.  What does change, its result slot and its cancelled flag, is kept
    in tables of the scheduler's state. */
module Operations {

  datatype Dir = In | Out

  /** A posted callback, or an I/O operation on a descriptor. */
  datatype Op = Callback(id: nat) | Io(id: nat, descriptor: int, isRead: bool)
  {
    function Fd(): int { if Io? then descriptor else 0 }

    function Direction(): Dir { if Io? && isRead then In else Out }
  }

  /** What a completed operation hands to its completion: a value, or an error
      code. */
  datatype IoResult = Ok(value: nat) | Err(code: int)

  const OPERATION_CANCELED: IoResult := Err(125)

  /** One attempt at the system call: it would block (and the operation keeps
      waiting), or it is over with a result. */
  datatype Outcome = WouldBlock | Done(result: IoResult)

  /** A descriptor reported by the poll, with its EPOLLIN bit; or the
      scheduler's own wake event. */
  datatype Event = Wake | Ready(fd: int, readable: bool)
}
