/** `CountConn`: a connection wrapper that counts every raw read and write call. */
module Counting {
  import opened Uint32
  import opened RunReport

  /** Go's `error`: nil, or an error carrying its message. */
  datatype Error = Nil | Err(msg: string)

  /** What a call on the wrapped `net.Conn` returned: the byte count and the error. */
  datatype IoResult = IoResult(n: int, err: Error)

  /** What one call of each kind adds to a connection's report. */
  const OneSend := Report(1, 0, 0, 0)
  const OneRecv := Report(0, 1, 0, 0)
  const OneRead := Report(0, 0, 1, 0)
  const OneWrite := Report(0, 0, 0, 1)

  class CountConn {
    var sendCount: U32
    var recvCount: U32
    var readCount: U32
    var writeCount: U32

    /** The four counters as a report. */
    function Counters(): Report
      reads this
    {
      Report(sendCount, recvCount, readCount, writeCount)
    }

    /** `&CountConn{Conn: conn}`: every counter starts at zero. */
    constructor ()
      ensures Counters() == Zero
    {
      sendCount, recvCount, readCount, writeCount := 0, 0, 0, 0;
    }

    /** Passes on whatever the wrapped connection's `Read` returned, error or not, and counts
        the call: the read counter goes up by one (modulo 2^32), the other three stay. */
    method Read(underlying: IoResult) returns (result: IoResult)
      modifies this`readCount
      ensures result == underlying
      ensures Counters() == Add(old(Counters()), OneRead)
    {
      result := underlying;
      readCount := WrappingAdd(readCount, 1);
    }

    /** Same as `Read`, for the write counter. */
    method Write(underlying: IoResult) returns (result: IoResult)
      modifies this`writeCount
      ensures result == underlying
      ensures Counters() == Add(old(Counters()), OneWrite)
    {
      result := underlying;
      writeCount := WrappingAdd(writeCount, 1);
    }

    /** The sender loop's `atomic.AddUint32(&conn.SendCount, 1)` after a successful send. */
    method RecordSend()
      modifies this`sendCount
      ensures Counters() == Add(old(Counters()), OneSend)
    {
      sendCount := WrappingAdd(sendCount, 1);
    }

    /** The receiver loop's `atomic.AddUint32(&conn.RecvCount, 1)` after a successful receive. */
    method RecordRecv()
      modifies this`recvCount
      ensures Counters() == Add(old(Counters()), OneRecv)
    {
      recvCount := WrappingAdd(recvCount, 1);
    }
  }
}
