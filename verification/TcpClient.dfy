/**
 The TCP client (tcp/client.go), one call at a time: its state word, its connection and its one close.
 TcpWriters models the threads that call it at once.
*/
module TcpClient {
  import opened Endian
  import opened TcpFrame

  /** What dialing came back with. */
  datatype Dial = BadUrl | DialError | NoConn | Connected(w: Writer)

  /** How a Send ends; Panics is a call on a connection that is not there. */
  datatype SendResult = Sent | NotConnected | Failed | Panics

  class Client {
    var state: int
    var conn: Writer?
    var closed: bool  // the once of Close has run
    var down: bool  // the connection has been closed

    constructor ()
      ensures state == 0 && conn == null && !closed && !down
    {
      state, conn, closed, down := 0, null, false, false;
    }

    /** A dialer that returns neither a connection nor an error leaves the state word set. */
    method Connect(dial: Dial) returns (ok: bool)
      modifies this
      ensures ok <==> old(state) == 0 && dial.Connected?
      ensures conn == if ok then dial.w else old(conn)
      ensures down == (!ok && old(down))
      ensures state == if old(state) == 0 && (dial.Connected? || dial.NoConn?) then 1 else old(state)
      ensures closed == old(closed)
    {
      if dial.BadUrl? || state != 0 {
        return false;
      }
      state := 1;
      if dial.DialError? {
        state := 0;
        return false;
      }
      if dial.NoConn? {
        return false;
      }
      conn, down := dial.w, false;
      ok := true;
    }

    /** After a dial that gave no connection the state word is set, and Send calls a method on nothing. */
    method Send(payload: bytes, deadlineSet: bool) returns (r: SendResult)
      modifies conn
      ensures r == NotConnected <==> state == 0
      ensures r == Panics <==> state != 0 && conn == null
      ensures r == Sent ==> conn != null && !down && deadlineSet
      ensures state != 0 && conn != null && conn.reliable && !down && deadlineSet ==> r == Sent
      ensures r == Sent ==> conn.out == old(conn.out) + Encode(Frame(OP_BINARY, payload))
      ensures conn != null ==> old(conn.out) <= conn.out <= old(conn.out) + Encode(Frame(OP_BINARY, payload))
      ensures conn != null && (state == 0 || !deadlineSet || down) ==> conn.out == old(conn.out)
    {
      if state == 0 {
        return NotConnected;
      }
      if conn == null {
        return Panics;
      }
      if !deadlineSet || down {
        return Failed;
      }
      var ok := WriteFrame(conn, OP_BINARY, payload);
      r := if ok then Sent else Failed;
    }

    /**
     The first Close writes its frame if it can, closes the connection and clears the state word; later ones do
     nothing.
    */
    method Close()
      modifies this, conn
      ensures closed && conn == old(conn)
      ensures old(closed) || conn == null ==>
        state == old(state) && down == old(down) && (conn != null ==> conn.out == old(conn.out))
      ensures !old(closed) && conn != null ==>
        down && state == (if old(state) == 1 then 0 else old(state)) &&
        old(conn.out) <= conn.out <= old(conn.out) + Encode(Frame(OP_CLOSE, []))
      ensures !old(closed) && conn != null && conn.reliable ==> conn.out == old(conn.out) + Encode(Frame(OP_CLOSE, []))
    {
      if closed {
        return;
      }
      closed := true;
      if conn == null {
        return;
      }
      var _ := WriteFrame(conn, OP_CLOSE, []);
      down := true;
      if state == 1 {
        state := 0;
      }
    }
  }
}
