/** One end of a stream socket, and the line readers of daemon and client over it. */
module Sockets {
  import opened Lines

  /** What each read will deliver (an empty piece is an interrupted read; the end of
      the list is the end of the stream) and whether each write will work. */
  class Conn {
    var inbox: seq<string>
    var writes: seq<bool>
    var out: seq<string>

    constructor (inbox: seq<string>, writes: seq<bool>)
      ensures this.inbox == inbox && this.writes == writes && out == []
    {
      this.inbox, this.writes, this.out := inbox, writes, [];
    }

    /** Writes a whole message or fails. */
    method WriteAll(s: string) returns (ok: bool)
      modifies `writes, `out
      ensures ok == (old(writes) == [] || old(writes)[0])
      ensures writes == (if old(writes) == [] then [] else old(writes)[1..])
      ensures out == if ok then old(out) + [s] else old(out)
    {
      ok := writes == [] || writes[0];
      if writes != [] {
        writes := writes[1..];
      }
      if ok {
        out := out + [s];
      }
    }
  }

  /** Reads one line off a connection, keeping later bytes in the buffer for the next
      call.  The pieces do not matter: the line is the first line of the buffer
      followed by the stream, every byte behind its newline is kept, and there is
      no line exactly when the stream holds none. */
  method ReadLine(conn: Conn, buf0: string) returns (ok: bool, line: string, buf: string)
    modifies conn`inbox
    ensures ok ==> '\n' !in line && buf0 + Concat(old(conn.inbox)) == line + "\n" + (buf + Concat(conn.inbox))
    ensures !ok ==> '\n' !in buf0 + Concat(old(conn.inbox)) && conn.inbox == []
    ensures !ok ==> buf == buf0 + Concat(old(conn.inbox))
  {
    buf, line := buf0, "";
    while true
      invariant buf + Concat(conn.inbox) == buf0 + Concat(old(conn.inbox))
      decreases |conn.inbox|
    {
      var nl := NewlineAt(buf);
      if nl >= 0 {
        line := buf[..nl];
        ghost var tail := Concat(conn.inbox);
        assert buf == line + "\n" + buf[nl + 1..];
        buf := buf[nl + 1..];
        assert line + "\n" + buf + tail == line + "\n" + (buf + tail);
        return true, line, buf;
      }
      if conn.inbox == [] {
        assert buf + "" == buf;
        return false, line, buf;
      }
      assert buf + Concat(conn.inbox) == (buf + conn.inbox[0]) + Concat(conn.inbox[1..]);
      buf := buf + conn.inbox[0];
      conn.inbox := conn.inbox[1..];
    }
  }

  /** In terms of lines: one is taken off the front, until none is left. */
  method NextLine(conn: Conn, buf0: string) returns (ok: bool, line: string, buf: string)
    modifies conn`inbox
    ensures var lines := LinesOf(buf0 + Concat(old(conn.inbox)));
      if ok then lines == [line] + LinesOf(buf + Concat(conn.inbox)) else lines == []
  {
    ghost var stream := buf0 + Concat(conn.inbox);
    ok, line, buf := ReadLine(conn, buf0);
    if ok {
      LinesOfCons(line, buf + Concat(conn.inbox));
    }
  }
}
