/** Peeking at a connection without consuming it (peekClientHello and prependConn in
    internal/proxy/sni.go). Parsing the ClientHello is some pattern of reads, which may stop anywhere.
*/
module Peek {
  import opened Body

  /** io.TeeReader into a buffer. */
  class Tee {
    const conn: Source
    var seen: Bytes

    constructor (conn: Source)
      ensures this.conn == conn && seen == []
    {
      this.conn := conn;
      seen := [];
    }

    method Read(n: nat) returns (chunk: Bytes)
      modifies this, conn
      ensures seen == old(seen) + chunk && chunk + conn.unread == old(conn.unread)
    {
      chunk := conn.ReadUpTo(n);
      seen := seen + chunk;
    }
  }

  /** The replacement connection still holds the whole original stream, however much was read. */
  method PeekClientHello(conn: Source, sizes: seq<nat>) returns (replay: Stream)
    modifies conn
    ensures fresh(replay) && replay.source == conn
    ensures replay.Unread() == old(conn.unread)
  {
    var tee := new Tee(conn);
    for i := 0 to |sizes|
      invariant fresh(tee) && tee.conn == conn
      invariant tee.seen + conn.unread == old(conn.unread)
    {
      ghost var seen, unread := tee.seen, conn.unread;
      var chunk := tee.Read(sizes[i]);
      assert (seen + chunk) + conn.unread == seen + (chunk + conn.unread);
    }
    replay := new Stream(tee.seen, conn);
  }

  /** Whatever pattern of reads drains the replacement, it gets the client's bytes, each once and in
      order. */
  method Replay(conn: Source, peeks: seq<nat>, sizes: seq<nat>) returns (got: Bytes, replay: Stream)
    modifies conn
    ensures got + replay.Unread() == old(conn.unread)
  {
    replay := PeekClientHello(conn, peeks);
    got := [];
    for i := 0 to |sizes|
      invariant fresh(replay) && replay.source == conn
      invariant got + replay.Unread() == old(conn.unread)
    {
      ghost var before, left := got, replay.Unread();
      var chunk := replay.Read(sizes[i]);
      assert (before + chunk) + replay.Unread() == before + (chunk + replay.Unread());
      got := got + chunk;
    }
  }
}
