/** Request bodies as single-use streams, buffered or still on the connection. */
module Body {

  newtype byte = x: int | 0 <= x < 256

  type Bytes = seq<byte>

  /** The connection's side of a body: what has not been read from it yet. Reads do not fail. */
  class Source {
    var unread: Bytes

    constructor (bytes: Bytes)
      ensures unread == bytes
    {
      unread := bytes;
    }

    /** io.ReadAll(io.LimitReader(s, n)). */
    method ReadUpTo(n: nat) returns (prefix: Bytes)
      modifies this
      ensures prefix + unread == old(unread)
      ensures |prefix| == if |old(unread)| < n then |old(unread)| else n
    {
      var k := if |unread| < n then |unread| else n;
      prefix := unread[..k];
      unread := unread[k..];
    }
  }

  /** A body reader: buffered bytes, then whatever the source still holds. */
  class Stream {
    var head: Bytes
    const source: Source?

    constructor (head: Bytes, source: Source?)
      ensures this.head == head && this.source == source
    {
      this.head := head;
      this.source := source;
    }

    ghost function Unread(): Bytes
      reads this, source
    {
      head + if source == null then [] else source.unread
    }

    /** io.ReadAll. */
    method ReadAll() returns (bytes: Bytes)
      modifies this, source
      ensures bytes == old(Unread())
    {
      bytes := [];
      while true
        invariant bytes + Unread() == old(Unread())
        decreases |Unread()|
      {
        ghost var before, left := bytes, Unread();
        var chunk := Read(512);
        if chunk == [] { break; }
        assert (before + chunk) + Unread() == before + (chunk + Unread());
        bytes := bytes + chunk;
      }
    }

    /** Read some bytes, the buffered ones first. */
    method Read(n: nat) returns (chunk: Bytes)
      modifies this, source
      ensures chunk + Unread() == old(Unread()) && |chunk| <= n
      ensures n > 0 && old(Unread()) != [] ==> chunk != []
    {
      if head != [] || source == null {
        var k := if |head| < n then |head| else n;
        chunk := head[..k];
        head := head[k..];
      } else {
        chunk := source.ReadUpTo(n);
      }
    }
  }
}
