/** The live view: a bounded ring of recent exchanges and bounded subscriber channels
    (internal/liveui/liveui.go). Each operation of the server runs under its lock.
*/
module LiveUi {
  import opened Capture
  import opened Common

  // ---------------------------------------------------------------- channels

  /** A subscriber's channel with its past: what it handed out, what was recorded while it was
      subscribed, and which of those got into it. */
  datatype View = View(
    queue: seq<Exchange>, closed: bool, received: seq<Exchange>, offered: seq<Exchange>, picked: seq<nat>, full: bool)
  {
    /** What got through is what was offered, in order, with nothing twice; all of it unless the buffer
        was once found full. */
    ghost predicate Faithful() {
      && Picks(received + queue, offered, picked)
      && (!full ==> received + queue == offered)
      && |queue| <= SUB_BUFFER
    }
  }

  const SUB_BUFFER := 256

  /** `s` is the in-order selection of `t` at the positions `at`. */
  ghost predicate Picks(s: seq<Exchange>, t: seq<Exchange>, at: seq<nat>) {
    && |at| == |s|
    && (forall i :: 0 <= i < |at| ==> at[i] < |t| && s[i] == t[at[i]])
    && forall i, j :: 0 <= i < j < |at| ==> at[i] < at[j]
  }

  /** The non-blocking send: a full channel misses the event. */
  function Offered(v: View, e: Exchange): View {
    if |v.queue| < SUB_BUFFER then
      v.(queue := v.queue + [e], offered := v.offered + [e], picked := v.picked + [|v.offered|])
    else v.(offered := v.offered + [e], full := true)
  }

  lemma OfferedIsFaithful(v: View, e: Exchange)
    requires v.Faithful()
    ensures Offered(v, e).Faithful()
  {
    var got := v.received + v.queue;
    if |v.queue| < SUB_BUFFER {
      PickLast(got, v.offered, v.picked, e);
      assert v.received + (v.queue + [e]) == got + [e];
    } else {
      PickNone(got, v.offered, v.picked, e);
    }
    hide Picks;
  }

  lemma PickLast(s: seq<Exchange>, t: seq<Exchange>, at: seq<nat>, e: Exchange)
    requires Picks(s, t, at)
    ensures Picks(s + [e], t + [e], at + [|t|])
  {}

  lemma PickNone(s: seq<Exchange>, t: seq<Exchange>, at: seq<nat>, e: Exchange)
    requires Picks(s, t, at)
    ensures Picks(s, t + [e], at)
  {}

  function Taken(v: View): View {
    if v.queue == [] then v else v.(queue := v.queue[1..], received := v.received + [v.queue[0]])
  }

  lemma TakenIsFaithful(v: View)
    requires v.Faithful()
    ensures Taken(v).Faithful()
  {
    hide Picks;
    if v.queue != [] {
      assert v.queue == [v.queue[0]] + v.queue[1..];
      assert v.received + v.queue == (v.received + [v.queue[0]]) + v.queue[1..];
    }
  }

  class Chan {
    var queue: seq<Exchange>
    var closed: bool
    ghost var received: seq<Exchange>
    ghost var offered: seq<Exchange>
    ghost var picked: seq<nat>
    ghost var full: bool

    ghost function State(): View
      reads this
    {
      View(queue, closed, received, offered, picked, full)
    }

    constructor ()
      ensures State() == View([], false, [], [], [], false)
    {
      queue, closed := [], false;
      received, offered, picked, full := [], [], [], false;
    }

    /** A send on a closed channel would panic. */
    method TrySend(e: Exchange)
      requires !closed
      modifies this
      ensures State() == Offered(old(State()), e)
      ensures full && !old(full) ==> |old(queue)| >= SUB_BUFFER
    {
      if |queue| < SUB_BUFFER {
        queue := queue + [e];
        picked := picked + [|offered|];
      } else {
        full := true;
      }
      offered := offered + [e];
    }

    /** Closing a closed channel would panic. */
    method Close()
      requires !closed
      modifies `closed
      ensures closed
    {
      closed := true;
    }

    /** What the reader gets: the next event, or None once the channel is closed and empty. It blocks on
        an open, empty channel. */
    method Receive() returns (e: Option<Exchange>)
      requires queue != [] || closed
      modifies `queue, `received
      ensures e == if old(queue) != [] then Some(old(queue)[0]) else None
      ensures State() == Taken(old(State()))
    {
      if queue == [] { return None; }
      e := Some(queue[0]);
      received := received + [queue[0]];
      queue := queue[1..];
    }
  }

  // ---------------------------------------------------------------- the server

  const RING_CAP := 500

  function Last(s: seq<Exchange>, n: nat): seq<Exchange> { if |s| <= n then s else s[|s| - n..] }

  function Reversed(s: seq<Exchange>): seq<Exchange> { seq(|s|, i requires 0 <= i < |s| => s[|s| - 1 - i]) }

  /** The state of a channel handed out when `since` events had been recorded. While it is subscribed it
      is offered everything; then it is closed. */
  ghost predicate Sound(v: View, since: nat, recorded: seq<Exchange>, subscribed: bool) {
    && (v.closed <==> !subscribed)
    && v.Faithful()
    && since <= |recorded|
    && v.offered <= recorded[since..]
    && (subscribed ==> v.offered == recorded[since..])
  }

  lemma RecordedIsSound(v: View, since: nat, recorded: seq<Exchange>, x: Exchange)
    requires Sound(v, since, recorded, true)
    ensures Sound(Offered(v, x), since, recorded + [x], true)
  {
    OfferedIsFaithful(v, x);
    hide View.Faithful;
    assert (recorded + [x])[since..] == recorded[since..] + [x];
  }

  lemma MissedIsSound(v: View, since: nat, recorded: seq<Exchange>, x: Exchange)
    requires Sound(v, since, recorded, false)
    ensures Sound(v, since, recorded + [x], false)
  {
    hide View.Faithful;
    assert (recorded + [x])[since..] == recorded[since..] + [x];
  }

  lemma ClosedIsSound(v: View, since: nat, recorded: seq<Exchange>, subscribed: bool)
    requires Sound(v, since, recorded, subscribed)
    ensures Sound(v.(closed := true), since, recorded, false)
  {}

  lemma TakenIsSound(v: View, since: nat, recorded: seq<Exchange>, subscribed: bool)
    requires Sound(v, since, recorded, subscribed)
    ensures Sound(Taken(v), since, recorded, subscribed)
  {
    TakenIsFaithful(v);
    hide View.Faithful;
  }

  class Server {
    const redact: bool
    var ring: seq<Exchange>
    var subs: set<Chan>
    var closed: bool
    ghost var recorded: seq<Exchange>     // everything accepted, as it was kept
    ghost var joined: map<Chan, nat>      // every channel ever handed out, with |recorded| at that time

    ghost predicate Valid()
      reads this, joined.Keys
    {
      && ring == Last(recorded, RING_CAP)
      && subs <= joined.Keys
      && (closed ==> subs == {})
      && forall c <- joined.Keys :: Sound(c.State(), joined[c], recorded, c in subs)
    }

    constructor (redact: bool)
      ensures Valid() && recorded == [] && joined == map[] && !closed && this.redact == redact
    {
      this.redact := redact;
      ring, subs, closed := [], {}, false;
      recorded, joined := [], map[];
    }

    method Record(e: Exchange)
      requires Valid()
      modifies this`ring, this`recorded, subs
      ensures Valid()
      ensures recorded == old(recorded) + if closed then [] else [if redact then e.Redacted() else e]
      ensures forall c <- subs :: c.State() == Offered(old(c.State()), if redact then e.Redacted() else e)
    {
      var x := if redact then e.Redacted() else e;
      if closed { return; }
      ring := ring + [x];
      if |ring| > RING_CAP { ring := ring[|ring| - RING_CAP..]; }
      recorded := recorded + [x];
      assert ring == Last(recorded, RING_CAP);
      Broadcast(x);
      hide Sound, Offered, Last;
      forall c <- joined.Keys ensures Sound(c.State(), joined[c], recorded, c in subs) {
        if c in subs {
          RecordedIsSound(old(c.State()), joined[c], old(recorded), x);
        } else {
          MissedIsSound(old(c.State()), joined[c], old(recorded), x);
        }
      }
    }

    method Broadcast(x: Exchange)
      requires forall c <- subs :: !c.closed
      modifies subs
      ensures forall c <- subs :: c.State() == Offered(old(c.State()), x)
    {
      var todo := subs;
      while todo != {}
        invariant todo <= subs
        invariant forall c <- todo :: c.State() == old(c.State())
        invariant forall c <- subs - todo :: c.State() == Offered(old(c.State()), x)
        decreases todo
      {
        var c :| c in todo;
        c.TrySend(x);
        todo := todo - {c};
      }
    }

    method Close()
      requires Valid()
      modifies this`subs, this`closed, subs
      ensures Valid() && closed && subs == {}
      ensures forall c <- joined.Keys :: c.State() == old(c.State()).(closed := true)
    {
      if closed { return; }
      closed := true;
      CloseAll();
      hide Sound;
      forall c <- joined.Keys ensures Sound(c.State(), joined[c], recorded, false) {
        ClosedIsSound(old(c.State()), joined[c], recorded, c in old(subs));
      }
    }

    method CloseAll()
      requires forall c <- subs :: !c.closed
      modifies this`subs, subs`closed
      ensures subs == {} && forall c <- old(subs) :: c.closed
    {
      while subs != {}
        invariant subs <= old(subs)
        invariant forall c <- subs :: !c.closed
        invariant forall c <- old(subs) - subs :: c.closed
        decreases subs
      {
        var c :| c in subs;
        c.Close();
        subs := subs - {c};
      }
    }

    /** None once the server is closed. */
    method Subscribe() returns (c: Chan?)
      requires Valid()
      modifies this`subs, this`joined
      ensures Valid()
      ensures c == null <==> closed
      ensures c == null ==> joined == old(joined) && subs == old(subs)
      ensures c != null ==> fresh(c) && joined == old(joined)[c := |recorded|] && subs == old(subs) + {c}
    {
      if closed { return null; }
      c := new Chan();
      subs := subs + {c};
      joined := joined[c := |recorded|];
    }

    /** Harmless on a channel that Close has closed already. */
    method Unsubscribe(c: Chan)
      requires Valid() && c in joined
      modifies this`subs, c`closed
      ensures Valid() && subs == old(subs) - {c} && c.closed
    {
      if c in subs {
        subs := subs - {c};
        c.Close();
      }
    }

    /** One receive of a stream handler. */
    method Deliver(c: Chan) returns (e: Option<Exchange>)
      requires Valid() && c in joined && (c.queue != [] || c.closed)
      modifies c`queue, c`received
      ensures Valid()
      ensures e == if old(c.queue) != [] then Some(old(c.queue)[0]) else None
      ensures c.received == old(c.received) + if e.Some? then [e.value] else []
    {
      TakenIsSound(c.State(), joined[c], recorded, c in subs);
      hide Sound, Taken;
      e := c.Receive();
    }

    method Snapshot() returns (out: array<Exchange>)
      ensures fresh(out) && out[..] == ring
    {
      var r := ring;
      out := new Exchange[|r|](i requires 0 <= i < |r| => r[i]);
    }

    /** The ring, newest first. */
    method HandleEvents() returns (snap: array<Exchange>)
      ensures fresh(snap) && snap[..] == Reversed(ring)
    {
      snap := Snapshot();
      var n := snap.Length;
      var i, j := 0, n - 1;
      while i < j
        invariant 0 <= i && j == n - 1 - i && i <= j + 1
        invariant forall k :: 0 <= k < i || j < k < n ==> snap[k] == ring[n - 1 - k]
        invariant forall k :: i <= k <= j ==> snap[k] == ring[k]
      {
        snap[i], snap[j] := snap[j], snap[i];
        i, j := i + 1, j - 1;
      }
    }
  }

  /** What a subscriber has seen or will see is an in-order selection of what was recorded since it
      subscribed. A channel that never filled up has missed nothing while it was subscribed. */
  lemma FeedIsFaithful(s: Server, c: Chan)
    requires s.Valid() && c in s.joined
    ensures var since := s.recorded[s.joined[c]..];
            && Picks(c.received + c.queue, since, c.picked) && |c.queue| <= 256
            && (!c.full && !c.closed ==> c.received + c.queue == since)
            && (!c.full ==> c.received + c.queue <= since)
  {
    var since := s.recorded[s.joined[c]..];
    assert Sound(c.State(), s.joined[c], s.recorded, c in s.subs);
  }

  /** The ring: the latest 500 recorded events, or all of them, oldest first. */
  lemma RingSpelled(s: Server, i: nat)
    requires s.Valid() && i < |s.ring|
    ensures |s.ring| == if |s.recorded| < 500 then |s.recorded| else 500
    ensures s.ring[i] == s.recorded[|s.recorded| - |s.ring| + i]
  {}

  /** And what the page gets of it: the latest event first. */
  lemma NewestFirst(ring: seq<Exchange>, i: nat)
    requires i < |ring|
    ensures |Reversed(ring)| == |ring| && Reversed(ring)[i] == ring[|ring| - 1 - i]
  {}
}
