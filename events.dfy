// Subscriptions to events: each connection owns an implementation object
// holding the callback and a blocked flag, and a holder owns at most one
// connection.

module Events {

  /** Hands out identifiers 0, 1, 2, ... in order. */
  class IdCounter {
    var next: nat

    constructor ()
      ensures next == 0
    {
      next := 0;
    }

    /** `nextId`: the current counter, which then moves on by one. */
    method NextId() returns (id: nat)
      modifies this
      ensures id == old(next) && next == id + 1
    {
      id := next;
      next := next + 1;
    }
  }

  /** Two identifiers handed out one after the other differ. */
  method TwoIds(c: IdCounter) returns (a: nat, b: nat)
    modifies c
    ensures a < b
  {
    a := c.NextId();
    b := c.NextId();
  }

  /** `EventsImpl`: the callback, which the model leaves out, and whether
    * the events are blocked. */
  class EventsImpl {
    var blocked: bool

    /** A new connection starts unblocked. */
    constructor ()
      ensures !blocked
    {
      blocked := false;
    }
  }

  /** `EventsHolder`: owns a connection, or none once disconnected. */
  class EventsHolder {
    var impl: EventsImpl?

    /** A holder without a connection. */
    constructor ()
      ensures impl == null
    {
      impl := null;
    }

    /** The holder `connect` hands back, owning the new connection. */
    constructor Holding(e: EventsImpl)
      ensures impl == e
    {
      impl := e;
    }

    /** The move constructor: takes the other holder's connection and
      * leaves the other holder disconnected. */
    constructor Move(other: EventsHolder)
      modifies other
      ensures impl == old(other.impl) && other.impl == null
    {
      impl := other.impl;
      new;
      other.impl := null;
    }

    /** `isDisconnected`. */
    function IsDisconnected(): (b: bool)
      reads this
      ensures b <==> impl == null
    {
      impl == null
    }

    /** `operator bool`: connected. */
    function Connected(): (b: bool)
      reads this
      ensures b <==> !IsDisconnected()
    {
      !IsDisconnected()
    }

    /** `isBlocked`: never blocked without a connection. */
    function IsBlocked(): (b: bool)
      reads this, impl
      ensures IsDisconnected() ==> !b
      ensures !IsDisconnected() ==> b == impl.blocked
    {
      impl != null && impl.blocked
    }

    /** `blockEvent`: sets the flag of the connection, which `isBlocked`
      * then reports; does nothing without a connection. */
    method BlockEvent(block: bool)
      modifies impl
      ensures impl == old(impl)
      ensures IsBlocked() == (!IsDisconnected() && block)
    {
      if impl == null {
        return;
      }
      impl.blocked := block;
    }

    /** `disconnect`: drops the connection, if any. */
    method Disconnect()
      modifies this
      ensures IsDisconnected() && !IsBlocked()
    {
      if impl == null {
        return;
      }
      impl := null;
    }

    /** Move assignment: drops its own connection first, then takes the
      * other holder's, leaving the other holder disconnected. Moving a
      * holder into itself therefore leaves it disconnected. */
    method MoveAssign(other: EventsHolder)
      modifies this, other
      ensures other != this ==> impl == old(other.impl)
      ensures other.IsDisconnected()
      ensures other == this ==> IsDisconnected()
    {
      Disconnect();
      impl := other.impl;
      other.impl := null;
    }
  }

  /** Disconnecting twice leaves the holder as disconnecting once. */
  method DisconnectTwice(h: EventsHolder) returns (once: bool, twice: bool)
    modifies h
    ensures once && twice
  {
    h.Disconnect();
    once := h.IsDisconnected();
    h.Disconnect();
    twice := h.IsDisconnected();
  }

  /** A freshly connected holder is connected and unblocked; blocking it is
    * reported, and after a move the connection, flag included, belongs to
    * the new holder. */
  method ConnectBlockMove() returns (first: bool, blocked: bool, moved: bool, left: bool)
    ensures first && blocked && moved && left
  {
    var e := new EventsImpl();
    var h := new EventsHolder.Holding(e);
    first := h.Connected() && !h.IsBlocked();
    h.BlockEvent(true);
    blocked := h.IsBlocked();
    var g := new EventsHolder.Move(h);
    moved := g.IsBlocked();
    left := h.IsDisconnected() && !h.IsBlocked();
  }
}
