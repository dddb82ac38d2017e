// One client socket: an all-or-nothing output buffer and an interest mask
// that has to agree with what the event loop's selector is watching.
module Selectors {

  const READ: nat := 1
  const WRITE: nat := 2

  /** What the operating system says to a register or a modify. */
  datatype Verdict = Accepted | RefusedKept | RefusedDropped

  /** Two selector states that differ for `socket` at most. */
  ghost predicate SameElsewhere(before: map<nat, nat>, after: map<nat, nat>, socket: nat) {
    forall k | k != socket ::
      (k in before <==> k in after) && (k in before ==> before[k] == after[k])
  }

  /** The event loop's selector, as the map from socket to mask it keeps. */
  class Selector {
    var watched: map<nat, nat>

    constructor ()
      ensures watched == map[]
    {
      watched := map[];
    }

    method Register(socket: nat, mask: nat, os: Verdict) returns (ok: bool)
      modifies this
      ensures ok <==> socket !in old(watched) && mask != 0 && os.Accepted?
      ensures watched == if ok then old(watched)[socket := mask] else old(watched)
    {
      ok := socket !in watched && mask != 0 && os.Accepted?;
      if ok {
        watched := watched[socket := mask];
      }
    }

    /** A modify the system refuses leaves the old entry or takes it, as the verdict says. */
    method Modify(socket: nat, mask: nat, os: Verdict) returns (ok: bool)
      modifies this
      ensures ok <==> socket in old(watched) && mask != 0 && os.Accepted?
      ensures ok ==> watched == old(watched)[socket := mask]
      ensures !ok ==> watched == if os.RefusedDropped? then old(watched) - {socket} else old(watched)
    {
      ok := socket in watched && mask != 0 && os.Accepted?;
      if ok {
        watched := watched[socket := mask];
      } else if os.RefusedDropped? {
        watched := watched - {socket};
      }
    }

    method Unregister(socket: nat) returns (ok: bool)
      modifies this
      ensures ok <==> socket in old(watched)
      ensures watched == old(watched) - {socket}
    {
      ok := socket in watched;
      watched := watched - {socket};
    }
  }
}

module Connections {
  import opened Bytes
  import opened Wrappers
  import opened Selectors

  /** What one non-blocking socket write answers. */
  datatype WriteOutcome = Took(count: nat) | WouldBlock | Broken

  class Connection {
    const id: nat                          // the socket's identity
    const canWrite: bool
    const sendTimeout: int
    const bufferLimit: Option<nat>
    var socket: Option<nat>
    var selector: Selector?
    var interest: Option<nat>
    var outBuffer: seq<byte>
    var readPaused: bool
    var lastWriteTime: int

    // History: what was accepted for the client, and what its socket took.
    ghost var accepted: seq<byte>
    ghost var wire: seq<byte>

    ghost predicate Limited(size: nat) {
      bufferLimit.Some? && bufferLimit.value > 0 ==> size <= bufferLimit.value
    }

    /** What the selector keeps for this socket is what `interest` says. */
    ghost predicate Watched()
      reads this, selector
    {
      selector != null ==>
        if socket.None? then interest.None? && id !in selector.watched
        else if interest.Some? && interest.value != 0 then
          id in selector.watched && selector.watched[id] == interest.value
        else id !in selector.watched
    }

    ghost predicate Buffered()
      reads this
    {
      && (socket.Some? ==> socket.value == id)
      && (selector == null ==> interest.None?)
      && (selector != null ==> (interest.Some? <==> socket.Some?))
      && wire + outBuffer == accepted
      && Limited(|outBuffer|)
    }

    ghost predicate Valid()
      reads this, selector
    {
      Buffered() && Watched()
    }

    /** The mask in force is the one wanted: the loop neither spins nor hangs. */
    ghost predicate Settled()
      reads this
    {
      socket.Some? && selector != null ==> interest == Some(WantedEvents())
    }

    constructor (id: nat, sendTimeout: Option<int>, bufferLimit: Option<nat>, canWrite: bool, now: int)
      ensures Valid()
      ensures this.id == id && socket == Some(id) && this.canWrite == canWrite
      ensures this.sendTimeout == if sendTimeout.Some? then sendTimeout.value else 5000
      ensures this.bufferLimit == bufferLimit && selector == null && interest == None
      ensures outBuffer == [] && accepted == [] && wire == [] && !readPaused && lastWriteTime == now
    {
      this.id, this.canWrite, this.bufferLimit := id, canWrite, bufferLimit;
      this.sendTimeout := if sendTimeout.Some? then sendTimeout.value else 5000;
      socket, selector, interest := Some(id), null, None;
      outBuffer, readPaused, lastWriteTime := [], false, now;
      accepted, wire := [], [];
    }

    predicate IsClosed()
      reads this
    {
      socket.None?
    }

    function WantedEvents(): nat
      reads this
    {
      (if readPaused then 0 else READ) + (if outBuffer != [] then WRITE else 0)
    }

    /** Arms READ only, whatever is already buffered. */
    method Attach(selector': Selector?)
      requires Valid() && selector == null
      requires selector' != null && socket.Some? ==> id !in selector'.watched
      modifies this`selector, this`interest, selector'
      ensures Valid()
      ensures selector' == null || socket.None? ==> selector == null && interest == None
      ensures selector' != null && socket.Some? ==>
                && selector == selector' && interest == Some(READ)
                && selector'.watched == old(selector'.watched)[id := READ]
      ensures selector' != null && socket.None? ==> selector'.watched == old(selector'.watched)
    {
      if selector' == null || socket.None? {
        return;
      }
      selector := selector';
      interest := Some(READ);
      var _ := selector'.Register(id, READ, Accepted);
    }

    method Unregister()
      requires Buffered() && socket.Some?
      modifies this`interest, selector
      ensures interest == None
      ensures selector != null ==> selector.watched == old(selector.watched) - {id}
    {
      if selector == null || interest.None? {
        return;
      }
      var _ := selector.Unregister(id);
      interest := None;
    }

    method Close()
      requires Buffered() && (IsClosed() ==> Watched())
      modifies this`socket, this`interest, selector
      ensures Valid() && IsClosed()
      ensures selector != null ==> selector.watched == old(selector.watched) - {id}
    {
      if socket.Some? {
        Unregister();
        socket := None;
      }
    }

    /**
     * Bring the mask in line with what is wanted, or close if the system
     * will not have it. A zero mask means not watched at all.
     */
    method UpdateInterest(os: Verdict)
      requires Valid()
      modifies this`socket, this`interest, selector
      ensures Valid() && Settled()
      ensures old(socket).None? ==> socket.None?
      ensures os.Accepted? ==> socket == old(socket)
      ensures selector == null ==> socket == old(socket)
      ensures selector != null ==> SameElsewhere(old(selector.watched), selector.watched, id)
      ensures selector != null && socket.Some? ==>
                if readPaused && outBuffer == [] then id !in selector.watched
                else id in selector.watched && selector.watched[id] ==
                                               if readPaused then 2 else if outBuffer == [] then 1 else 3
    {
      if selector == null || socket.None? {
        return;
      }
      var want := WantedEvents();
      if interest == Some(want) {
        return;
      }
      var ok: bool;
      if want == 0 {
        ok := selector.Unregister(id);
      } else if interest.None? || interest == Some(0) {
        ok := selector.Register(id, want, os);
      } else {
        ok := selector.Modify(id, want, os);
      }
      if !ok {
        Close();
        return;
      }
      interest := Some(want);
    }

    method SetReadPaused(paused: bool, os: Verdict)
      requires Valid()
      modifies this`readPaused, this`socket, this`interest, selector
      ensures Valid() && readPaused == paused
      ensures old(Settled()) || paused != old(readPaused) ==> Settled()
      ensures old(socket).None? ==> socket.None?
      ensures os.Accepted? || paused == old(readPaused) || selector == null ==> socket == old(socket)
      ensures paused == old(readPaused) ==> unchanged(this) && (selector != null ==> unchanged(selector))
      ensures selector != null ==> SameElsewhere(old(selector.watched), selector.watched, id)
    {
      if readPaused == paused {
        return;
      }
      readPaused := paused;
      UpdateInterest(os);
    }

    /**
     * Queue the whole of `data`, or drop the client: a stream with a hole in
     * it is never produced.
     */
    method Send(data: seq<byte>, now: int) returns (r: Option<nat>)
      requires Valid()
      modifies this`outBuffer, this`lastWriteTime, this`accepted, this`socket, this`interest, selector
      ensures Valid() && wire == old(wire)
      ensures r == if old(socket).Some? && Limited(|old(outBuffer)| + |data|) then Some(|data|) else None
      ensures r.Some? ==>
                && outBuffer == old(outBuffer) + data && accepted == old(accepted) + data
                && socket == old(socket) && interest == old(interest)
                && lastWriteTime == (if old(outBuffer) == [] then now else old(lastWriteTime))
                && (selector != null ==> selector.watched == old(selector.watched))
      ensures r.None? ==> IsClosed() && outBuffer == old(outBuffer) && accepted == old(accepted)
      ensures selector != null ==> SameElsewhere(old(selector.watched), selector.watched, id)
    {
      if socket.None? {
        return None;
      }
      if bufferLimit.Some? && bufferLimit.value > 0 && |outBuffer| + |data| > bufferLimit.value {
        Close();
        return None;
      }
      if outBuffer == [] {
        lastWriteTime := now;
      }
      outBuffer := outBuffer + data;
      accepted := accepted + data;
      return Some(|data|);
    }

    /** Hand the socket what it will take; None when the socket is broken. */
    method Flush(os: WriteOutcome, now: int) returns (r: Option<nat>)
      requires Valid()
      requires os.Took? ==> os.count <= |outBuffer|
      modifies this`outBuffer, this`lastWriteTime, this`wire
      ensures Valid()
      ensures r.None? <==> old(socket).Some? && old(outBuffer) != [] && os.Broken?
      ensures var taken := if r.Some? then r.value else 0;
              && taken == (if old(socket).Some? && old(outBuffer) != [] && os.Took? then os.count else 0)
              && wire == old(wire) + old(outBuffer)[..taken]
              && outBuffer == old(outBuffer)[taken..]
              && lastWriteTime == (if taken > 0 then now else old(lastWriteTime))
    {
      if socket.None? || outBuffer == [] {
        return Some(0);
      }
      match os
      case Broken => return None;
      case WouldBlock => return Some(0);
      case Took(count) =>
        if count > 0 {
          wire := wire + outBuffer[..count];
          outBuffer := outBuffer[count..];
          lastWriteTime := now;
        }
        return Some(count);
    }

    /** It has not taken a byte of what waits for it for longer than it may. */
    predicate IsStale(now: int)
      reads this
      ensures IsStale(now) <==> outBuffer != [] && lastWriteTime + sendTimeout < now
    {
      outBuffer != [] && now - lastWriteTime > sendTimeout
    }
  }
}
