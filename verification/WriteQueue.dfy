// What clients hand over for the device: a bounded queue, written as the
// device takes it, that stops the clients being read while it is behind.
module WriteQueue {
  import opened Bytes
  import opened Lists

  const WRITE_HIGH_WATER: nat := 64 * 1024
  const WRITE_LOW_WATER: nat := 16 * 1024
  const WRITE_BUFFER_LIMIT: nat := 1024 * 1024
  const WRITE_STALL_TIMEOUT: int := 30_000      // in milliseconds

  type Monitor = nat

  /** What one write to the device answers; nothing taken is not a failure. */
  datatype DeviceAnswer = Took(count: nat) | Failed

  class SerialOutput {
    var open: bool
    var outBuffer: seq<byte>
    var readPaused: bool
    var progressAt: int
    var monitors: seq<Monitor>

    // History. `accepted` is everything ever queued, `start` where the open
    // device's share of it begins, `taken` what that device took.
    ghost var accepted: seq<byte>
    ghost var start: nat
    ghost var taken: seq<byte>
    ghost var pausedAt: nat                  // |taken| at the last pause
    ghost var seen: map<Monitor, seq<byte>>  // what each monitor was passed
    ghost var since: map<Monitor, nat>       // |accepted| when it registered

    /** No byte queued for the open device is lost, repeated or reordered. */
    ghost predicate Conserved()
      reads this
    {
      && start <= |accepted|
      && (if open then accepted[start..] == taken + outBuffer else outBuffer == [])
      && |outBuffer| <= WRITE_BUFFER_LIMIT
    }

    ghost predicate Hysteresis()
      reads this
    {
      && (readPaused ==> open && |outBuffer| > WRITE_LOW_WATER)
      && (!readPaused ==> |outBuffer| <= WRITE_HIGH_WATER)
      && (readPaused ==> pausedAt <= |taken| && |taken| + |outBuffer| > pausedAt + WRITE_HIGH_WATER)
    }

    ghost predicate Watched()
      reads this
    {
      && Distinct(monitors)
      && forall m | m in monitors ::
           m in seen && m in since && since[m] <= |accepted| && seen[m] == accepted[since[m]..]
    }

    ghost predicate Valid()
      reads this
    {
      Conserved() && Hysteresis() && Watched()
    }

    constructor (now: int)
      ensures Valid() && !open && !readPaused && accepted == [] && monitors == []
    {
      open, outBuffer, readPaused, progressAt, monitors := false, [], false, now, [];
      accepted, start, taken, pausedAt, seen, since := [], 0, [], 0, map[], map[];
    }

    method Open()
      requires Valid()
      modifies this`open, this`start, this`taken
      ensures Valid() && open && outBuffer == old(outBuffer)
      ensures !old(open) ==> taken == [] && start == |accepted|
      ensures old(open) ==> taken == old(taken) && start == old(start)
    {
      if !open {
        open, start, taken := true, |accepted|, [];
      }
    }

    /** The queue dies with the device it was for. */
    method CloseDevice()
      requires Conserved() && Watched()
      modifies this`open, this`outBuffer, this`readPaused
      ensures Valid() && !open && !readPaused && outBuffer == []
    {
      open, outBuffer := false, [];
      if readPaused {
        readPaused := false;
      }
    }

    method UpdateBackpressure()
      requires Conserved() && open
      requires readPaused ==> pausedAt <= |taken| && |taken| + |outBuffer| > pausedAt + WRITE_HIGH_WATER
      modifies this`readPaused, this`pausedAt
      ensures Hysteresis()
      ensures readPaused == if old(readPaused) then |outBuffer| > 16384 else |outBuffer| > 65536
      ensures old(readPaused) ==> pausedAt == old(pausedAt)
      ensures old(readPaused) && !readPaused ==> |taken| >= pausedAt + 49153
    {
      if readPaused {
        if |outBuffer| > WRITE_LOW_WATER {
          return;
        }
        readPaused := false;
      } else {
        if |outBuffer| <= WRITE_HIGH_WATER {
          return;
        }
        readPaused, pausedAt := true, |taken|;
      }
    }

    /** One write of the whole queue, of which some prefix goes. */
    method FlushSerial(device: DeviceAnswer, now: int)
      requires Conserved() && Watched()
      requires !open || outBuffer == [] ==> Hysteresis()
      requires readPaused ==> pausedAt <= |taken| && |taken| + |outBuffer| > pausedAt + WRITE_HIGH_WATER
      requires device.Took? ==> device.count <= |outBuffer|
      modifies this`open, this`outBuffer, this`readPaused, this`progressAt, this`taken, this`pausedAt
      ensures Valid()
      ensures old(open) && old(outBuffer) != [] ==>
                (open <==> device.Took? && (device.count > 0 || now - old(progressAt) < 30_000))
      ensures !old(open) || old(outBuffer) == [] ==> open == old(open) && taken == old(taken)
      ensures open && old(outBuffer) != [] ==>
                && taken == old(taken) + old(outBuffer)[..device.count]
                && outBuffer == old(outBuffer)[device.count..]
                && progressAt == (if device.count > 0 then now else old(progressAt))
      ensures old(readPaused) && !readPaused && open ==> |taken| >= old(pausedAt) + 49153
    {
      if !open || outBuffer == [] {
        return;
      }
      if device.Failed? {
        CloseDevice();
        return;
      }
      if device.count > 0 {
        taken := taken + outBuffer[..device.count];
        outBuffer := outBuffer[device.count..];
        progressAt := now;
      } else if now - progressAt >= WRITE_STALL_TIMEOUT {
        CloseDevice();
        return;
      }
      UpdateBackpressure();
    }

    method NotifyMonitors(data: seq<byte>)
      requires Distinct(monitors)
      requires forall m | m in monitors :: m in seen
      modifies this`seen
      ensures forall m | m in monitors :: m in seen && seen[m] == old(seen[m]) + data
    {
      Pairwise(monitors);
      for i := 0 to |monitors|
        invariant forall j | 0 <= j < |monitors| ::
          monitors[j] in seen && seen[monitors[j]] == old(seen[monitors[j]]) + if j < i then data else []
      {
        seen := seen[monitors[i] := seen[monitors[i]] + data];
      }
    }

    /** The part of `data` there is room for. */
    ghost function Accepted(data: seq<byte>): (part: seq<byte>)
      requires Conserved()
      reads this
      ensures part <= data && |outBuffer| + |part| <= 1048576
      ensures !open ==> part == []
      ensures open && part != data ==> |outBuffer| + |part| == 1048576
    {
      if !open then [] else data[..Min(|data|, WRITE_BUFFER_LIMIT - |outBuffer|)]
    }

    /** Queue what fits, show it to the monitors, and write what is taken. */
    method Send(data: seq<byte>, device: DeviceAnswer, now: int)
      requires Valid()
      requires device.Took? ==> device.count <= |outBuffer| + |Accepted(data)|
      modifies this
      ensures Valid() && monitors == old(monitors)
      ensures accepted == old(accepted) + old(Accepted(data))
      ensures forall m | m in monitors :: since.Keys == old(since).Keys && since[m] == old(since[m])
      ensures old(Accepted(data)) == [] ==>
                open == old(open) && outBuffer == old(outBuffer) && taken == old(taken) && readPaused == old(readPaused)
      ensures old(Accepted(data)) != [] ==>
                (open <==>
                 device.Took? && (device.count > 0 || (old(outBuffer) != [] ==> now - old(progressAt) < 30_000)))
      ensures old(Accepted(data)) != [] && open ==>
                && taken == old(taken) + (old(outBuffer) + old(Accepted(data)))[..device.count]
                && outBuffer == (old(outBuffer) + old(Accepted(data)))[device.count..]
      ensures old(readPaused) && !readPaused && open ==> |taken| >= old(pausedAt) + 49153
    {
      if !open || data == [] {
        return;
      }
      var room := WRITE_BUFFER_LIMIT - |outBuffer|;
      var part := data;
      if |data| > room {
        part := data[..room];
        if part == [] {
          return;
        }
      }
      assert part == Accepted(data);
      Pass(part, device, now);
    }

    /** Behind what is queued already; an empty queue starts the stall clock. */
    method Pass(part: seq<byte>, device: DeviceAnswer, now: int)
      requires Valid() && open && part != [] && |outBuffer| + |part| <= WRITE_BUFFER_LIMIT
      requires device.Took? ==> device.count <= |outBuffer| + |part|
      modifies this`open, this`outBuffer, this`readPaused, this`progressAt
      modifies this`taken, this`pausedAt, this`accepted, this`seen
      ensures Valid() && accepted == old(accepted) + part
      ensures open <==>
                device.Took? && (device.count > 0 || (old(outBuffer) != [] ==> now - old(progressAt) < 30_000))
      ensures open ==>
                && taken == old(taken) + (old(outBuffer) + part)[..device.count]
                && outBuffer == (old(outBuffer) + part)[device.count..]
      ensures old(readPaused) && !readPaused && open ==> |taken| >= old(pausedAt) + 49153
    {
      if outBuffer == [] {
        progressAt := now;
      }
      Enqueue(part);
      FlushSerial(device, now);
    }

    method Enqueue(part: seq<byte>)
      requires Valid() && open && |outBuffer| + |part| <= WRITE_BUFFER_LIMIT
      modifies this`outBuffer, this`accepted, this`seen
      ensures Conserved() && Watched()
      ensures outBuffer == old(outBuffer) + part && accepted == old(accepted) + part
    {
      outBuffer := outBuffer + part;
      accepted := accepted + part;
      NotifyMonitors(part);
      assert forall m | m in monitors :: accepted[since[m]..] == old(accepted)[since[m]..] + part;
      assert accepted[start..] == old(accepted)[start..] + part;
    }

    method AddMonitor(m: Monitor)
      requires Valid()
      modifies this`monitors, this`seen, this`since
      ensures Valid()
      ensures monitors == if m in old(monitors) then old(monitors) else old(monitors) + [m]
      ensures m !in old(monitors) ==> since[m] == |accepted|
    {
      if m !in monitors {
        monitors := monitors + [m];
        seen, since := seen[m := []], since[m := |accepted|];
      }
    }

    method RemoveMonitor(m: Monitor)
      requires Valid()
      modifies this`monitors
      ensures Valid() && monitors == Removed(old(monitors), m)
      ensures forall x :: x in monitors <==> x in old(monitors) && x != m
    {
      RemovedMembers(monitors, m);
      if m in monitors {
        monitors := Removed(monitors, m);
      } else {
        NotThere(monitors, m);
      }
    }
  }
}
