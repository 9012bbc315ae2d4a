/** Terminal output across dropped connections: a replay ring and the sink that
    writes to it and to the live connection (cmd/lattice-agent/terminal_stream.go). */
module Terminal {

  type Bytes = seq<bv8>

  /** The last bytes of the output, up to the capacity. */
  ghost function LastBytes(output: Bytes, capacity: nat): Bytes {
    if |output| <= capacity then output else output[|output| - capacity..]
  }

  /** The offset refers to output that the ring no longer holds. */
  ghost predicate Evicted(output: Bytes, capacity: nat, off: int) {
    off < |output| && off < |output| - |LastBytes(output, capacity)|
  }

  class OutputRing {
    const capBytes: nat
    var buf: Bytes
    var headOff: int
    var totalOff: int
    /** Everything the shell ever wrote. */
    ghost var output: Bytes

    ghost predicate Valid()
      reads this
    {
      buf == LastBytes(output, capBytes) && totalOff == |output| && headOff == |output| - |buf|
    }

    constructor (capBytes: nat)
      ensures Valid() && output == [] && this.capBytes == capBytes
    {
      this.capBytes := capBytes;
      buf, headOff, totalOff, output := [], 0, 0, [];
    }

    method Append(p: Bytes)
      requires Valid()
      modifies this
      ensures Valid() && output == old(output) + p
    {
      totalOff := totalOff + |p|;
      buf := buf + p;
      output := output + p;
      if |buf| > capBytes {
        var drop := |buf| - capBytes;
        buf := buf[drop..];
        headOff := headOff + drop;
      }
    }

    /** The output from an offset on, or all that is left and a gap. */
    method TailFrom(off: int) returns (tail: Bytes, gap: bool)
      requires Valid()
      ensures gap <==> Evicted(output, capBytes, off)
      ensures !gap && 0 <= off <= |output| ==> output[..off] + tail == output
      ensures off >= |output| ==> tail == []
      ensures gap ==> tail == LastBytes(output, capBytes)
    {
      if off >= totalOff {
        return [], false;
      }
      if off < headOff {
        return buf, true;
      }
      tail, gap := buf[off - headOff..], false;
      assert output[..off] + tail == output;
    }
  }

  /** One WebSocket connection: the bytes it took from the sink, in order. */
  class Wire {
    ghost var sent: Bytes
    /** Writes that failed. */
    ghost var errors: nat

    constructor ()
      ensures sent == [] && errors == 0
    {
      sent, errors := [], 0;
    }

    /** A write that fails may have delivered any part of its bytes. */
    method Write(p: Bytes) returns (ok: bool)
      modifies this
      ensures exists k :: 0 <= k <= |p| && sent == old(sent) + p[..k] && (ok ==> k == |p|)
      ensures errors == old(errors) + if ok then 0 else 1
    {
      var k: nat :| k <= |p|;
      ok := *;
      if ok {
        k := |p|;
      } else {
        errors := errors + 1;
      }
      sent := sent + p[..k];
    }
  }

  class Sink {
    const ring: OutputRing
    var conn: Wire?

    ghost predicate Valid()
      reads this, ring
    {
      ring.Valid()
    }

    constructor (capBytes: nat)
      ensures Valid() && conn == null && fresh(ring) && ring.output == [] && ring.capBytes == capBytes
    {
      ring := new OutputRing(capBytes);
      conn := null;
    }

    /** Write: always into the ring, and on to the live connection, which a
        failed write detaches. */
    method Write(p: Bytes)
      requires Valid()
      modifies this, ring, conn
      ensures Valid() && ring.output == old(ring.output) + p && (conn == old(conn) || conn == null)
      ensures old(conn) != null ==>
        && Carries(old(conn).sent, old(conn.sent), p) && (conn != null ==> conn.sent == old(conn.sent) + p)
        && (conn == null <==> old(conn).errors > old(conn.errors))
    {
      ring.Append(p);
      if conn != null {
        var ok := conn.Write(p);
        assert ok ==> p[..|p|] == p;
        if !ok {
          conn := null;
        }
      }
    }

    /** resumeOnce: replay what the browser has not rendered, then go live. */
    method ResumeOnce(w: Wire, browserOff: int) returns (resumed: bool, gap: bool)
      requires Valid()
      modifies this, w
      ensures Valid() && resumed == (old(conn) != w) && old(w.sent) <= w.sent
      ensures !resumed ==> conn == old(conn) && w.sent == old(w.sent) && !gap
      ensures resumed ==> (gap <==> Evicted(ring.output, ring.capBytes, browserOff)) && (conn == w || conn == old(conn))
      ensures resumed && !gap && 0 <= browserOff <= |ring.output| ==>
        Carries(w.sent, old(w.sent), ring.output[browserOff..]) &&
          (conn == w ==> w.sent == old(w.sent) + ring.output[browserOff..])
      ensures resumed && conn != w ==> w.errors > old(w.errors)
      ensures resumed && !gap ==> (conn == w <==> w.errors == old(w.errors))
      ensures resumed && gap && conn == w ==> EndsWith(w.sent, LastBytes(ring.output, ring.capBytes))
    {
      if conn == w {
        return false, false;
      }
      var tail;
      tail, gap := ring.TailFrom(browserOff);
      if gap {
        var notice: Bytes := *;
        var _ := w.Write(notice);
      }
      assert !gap && 0 <= browserOff <= |ring.output| ==> tail == ring.output[browserOff..];
      if |tail| > 0 {
        var ok := w.Write(tail);
        assert ok ==> tail[..|tail|] == tail;
        if !ok {
          return true, gap;
        }
      }
      conn := w;
      resumed := true;
    }

    method Detach(w: Wire)
      requires Valid()
      modifies this`conn
      ensures Valid() && conn == if old(conn) == w then null else old(conn)
    {
      if conn == w {
        conn := null;
      }
    }
  }

  ghost predicate EndsWith(sent: Bytes, tail: Bytes) {
    |tail| <= |sent| && sent[|sent| - |tail|..] == tail
  }

  /** A connection took a prefix of p. */
  ghost predicate Carries(sent: Bytes, before: Bytes, p: Bytes) {
    before <= sent <= before + p
  }

  /** What happens at a terminal: the shell writes, the browser gets a new
      connection, a resume arrives on it (one whose offset does not parse, and
      the agent's own when none comes, is 0), the agent detaches it, and the
      browser renders up to n more of the bytes that arrived. */
  datatype Step = Output(p: Bytes) | Reconnect | Resume(off: int) | Drop | Render(n: nat)

  /** All output so far, what the browser had rendered when it got its present
      connection, what that connection carried, how much of that is rendered,
      and whether it is live. */
  datatype View = View(output: Bytes, base: Bytes, sent: Bytes, taken: nat, live: bool)

  function Rendered(v: View): Bytes
    requires v.taken <= |v.sent|
  {
    v.base + v.sent[..v.taken]
  }

  /** Every outcome a step may have, the network failing anywhere. */
  ghost predicate Next(v: View, step: Step, capacity: nat, v': View) {
    match step
    case Output(p) =>
      && v' == v.(output := v.output + p, sent := v'.sent, live := v'.live)
      && (if v.live then Carries(v'.sent, v.sent, p) && (v'.live ==> v'.sent == v.sent + p)
          else v'.sent == v.sent && !v'.live)
    case Reconnect => v.taken <= |v.sent| && v' == View(v.output, Rendered(v), [], 0, false)
    case Resume(off) =>
      && v' == v.(sent := v'.sent, live := v'.live) && v.sent <= v'.sent
      && (v.live ==> v' == v)
      && (!v.live && !Evicted(v.output, capacity, off) && 0 <= off <= |v.output| ==>
            Carries(v'.sent, v.sent, v.output[off..]) && (v'.live ==> v'.sent == v.sent + v.output[off..]))
    case Drop => v' == v.(live := false)
    case Render(n) => v.taken <= |v.sent| && v' == v.(taken := if v.taken + n > |v.sent| then |v.sent| else v.taken + n)
  }

  /** A resume that replays something asks for exactly what is missing, and the
      ring still has it. */
  ghost predicate Exact(v: View, step: Step, capacity: nat) {
    step.Resume? && !v.live ==> step.off == |v.base + v.sent| && !Evicted(v.output, capacity, step.off)
  }

  ghost predicate Trace(views: seq<View>, steps: seq<Step>, capacity: nat) {
    |views| == |steps| + 1 && forall i :: 0 <= i < |steps| ==> Next(views[i], steps[i], capacity, views[i + 1])
  }

  /** What the browser has and will get is a prefix of the output, and all of it
      while the connection is live. */
  ghost predicate Faithful(v: View) {
    v.taken <= |v.sent| && v.base + v.sent <= v.output && (v.live ==> v.base + v.sent == v.output)
  }

  lemma ExactStepFaithful(v: View, step: Step, capacity: nat, v': View)
    requires Faithful(v) && Next(v, step, capacity, v') && Exact(v, step, capacity)
    ensures Faithful(v')
  {
    match step
    case Output(p) =>
      if v.live {
        assert v.base + (v.sent + p) == v.output + p;
      }
    case Resume(off) =>
      if !v.live {
        Replayed(v.base, v.sent, v'.sent, v.output);
      }
    case _ =>
  }

  lemma Replayed(base: Bytes, before: Bytes, sent: Bytes, output: Bytes)
    requires base + before <= output && Carries(sent, before, output[|base + before|..])
    ensures base + sent <= output
    ensures sent == before + output[|base + before|..] ==> base + sent == output
  {
    assert base + (before + output[|base + before|..]) == output;
  }

  /** Over any number of drops, reconnects and exact resumes, at every instant
      the browser shows a prefix of what the shell wrote. */
  lemma {:induction false} AlwaysPrefix(views: seq<View>, steps: seq<Step>, capacity: nat, i: nat)
    requires Trace(views, steps, capacity) && Faithful(views[0]) && i <= |steps|
    requires forall j :: 0 <= j < i ==> Exact(views[j], steps[j], capacity)
    ensures Faithful(views[i]) && Rendered(views[i]) <= views[i].output
  {
    if i > 0 {
      AlwaysPrefix(views, steps, capacity, i - 1);
      ExactStepFaithful(views[i - 1], steps[i - 1], capacity, views[i]);
    }
    assert Rendered(views[i]) <= views[i].base + views[i].sent;
  }

  /** The browser, the sink and the connection that joins them. */
  class Session {
    const sink: Sink
    /** The connection the browser reads, what it had rendered when it got that
        connection, and how much it rendered from it. */
    var wire: Wire
    ghost var base: Bytes
    ghost var taken: nat

    ghost predicate Valid()
      reads this, sink, sink.ring, wire
    {
      sink.Valid() && taken <= |wire.sent|
    }

    ghost function Now(): View
      reads this, sink, sink.ring, wire
    {
      View(sink.ring.output, base, wire.sent, taken, sink.conn == wire)
    }

    constructor (capBytes: nat)
      ensures Valid() && Now() == View([], [], [], 0, false) && sink.ring.capBytes == capBytes
      ensures fresh(sink) && fresh(sink.ring) && fresh(wire) && sink.conn == null
    {
      sink := new Sink(capBytes);
      wire := new Wire();
      base, taken := [], 0;
    }

    /** One step, as the agent carries it out. */
    method Take(step: Step)
      requires Valid()
      modifies this, sink, sink.ring, sink.conn, wire
      ensures Valid() && Next(old(Now()), step, sink.ring.capBytes, Now())
      ensures wire == old(wire) || fresh(wire)
      ensures sink.conn == old(sink.conn) || sink.conn == null || sink.conn == wire
    {
      match step
      case Output(p) =>
        sink.Write(p);
      case Reconnect =>
        ghost var rendered := Rendered(Now());
        wire := new Wire();
        base, taken := rendered, 0;
      case Resume(off) =>
        var _, _ := sink.ResumeOnce(wire, off);
      case Drop =>
        sink.Detach(wire);
      case Render(n) =>
        taken := if taken + n > |wire.sent| then |wire.sent| else taken + n;
    }

    /** Any steps: what happens is one of the traces that AlwaysPrefix is about,
        and with exact resumes the browser shows a prefix of the output. */
    method Run(steps: seq<Step>) returns (ghost views: seq<View>)
      requires Valid()
      modifies this, sink, sink.ring, sink.conn, wire
      ensures Valid() && Trace(views, steps, sink.ring.capBytes) && views[0] == old(Now()) && views[|steps|] == Now()
      ensures Faithful(old(Now())) ==>
        (forall j :: 0 <= j < |steps| ==> Exact(views[j], steps[j], sink.ring.capBytes)) ==>
          Rendered(Now()) <= sink.ring.output
    {
      views := [Now()];
      for i := 0 to |steps|
        invariant Valid() && Trace(views, steps[..i], sink.ring.capBytes) && views[0] == old(Now()) && views[i] == Now()
        invariant wire == old(wire) || fresh(wire)
        invariant sink.conn == null || sink.conn in {old(sink.conn), old(wire)} || fresh(sink.conn)
      {
        Take(steps[i]);
        views := views + [Now()];
      }
      assert steps[..|steps|] == steps;
      if Faithful(old(Now())) && forall j :: 0 <= j < |steps| ==> Exact(views[j], steps[j], sink.ring.capBytes) {
        AlwaysPrefix(views, steps, sink.ring.capBytes, |steps|);
      }
    }
  }
}
