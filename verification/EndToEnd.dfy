/** From the threads that send on a connection to the callbacks of the consumers on the other side. */
module EndToEnd {
  import opened Bytes
  import opened Framing
  import opened RingBuffer
  import opened Reassembly
  import opened AsWritten
  import D = Delivery
  import S = Sending

  /** What the listener picked from one connection, with the names of the queues. */
  function PickedFrom(actions: seq<D.Action>, connection: nat): seq<(D.Name, D.Item)> {
    if actions == [] then []
    else
      var last := actions[|actions| - 1];
      PickedFrom(actions[..|actions| - 1], connection) +
      if last.Pick? && last.q.Named? && last.item.connection == connection then [(last.q.name, last.item)] else []
  }

  function ForName(ps: seq<(D.Name, D.Item)>, n: D.Name): seq<D.Item> {
    if ps == [] then []
    else
      var last := ps[|ps| - 1];
      ForName(ps[..|ps| - 1], n) + if last.0 == n then [last.1] else []
  }

  /** An event as an item of the machine: its packet stands behind a number. */
  function ItemOf(e: Event, connection: nat, code: Event -> nat): D.Item {
    D.Item(connection, code(e))
  }

  function ItemsOf(es: seq<Event>, connection: nat, code: Event -> nat): seq<D.Item> {
    seq(|es|, k requires 0 <= k < |es| => ItemOf(es[k], connection, code))
  }

  /** The events that read_connection pushes, with the numbers of their names. */
  function Tagged(es: seq<Event>, connection: nat, number: seq<byte> -> nat, code: Event -> nat)
    : seq<(D.Name, D.Item)>
  {
    seq(|es|, k requires 0 <= k < |es| => (number(es[k].name), ItemOf(es[k], connection, code)))
  }

  function WithName(es: seq<Event>, name: seq<byte>): seq<Event> {
    if es == [] then []
    else
      var last := es[|es| - 1];
      WithName(es[..|es| - 1], name) + if last.name == name then [last] else []
  }

  /** A connection's part of what was picked for a name is the name's part of what was picked from the connection. */
  lemma {:induction false} PicksCommute(actions: seq<D.Action>, n: D.Name, connection: nat)
    ensures D.OfConnection(D.Picks(actions, n), connection) == ForName(PickedFrom(actions, connection), n)
  {
    if actions != [] {
      var last, before := actions[|actions| - 1], actions[..|actions| - 1];
      PicksCommute(before, n, connection);
      var one := if last.Pick? && last.q == D.Named(n) then [last.item] else [];
      var ps := PickedFrom(before, connection);
      assert D.Picks(actions, n) == D.Picks(before, n) + one;
      D.OfConnectionConcat(D.Picks(before, n), one, connection);
      assert one != [] ==> one[1..] == [];
      assert D.OfConnection(one, connection) == if one != [] && last.item.connection == connection then one else [];
      if last.Pick? && last.q.Named? && last.item.connection == connection {
        var p := (last.q.name, last.item);
        assert PickedFrom(actions, connection) == ps + [p] && (ps + [p])[..|ps|] == ps;
      } else {
        assert PickedFrom(actions, connection) == ps + [] == ps;
      }
      assert D.OfConnection(D.Picks(actions, n), connection)
          == ForName(ps, n) + if one != [] && last.item.connection == connection then one else [];
    }
  }

  lemma {:induction false} TaggedForName(es: seq<Event>, name: seq<byte>, connection: nat,
          number: seq<byte> -> nat, code: Event -> nat)
    requires forall e | e in es :: number(e.name) == number(name) ==> e.name == name
    ensures ForName(Tagged(es, connection, number, code), number(name)) == ItemsOf(WithName(es, name), connection, code)
  {
    if es != [] {
      var before, last := es[..|es| - 1], es[|es| - 1];
      TaggedForName(before, name, connection, number, code);
      var all := Tagged(es, connection, number, code);
      assert all[..|all| - 1] == Tagged(before, connection, number, code);
      assert WithName(es, name) == WithName(before, name) + if last.name == name then [last] else [];
    }
  }

  lemma OfConnectionPrefix(a: seq<D.Item>, b: seq<D.Item>, connection: nat)
    requires a <= b
    ensures D.OfConnection(a, connection) <= D.OfConnection(b, connection)
  {
    assert b == a + b[|a|..];
    D.OfConnectionConcat(a, b[|a|..], connection);
  }

  lemma PrefixThrough(delivered: seq<D.Item>, kept: seq<D.Item>, pending: seq<D.Item>, picks: seq<D.Item>)
    requires delivered <= kept && kept + pending == picks
    ensures delivered <= picks && (delivered == kept && pending == [] ==> delivered == picks)
  {
  }

  /**
   * In any state, if no event of the name was reported lost: the callback of a name has got, from
   * each connection, a beginning of the events with that name that came out of its buffer.
   */
  lemma DeliveredAsReceived(cfg: D.Config, states: seq<D.State>, actions: seq<D.Action>, i: nat,
                            connection: nat, received: seq<Event>, name: seq<byte>,
                            number: seq<byte> -> nat, code: Event -> nat)
    requires D.WellFormed(cfg) && D.IsRun(cfg, states, actions) && i < |states|
    requires PickedFrom(actions[..i], connection) == Tagged(received, connection, number, code)
    requires forall e | e in received :: number(e.name) == number(name) ==> e.name == name
    requires D.Lost(D.At(states[i], D.Named(number(name))).log) == 0
    ensures var q := D.At(states[i], D.Named(number(name)));
            && D.OfConnection(q.delivered, connection) <= ItemsOf(WithName(received, name), connection, code)
            && (q.delivered == D.Kept(q.log) && !states[i].listener.Pushing? ==>
                  D.OfConnection(q.delivered, connection) == ItemsOf(WithName(received, name), connection, code))
  {
    var n := number(name);
    var q := D.At(states[i], D.Named(n));
    var picks, pending := D.Picks(actions[..i], n), D.Pending(states[i], n);
    assert !states[i].listener.Pushing? ==> pending == [];
    hide *;
    D.ConservationAndOrder(cfg, states, actions, i, D.Named(n), connection);
    D.LogIsPicks(cfg, states, actions, i, n);
    D.NothingLost(q.log);
    PrefixThrough(q.delivered, D.Kept(q.log), pending, picks);
    OfConnectionPrefix(q.delivered, picks, connection);
    PicksCommute(actions[..i], n, connection);
    TaggedForName(received, name, connection, number, code);
  }

  /**
   * The whole way. Threads have sent events on a connection, each to its end, and without an error;
   * the other side has read all the bytes, however they were cut; its listener is joined, and no
   * event of the name was reported lost, as none is if the queues are not bounded. Then the callback
   * of the name has got each event that was sent with that name, once, and in the order of the sends.
   */
  lemma SentIsDelivered(lines: seq<S.Line>, sends: seq<S.Action>, chunks: seq<seq<byte>>,
          r: Ring, wraps: bool, beyond: Memory,
          cfg: D.Config, states: seq<D.State>, actions: seq<D.Action>, i: nat, c: nat,
          connection: nat, name: seq<byte>, number: seq<byte> -> nat, code: Event -> nat)
    requires |lines| > 0 && S.IsRun(lines, sends)
    requires var line := lines[|lines| - 1];
             && !line.torn && line.holder.Nobody? && AllSendable(line.done, BUFFER_SIZE - CHUNK + 1)
             && AreChunks(chunks) && Flatten(chunks) == line.wire
             && r.Valid() && |r.cells| == BUFFER_SIZE + 1 && r.start == r.end
             && (wraps || FramesFit(BUFFER_SIZE + 1, r.start, line.done))
             && forall e | e in line.done :: number(e.name) == number(name) ==> e.name == name
    requires D.WellFormed(cfg) && D.IsRun(cfg, states, actions) && i < |states| && states[i].listener.Finished?
    requires PickedFrom(actions[..i], connection) ==
             Tagged(ReceivedRing(r, wraps, chunks, beyond).events, connection, number, code)
    requires c < |cfg.slots| && D.Takes(cfg, c, D.Named(number(name))) && c !in states[i].skipped
    requires cfg.max == 0 || D.Lost(D.At(states[i], D.Named(number(name))).log) == 0
    ensures D.OfConnection(D.At(states[i], D.Named(number(name))).delivered, connection)
         == ItemsOf(WithName(lines[|lines| - 1].done, name), connection, code)
  {
    hide D.IsRun, ReceivedRing, FramesFit, AllSendable, AreChunks;
    var line := lines[|lines| - 1];
    var k := S.SentIsReceived(lines, sends, |lines| - 1, chunks, r, wraps, beyond);
    var received := ReceivedRing(r, wraps, chunks, beyond).events;
    assert k == |line.done| && received == line.done;
    if cfg.max == 0 {
      D.UnboundedLosesNothing(cfg, states, actions, i, number(name));
    }
    DeliveredAsReceived(cfg, states, actions, i, connection, received, name, number, code);
    D.ShutdownDrains(cfg, states, actions, i, c, D.Named(number(name)));
  }
}
