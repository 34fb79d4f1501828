/** backend/app/websocket/connection_manager.py: the registry of live
    WebSocket observers and the broadcast fan-out. A socket is an opaque
    identifier; whether `send_text` raises is an oracle passed in (`dead`,
    the sockets whose send fails). */
module Connections {
  import opened Messages

  type Conn = nat

  /** What one `send_text` carries: a broadcast's JSON text or a personal string. */
  datatype Payload = Json(msg: Message) | Text(text: string)

  /** One frame a socket accepted. */
  datatype Delivery = Delivery(conn: Conn, payload: Payload)

  /** The connections whose send succeeds, in list order. */
  function Passing(cs: seq<Conn>, dead: set<Conn>): (r: seq<Conn>)
    ensures |r| <= |cs|
  {
    if cs == [] then []
    else if cs[0] in dead then Passing(cs[1..], dead)
    else [cs[0]] + Passing(cs[1..], dead)
  }

  /** The connections whose send fails, in list order (the `disconnected` list). */
  function Failing(cs: seq<Conn>, dead: set<Conn>): (r: seq<Conn>)
    ensures |r| <= |cs|
    ensures r != [] ==> r[0] in dead
  {
    if cs == [] then []
    else if cs[0] in dead then [cs[0]] + Failing(cs[1..], dead)
    else Failing(cs[1..], dead)
  }

  /** `list.remove(c)` guarded by `c in list`: drops the first occurrence, if any. */
  function RemoveFirst(cs: seq<Conn>, c: Conn): (r: seq<Conn>)
  {
    if cs == [] then []
    else if cs[0] == c then cs[1..]
    else [cs[0]] + RemoveFirst(cs[1..], c)
  }

  /** The frames one broadcast of `m` puts on the wire, one per receiving socket. */
  function FanOut(cs: seq<Conn>, m: Message): (r: seq<Delivery>)
    ensures |r| == |cs|
  {
    if cs == [] then [] else [Delivery(cs[0], Json(m))] + FanOut(cs[1..], m)
  }

  /** The i-th frame of a fan-out goes to the i-th connection and carries the message. */
  lemma {:induction false} FanOutAt(cs: seq<Conn>, m: Message, i: nat)
    requires i < |cs|
    ensures FanOut(cs, m)[i] == Delivery(cs[i], Json(m))
  {
    if i > 0 {
      FanOutAt(cs[1..], m, i - 1);
    }
  }

  lemma {:induction false} PassingAppend(a: seq<Conn>, b: seq<Conn>, dead: set<Conn>)
    ensures Passing(a + b, dead) == Passing(a, dead) + Passing(b, dead)
  {
    if a == [] {
      assert a + b == b;
    } else {
      assert (a + b)[0] == a[0];
      assert (a + b)[1..] == a[1..] + b;
      PassingAppend(a[1..], b, dead);
      if a[0] !in dead {
        assert [a[0]] + Passing(a[1..], dead) + Passing(b, dead) == [a[0]] + (Passing(a[1..], dead) + Passing(b, dead));
      }
    }
  }

  lemma {:induction false} FailingAppend(a: seq<Conn>, b: seq<Conn>, dead: set<Conn>)
    ensures Failing(a + b, dead) == Failing(a, dead) + Failing(b, dead)
  {
    if a == [] {
      assert a + b == b;
    } else {
      assert (a + b)[0] == a[0];
      assert (a + b)[1..] == a[1..] + b;
      FailingAppend(a[1..], b, dead);
      if a[0] in dead {
        assert [a[0]] + Failing(a[1..], dead) + Failing(b, dead) == [a[0]] + (Failing(a[1..], dead) + Failing(b, dead));
      }
    }
  }

  lemma {:induction false} FanOutAppend(a: seq<Conn>, b: seq<Conn>, m: Message)
    ensures FanOut(a + b, m) == FanOut(a, m) + FanOut(b, m)
  {
    if a == [] {
      assert a + b == b;
    } else {
      assert (a + b)[0] == a[0];
      assert (a + b)[1..] == a[1..] + b;
      FanOutAppend(a[1..], b, m);
    }
  }

  /** A connection survives a broadcast exactly when it was registered and its send succeeded. */
  lemma {:induction false} PassingMembers(cs: seq<Conn>, dead: set<Conn>, c: Conn)
    ensures c in Passing(cs, dead) <==> c in cs && c !in dead
  {
    if cs != [] {
      PassingMembers(cs[1..], dead, c);
      assert c in cs <==> c == cs[0] || c in cs[1..];
    }
  }

  /** `RemoveFirst` takes away exactly one copy of `c`, when there is one. */
  lemma {:induction false} RemoveFirstCount(cs: seq<Conn>, c: Conn)
    ensures c in cs ==> multiset(RemoveFirst(cs, c)) == multiset(cs) - multiset{c}
    ensures c !in cs ==> RemoveFirst(cs, c) == cs
  {
    if cs != [] && cs[0] != c {
      RemoveFirstCount(cs[1..], c);
      assert cs == [cs[0]] + cs[1..];
    } else if cs != [] {
      assert cs == [cs[0]] + cs[1..];
    }
  }

  /** Removing the first failing connection leaves the passing ones alone and
      shortens the failing list by its head: the step of `broadcast`'s cleanup loop. */
  lemma {:induction false} RemoveFirstFailing(cs: seq<Conn>, dead: set<Conn>)
    requires Failing(cs, dead) != []
    ensures Failing(RemoveFirst(cs, Failing(cs, dead)[0]), dead) == Failing(cs, dead)[1..]
    ensures Passing(RemoveFirst(cs, Failing(cs, dead)[0]), dead) == Passing(cs, dead)
  {
    var x := Failing(cs, dead)[0];
    if cs[0] in dead {
      assert x == cs[0];
    } else {
      assert Failing(cs, dead) == Failing(cs[1..], dead);
      assert x in dead;
      RemoveFirstFailing(cs[1..], dead);
      assert RemoveFirst(cs, x) == [cs[0]] + RemoveFirst(cs[1..], x);
      assert RemoveFirst(cs, x)[1..] == RemoveFirst(cs[1..], x);
    }
  }

  /** Applying `disconnect` to every entry of the `disconnected` list, in order. */
  function RemoveEach(cs: seq<Conn>, ds: seq<Conn>): seq<Conn>
    decreases |ds|
  {
    if ds == [] then cs else RemoveEach(RemoveFirst(cs, ds[0]), ds[1..])
  }

  /** After a broadcast's cleanup, exactly the failing connections are gone and
      the others keep their relative order, even when a socket is registered twice. */
  lemma {:induction false} CleanupKeepsPassing(cs: seq<Conn>, dead: set<Conn>)
    ensures RemoveEach(cs, Failing(cs, dead)) == Passing(cs, dead)
    decreases |Failing(cs, dead)|
  {
    var f := Failing(cs, dead);
    if f == [] {
      NoFailingIsPassing(cs, dead);
    } else {
      RemoveFirstFailing(cs, dead);
      CleanupKeepsPassing(RemoveFirst(cs, f[0]), dead);
    }
  }

  lemma {:induction false} NoFailingIsPassing(cs: seq<Conn>, dead: set<Conn>)
    requires Failing(cs, dead) == []
    ensures Passing(cs, dead) == cs
  {
    if cs != [] {
      assert cs[0] !in dead;
      assert Failing(cs[1..], dead) == [];
      NoFailingIsPassing(cs[1..], dead);
      assert cs == [cs[0]] + cs[1..];
    }
  }

  /** A second broadcast to the same dead sockets removes nothing more. */
  lemma {:induction false} PassingIdempotent(cs: seq<Conn>, dead: set<Conn>)
    ensures Passing(Passing(cs, dead), dead) == Passing(cs, dead)
  {
    if cs != [] {
      PassingIdempotent(cs[1..], dead);
      var p := Passing(cs[1..], dead);
      if cs[0] !in dead {
        assert Passing(cs, dead) == [cs[0]] + p;
        assert ([cs[0]] + p)[0] == cs[0];
        assert ([cs[0]] + p)[1..] == p;
      } else {
        assert Passing(cs, dead) == p;
      }
    }
  }

  class ConnectionManager {
    var activeConnections: seq<Conn>
    /** Every frame a socket accepted, in send order. */
    var outbox: seq<Delivery>
    /** Every message handed to `broadcast`, in call order. */
    ghost var broadcasts: seq<Message>

    constructor ()
      ensures activeConnections == [] && outbox == [] && broadcasts == []
    {
      activeConnections := [];
      outbox := [];
      broadcasts := [];
    }

    /** `connect`: accept, then append; no duplicate check. */
    method Connect(ws: Conn)
      modifies this
      ensures activeConnections == old(activeConnections) + [ws]
      ensures outbox == old(outbox) && broadcasts == old(broadcasts)
    {
      activeConnections := activeConnections + [ws];
    }

    /** `disconnect`: remove one occurrence if present. */
    method Disconnect(ws: Conn)
      modifies this
      ensures activeConnections == RemoveFirst(old(activeConnections), ws)
      ensures outbox == old(outbox) && broadcasts == old(broadcasts)
    {
      if ws in activeConnections {
        activeConnections := RemoveFirst(activeConnections, ws);
      } else {
        RemoveFirstCount(activeConnections, ws);
      }
    }

    /** `send_personal_message`: a failed send disconnects only that socket. */
    method SendPersonalMessage(message: string, ws: Conn, dead: set<Conn>)
      modifies this
      ensures ws in dead ==> activeConnections == RemoveFirst(old(activeConnections), ws) && outbox == old(outbox)
      ensures ws !in dead ==> activeConnections == old(activeConnections) && outbox == old(outbox) + [Delivery(ws, Text(message))]
      ensures broadcasts == old(broadcasts)
    {
      if ws in dead {
        Disconnect(ws);
      } else {
        outbox := outbox + [Delivery(ws, Text(message))];
      }
    }

    /** `broadcast`: the same text to every registered connection in list order;
        the ones whose send failed are removed afterwards and nothing is raised. */
    method Broadcast(m: Message, dead: set<Conn>)
      modifies this
      ensures activeConnections == Passing(old(activeConnections), dead)
      ensures outbox == old(outbox) + FanOut(Passing(old(activeConnections), dead), m)
      ensures broadcasts == old(broadcasts) + [m]
    {
      broadcasts := broadcasts + [m];
      if |activeConnections| == 0 {
        return;
      }
      var disconnected: seq<Conn> := [];
      var i := 0;
      while i < |activeConnections|
        invariant 0 <= i <= |activeConnections|
        invariant activeConnections == old(activeConnections)
        invariant broadcasts == old(broadcasts) + [m]
        invariant disconnected == Failing(activeConnections[..i], dead)
        invariant outbox == old(outbox) + FanOut(Passing(activeConnections[..i], dead), m)
      {
        var c := activeConnections[i];
        assert activeConnections[..i + 1] == activeConnections[..i] + [c];
        PassingAppend(activeConnections[..i], [c], dead);
        FailingAppend(activeConnections[..i], [c], dead);
        if c in dead {
          assert Passing([c], dead) == [] && Failing([c], dead) == [c];
          ghost var before := Passing(activeConnections[..i], dead);
          assert before + [] == before;
          assert Passing(activeConnections[..i + 1], dead) == before;
          disconnected := disconnected + [c];
        } else {
          assert Failing([c], dead) == [];
          FanOutAppend(Passing(activeConnections[..i], dead), [c], m);
          assert [c][1..] == [];
          assert FanOut([c], m) == [Delivery(c, Json(m))];
          assert Passing([c], dead) == [c];
          outbox := outbox + [Delivery(c, Json(m))];
        }
        i := i + 1;
      }
      assert activeConnections[..i] == activeConnections;
      var j := 0;
      while j < |disconnected|
        invariant 0 <= j <= |disconnected|
        invariant Failing(activeConnections, dead) == disconnected[j..]
        invariant Passing(activeConnections, dead) == Passing(old(activeConnections), dead)
        invariant outbox == old(outbox) + FanOut(Passing(old(activeConnections), dead), m)
        invariant broadcasts == old(broadcasts) + [m]
      {
        RemoveFirstFailing(activeConnections, dead);
        Disconnect(disconnected[j]);
        j := j + 1;
      }
      NoFailingIsPassing(activeConnections, dead);
    }

    /** `disconnect_all`. */
    method DisconnectAll()
      modifies this
      ensures activeConnections == []
      ensures outbox == old(outbox) && broadcasts == old(broadcasts)
    {
      activeConnections := [];
    }
  }

  /** Three observers, one of which fails: the other two receive the message
      and the registry keeps exactly those two. */
  lemma ThreeObserversOneFails(m: Message)
    ensures Passing([1, 2, 3], {2}) == [1, 3]
    ensures FanOut(Passing([1, 2, 3], {2}), m) == [Delivery(1, Json(m)), Delivery(3, Json(m))]
  {
  }
}
