/** Who receives each outbound message (`send` and `broadcast` in
    server/src/index.ts), and the stream of messages one connection sees. */
module Router {

  import opened Protocol

  /** `send(ws, m)` reaches the sender; `broadcast(m, id)` every connection
      but the sender; `broadcast(m)` every connection. */
  datatype Audience = ToSender | ToOthers | ToEveryone

  datatype Envelope = Envelope(to: Audience, msg: ServerMsg)

  /** The connections an envelope addressed to `a` reaches when `conns` are
      open. `broadcast` skips `exceptId` only when it is truthy, so an empty
      sender id excludes nobody. */
  function Recipients(a: Audience, sender: Id, conns: set<Id>): set<Id> {
    match a
    case ToSender => {sender}
    case ToOthers => if sender != "" then conns - {sender} else conns
    case ToEveryone => conns
  }

  /** The messages connection `who` receives from `outbox`, in order. */
  function Delivered(outbox: seq<Envelope>, sender: Id, conns: set<Id>, who: Id): (ms: seq<ServerMsg>)
    ensures |ms| <= |outbox|
  {
    if outbox == [] then []
    else
      var e := outbox[0];
      (if who in Recipients(e.to, sender, conns) then [e.msg] else []) + Delivered(outbox[1..], sender, conns, who)
  }

  /** A connection receives nothing exactly when no envelope is addressed
      to it. */
  lemma {:induction false} DeliveredNothing(outbox: seq<Envelope>, sender: Id, conns: set<Id>, who: Id)
    ensures Delivered(outbox, sender, conns, who) == [] <==>
      forall k :: 0 <= k < |outbox| ==> who !in Recipients(outbox[k].to, sender, conns)
  {
    if outbox != [] {
      DeliveredNothing(outbox[1..], sender, conns, who);
      assert forall k :: 1 <= k < |outbox| ==> outbox[k] == outbox[1..][k - 1];
    }
  }

  /** A connection receives only messages of envelopes addressed to it. */
  lemma {:induction false} DeliveredOnlyAddressed(outbox: seq<Envelope>, sender: Id, conns: set<Id>, who: Id)
    ensures forall m :: m in Delivered(outbox, sender, conns, who) ==>
      exists e :: e in outbox && e.msg == m && who in Recipients(e.to, sender, conns)
  {
    if outbox != [] {
      DeliveredOnlyAddressed(outbox[1..], sender, conns, who);
      forall m | m in Delivered(outbox, sender, conns, who)
        ensures exists e :: e in outbox && e.msg == m && who in Recipients(e.to, sender, conns)
      {
        if m !in Delivered(outbox[1..], sender, conns, who) {
          assert outbox[0] in outbox;
        } else {
          var e :| e in outbox[1..] && e.msg == m && who in Recipients(e.to, sender, conns);
          assert e in outbox;
        }
      }
    }
  }

  /** Delivery of two outboxes back to back is the concatenation of their
      deliveries: per-recipient order follows emission order. */
  lemma {:induction false} DeliveredAppend(a: seq<Envelope>, b: seq<Envelope>, sender: Id, conns: set<Id>, who: Id)
    ensures Delivered(a + b, sender, conns, who) == Delivered(a, sender, conns, who) + Delivered(b, sender, conns, who)
  {
    if a == [] {
      assert a + b == b;
    } else {
      var e := a[0];
      var head := if who in Recipients(e.to, sender, conns) then [e.msg] else [];
      assert (a + b)[0] == e;
      assert (a + b)[1..] == a[1..] + b;
      assert Delivered(a + b, sender, conns, who) == head + Delivered(a[1..] + b, sender, conns, who);
      DeliveredAppend(a[1..], b, sender, conns, who);
      assert Delivered(a, sender, conns, who) == head + Delivered(a[1..], sender, conns, who);
    }
  }

  /** A connection receives a message once for every envelope addressed to
      it. */
  lemma {:induction false} DeliveredSingle(e: Envelope, sender: Id, conns: set<Id>, who: Id)
    ensures Delivered([e], sender, conns, who) == if who in Recipients(e.to, sender, conns) then [e.msg] else []
  {
    assert [e][1..] == [];
  }
}
