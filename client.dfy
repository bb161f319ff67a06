/** A client's read loop (`Client.Read` in websocket.go). Each inbound
    item is what one `ReadMessage` plus `json.Unmarshal` produced; the
    loop answers pings directly, forwards everything else to the pool as
    an empty broadcast, and on the first read or decode failure runs its
    deferred cleanup: one unregister submission, then closing the
    connection. */
module ClientRead {
  import opened Envelope
  import Hub

  /** A decoded JSON value, as far as the loop looks at it: a string, or
      anything else (number, boolean, null, array, object). */
  datatype JsonValue = JString(s: string) | JOther

  /** One attempt to read and decode the next message. `Decoded` carries
      the generic key/value map `json.Unmarshal` produced. */
  datatype Inbound =
    | ReadFailed
    | Undecodable
    | Decoded(fields: map<string, JsonValue>)

  /** What the loop does, in order: a direct write to its own connection,
      a send on one of the pool's intake channels, or closing the
      connection. */
  datatype Action =
    | Reply(message: Message)
    | Submit(event: Hub.Event)
    | Close

  /** `result["action"] == "ping"`: the key is present and holds the
      string "ping" (a missing key, or one holding any other value or a
      non-string, compares unequal). */
  predicate IsPing(fields: map<string, JsonValue>) {
    "action" in fields && fields["action"] == JString("ping")
  }

  /** The type assertion `result["body"].(string)` on the ping path
      succeeds. */
  predicate Readable(item: Inbound) {
    item.Decoded? && IsPing(item.fields) ==> "body" in item.fields && item.fields["body"].JString?
  }

  /** The index of the first item that ends the loop, or `|items|` when
      none does. */
  function FirstStop(items: seq<Inbound>): (k: nat)
    ensures k <= |items|
    ensures forall j :: 0 <= j < k ==> items[j].Decoded?
    ensures k < |items| ==> !items[k].Decoded?
    decreases |items|
  {
    if items == [] || !items[0].Decoded? then 0
    else 1 + FirstStop(items[1..])
  }

  /** Every item the loop reaches passes the type assertion on the ping
      path. */
  predicate Assertable(items: seq<Inbound>) {
    forall j :: 0 <= j < FirstStop(items) ==> Readable(items[j])
  }

  /** The classification of one decoded message (websocket.go:111-125). */
  function Respond(self: Hub.ClientRef, fields: map<string, JsonValue>): (a: Action)
    requires Readable(Decoded(fields))
    ensures a.Reply? <==> IsPing(fields)
    ensures a.Reply? ==> a.message.msgType == 0 && a.message.body.action == "ping"
                         && fields["body"] == JString(a.message.body.body)
    ensures a.Submit? ==> a.event == Hub.Broadcast(EmptyMessage())
    ensures !a.Close?
  {
    if IsPing(fields) then Reply(PingReply(fields["body"].s))
    else Submit(Hub.Broadcast(EmptyMessage()))
  }

  /** What the loop does over `items`. If the items run out before a
      failure, the loop is still blocked in its next read and has not
      cleaned up. */
  function ReadTrace(self: Hub.ClientRef, items: seq<Inbound>): seq<Action>
    requires Assertable(items)
    decreases |items|
  {
    if items == [] then []
    else
      match items[0]
      case ReadFailed => [Submit(Hub.Unregister(self)), Close]
      case Undecodable => [Submit(Hub.Unregister(self)), Close]
      case Decoded(fields) =>
        assert forall j :: 0 <= j < FirstStop(items[1..]) ==> items[1..][j] == items[j + 1];
        [Respond(self, fields)] + ReadTrace(self, items[1..])
  }

  /** Unfolding `ReadTrace` once past a decoded message. */
  lemma ReadTraceCons(self: Hub.ClientRef, items: seq<Inbound>)
    requires items != [] && items[0].Decoded? && Assertable(items)
    ensures Readable(items[0])
    ensures Assertable(items[1..]) && FirstStop(items[1..]) + 1 == FirstStop(items)
    ensures ReadTrace(self, items) == [Respond(self, items[0].fields)] + ReadTrace(self, items[1..])
  {
    var rest := items[1..];
    forall j | 0 <= j < FirstStop(rest)
      ensures Readable(rest[j])
    {
      assert rest[j] == items[j + 1];
    }
  }

  /** One iteration of `ReadTrace` from position `i`. */
  lemma ReadTraceAt(self: Hub.ClientRef, items: seq<Inbound>, i: nat)
    requires i < |items| && Assertable(items[i..])
    ensures items[i].Decoded? ==>
              && Readable(items[i])
              && Assertable(items[i + 1..])
              && ReadTrace(self, items[i..]) == [Respond(self, items[i].fields)] + ReadTrace(self, items[i + 1..])
    ensures !items[i].Decoded? ==> ReadTrace(self, items[i..]) == [Submit(Hub.Unregister(self)), Close]
  {
    var rest := items[i..];
    assert rest[0] == items[i];
    assert rest[1..] == items[i + 1..];
    if items[i].Decoded? {
      ReadTraceCons(self, rest);
    }
  }

  /** The loop itself: read, classify and act until a read or decode
      failure, then run the deferred cleanup. `readCount` counts the
      `ReadMessage` calls made. */
  method Read(self: Hub.ClientRef, items: seq<Inbound>) returns (trace: seq<Action>, readCount: nat)
    requires Assertable(items)
    ensures trace == ReadTrace(self, items)
    ensures readCount == if FirstStop(items) < |items| then FirstStop(items) + 1 else |items|
  {
    trace := [];
    var i := 0;
    while i < |items|
      invariant 0 <= i <= |items|
      invariant forall j :: 0 <= j < i ==> items[j].Decoded?
      invariant Assertable(items[i..])
      invariant trace + ReadTrace(self, items[i..]) == ReadTrace(self, items)
    {
      ReadTraceAt(self, items, i);
      if !items[i].Decoded? {
        // a read error or an undecodable payload ends the loop
        break;
      }
      var a := Respond(self, items[i].fields);
      ghost var later := ReadTrace(self, items[i + 1..]);
      assert (trace + [a]) + later == trace + ([a] + later);
      trace := trace + [a];
      i := i + 1;
    }
    if i < |items| {
      assert FirstStop(items) == i;
      // the deferred function: unregister first, then close
      trace := trace + [Submit(Hub.Unregister(self)), Close];
      readCount := i + 1;
    } else {
      assert items[i..] == [];
      readCount := i;
    }
  }

  /** The shape of every run: one response per message read before the
      first failure, and, when a failure happens, exactly the unregister
      submission followed by the close, with nothing after them. */
  lemma {:induction false} ReadTraceShape(self: Hub.ClientRef, items: seq<Inbound>)
    requires Assertable(items)
    ensures var t := ReadTrace(self, items);
      var k := FirstStop(items);
      && |t| == (if k < |items| then k + 2 else k)
      && (forall j :: 0 <= j < k ==> t[j] == Respond(self, items[j].fields))
      && (k < |items| ==> t[k] == Submit(Hub.Unregister(self)) && t[k + 1] == Close)
    decreases |items|
  {
    if items != [] && items[0].Decoded? {
      var rest := items[1..];
      ReadTraceCons(self, items);
      ReadTraceShape(self, rest);
      var t := ReadTrace(self, items);
      forall j | 0 <= j < FirstStop(items)
        ensures t[j] == Respond(self, items[j].fields)
      {
        if j > 0 {
          assert t[j] == ReadTrace(self, rest)[j - 1];
        }
      }
    }
  }

  /** On every exit path the client submits exactly one unregister for
      itself and closes its connection exactly once; while no failure has
      happened it does neither. */
  lemma {:induction false} CleanupOnce(self: Hub.ClientRef, items: seq<Inbound>)
    requires Assertable(items)
    ensures var t := ReadTrace(self, items);
      var n := if FirstStop(items) < |items| then 1 else 0;
      multiset(t)[Submit(Hub.Unregister(self))] == n && multiset(t)[Close] == n
    decreases |items|
  {
    if items != [] && items[0].Decoded? {
      var rest := items[1..];
      ReadTraceCons(self, items);
      CleanupOnce(self, rest);
      var a := Respond(self, items[0].fields);
      assert multiset(ReadTrace(self, items)) == multiset{a} + multiset(ReadTrace(self, rest));
    }
  }

  /** A ping is answered on the sender's own connection with its body
      echoed, and nothing reaches the pool. */
  lemma PingEchoes(self: Hub.ClientRef, fields: map<string, JsonValue>, body: string)
    requires IsPing(fields) && "body" in fields && fields["body"] == JString(body)
    ensures Respond(self, fields) == Reply(Message(0, BaseMessage("ping", body)))
    ensures !Respond(self, fields).Submit?
  {
  }

  /** Nothing of a forwarded message reaches the pool: any two non-ping
      messages produce the same submission, the empty envelope. */
  lemma ForwardIgnoresContent(self: Hub.ClientRef, f: map<string, JsonValue>, g: map<string, JsonValue>)
    requires !IsPing(f) && !IsPing(g)
    ensures Respond(self, f) == Respond(self, g) == Submit(Hub.Broadcast(Message(0, BaseMessage("", ""))))
  {
  }
}
