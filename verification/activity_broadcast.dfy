/** The activity fan-out of the server (activityController.js,
    `broadcastActivity`): every WebSocket client that is open receives the
    serialised activity once. */
module ActivityBroadcast {
  import opened Common

  /** A socket's `readyState`. */
  datatype ReadyState = Connecting | Open | Closing | Closed

  /** The numeric values of the WebSocket ready states. */
  function Code(s: ReadyState): (n: nat)
    ensures n < 4
    ensures n == 1 <==> s == Open
  {
    match s
    case Connecting => 0
    case Open => 1
    case Closing => 2
    case Closed => 3
  }

  datatype Client = Client(id: nat, readyState: ReadyState)

  /** The activity record, as far as the broadcast is concerned: it is only
      serialised, never inspected. */
  datatype Activity = Activity(user: string, kind: string, movieId: int)

  /** `JSON.stringify(activity)`, kept symbolic. */
  datatype Payload = Json(activity: Activity)

  /** One `client.send(payload)`. */
  datatype Message = Message(to: Client, payload: Payload)

  predicate IsOpen(c: Client) {
    Code(c.readyState) == 1
  }

  /** The clients a broadcast reaches, in the server's iteration order. */
  function OpenClients(cs: seq<Client>): (r: seq<Client>)
    ensures forall i :: 0 <= i < |r| ==> r[i].readyState == Open
    ensures forall c :: c in r <==> c in cs && c.readyState == Open
  {
    Filter(IsOpen, cs)
  }

  /** The `forEach` over the client set: an open client is sent the payload
      and every other client is skipped. */
  function FanOut(cs: seq<Client>, p: Payload): (sent: seq<Message>)
    ensures |sent| == |OpenClients(cs)|
    ensures forall k :: 0 <= k < |sent| ==> sent[k] == Message(OpenClients(cs)[k], p)
  {
    if |cs| == 0 then []
    else
      var rest := FanOut(cs[1..], p);
      if IsOpen(cs[0]) then [Message(cs[0], p)] + rest else rest
  }

  /** `broadcastActivity(activity)`: nothing happens until a server is
      attached; then the open clients receive the serialised activity. */
  function Broadcast(server: Option<seq<Client>>, a: Activity): (sent: seq<Message>)
    ensures server.None? ==> sent == []
    ensures forall k :: 0 <= k < |sent| ==> sent[k].payload == Json(a) && sent[k].to.readyState == Open
    ensures server.Some? ==> |sent| == |OpenClients(server.value)|
    ensures server.Some? ==> forall k :: 0 <= k < |sent| ==> sent[k].to == OpenClients(server.value)[k]
  {
    match server
    case None => []
    case Some(cs) => FanOut(cs, Json(a))
  }

  /** The clients a list of sends went to. */
  function Recipients(sent: seq<Message>): (r: seq<Client>)
    ensures |r| == |sent|
    ensures forall k :: 0 <= k < |r| ==> r[k] == sent[k].to
  {
    seq(|sent|, k requires 0 <= k < |sent| => sent[k].to)
  }

  /** The server's client set holds each connection once. */
  predicate NoDuplicates(cs: seq<Client>) {
    forall i, j :: 0 <= i < j < |cs| ==> cs[i] != cs[j]
  }

  lemma {:induction false} NoDuplicatesCountsOnce(cs: seq<Client>, c: Client)
    requires NoDuplicates(cs)
    ensures multiset(cs)[c] == if c in cs then 1 else 0
  {
    if |cs| > 0 {
      assert cs == [cs[0]] + cs[1..];
      assert NoDuplicates(cs[1..]) by {
        forall i, j | 0 <= i < j < |cs| - 1 ensures cs[1..][i] != cs[1..][j] {
          assert cs[1..][i] == cs[i + 1] && cs[1..][j] == cs[j + 1];
        }
      }
      NoDuplicatesCountsOnce(cs[1..], c);
      if c == cs[0] {
        assert c !in cs[1..] by {
          forall k | 0 <= k < |cs| - 1 ensures cs[1..][k] != c {
            assert cs[1..][k] == cs[k + 1];
          }
        }
      }
    }
  }

  /** Each open client receives exactly one message per broadcast, and no
      other client receives any. */
  lemma OpenClientsReceiveExactlyOnce(cs: seq<Client>, a: Activity, c: Client)
    requires NoDuplicates(cs)
    ensures multiset(Recipients(Broadcast(Some(cs), a)))[c] ==
      if c in cs && c.readyState == Open then 1 else 0
  {
    var sent := Broadcast(Some(cs), a);
    assert Recipients(sent) == OpenClients(cs);
    NoDuplicatesCountsOnce(cs, c);
  }

  /** Who is sent to does not depend on the activity, so no user filtering
      takes place, and everyone receives the same payload. */
  lemma RecipientsIgnoreActivity(server: Option<seq<Client>>, a: Activity, b: Activity)
    ensures Recipients(Broadcast(server, a)) == Recipients(Broadcast(server, b))
    ensures forall k :: 0 <= k < |Broadcast(server, a)| ==>
      Broadcast(server, a)[k].payload == Broadcast(server, a)[0].payload
  {
  }
}
