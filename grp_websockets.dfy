/**
 * Model of utils/grpWebSockets.js: the module-level `connections` map from
 * user id to socket, the per-connection `register` and `close` handlers, and
 * `sendMessage`, which saves a group message once and, only if the save
 * succeeded, forwards one `receiveMessage` envelope to every listed member
 * that currently has an entry. Each handler invocation is one atomic step.
 */
module GroupSockets {
  import opened Outcomes

  type UserId = string

  /**
   * One accepted WebSocket connection. `userId` is the handler's closure
   * variable `let userId`, undefined (None) until the connection registers.
   */
  class Socket {
    var userId: Option<UserId>

    constructor ()
      ensures userId == None
    {
      userId := None;
    }
  }

  /** The JSON text a socket is sent: `{type: 'receiveMessage', grpId, senderId, message}`. */
  datatype Envelope = ReceiveMessage(grpId: string, senderId: UserId, message: string)

  /** One `memberSocket.send(...)`: the member whose entry was used, that socket, the envelope. */
  datatype Delivery = Delivery(member: UserId, socket: Socket, envelope: Envelope)

  /** One call of `saveMessage(grpId, senderId, message)` in models/grpMessageModel.js. */
  datatype SaveCall = SaveMessage(grpId: string, senderId: UserId, message: string)

  /** A parsed inbound message, dispatched on its `type` field. */
  datatype Inbound =
    | Register(userId: UserId)
    | SendMessage(grpId: string, senderId: UserId, message: string, members: seq<UserId>)
    | Ignored                     // any other `type`: the handler does nothing

  /**
   * The sends of the `groupMembers.forEach` loop over `members`, in order:
   * one per listed member that has an entry in `conns`, none for the others.
   */
  function FanOut(conns: map<UserId, Socket>, members: seq<UserId>, env: Envelope): seq<Delivery>
  {
    if members == [] then []
    else
      var m := members[|members| - 1];
      FanOut(conns, members[..|members| - 1], env)
        + (if m in conns then [Delivery(m, conns[m], env)] else [])
  }

  /** The members that the deliveries were addressed to. */
  function Recipients(ds: seq<Delivery>): (ms: seq<UserId>)
    ensures |ms| == |ds|
    ensures forall k | 0 <= k < |ds| :: ms[k] == ds[k].member
  {
    if ds == [] then [] else Recipients(ds[..|ds| - 1]) + [ds[|ds| - 1].member]
  }

  /**
   * Every delivery goes to a listed member that has an entry, over the socket
   * that entry holds, and carries the one envelope.
   */
  lemma {:induction false} FanOutAddressing(conns: map<UserId, Socket>, members: seq<UserId>, env: Envelope)
    ensures forall d | d in FanOut(conns, members, env) ::
      d.member in members && d.member in conns && d.socket == conns[d.member] && d.envelope == env
  {
    if members != [] {
      var init := members[..|members| - 1];
      FanOutAddressing(conns, init, env);
      assert forall u | u in init :: u in members;
    }
  }

  /**
   * Each member with an entry receives exactly as many sends as it is listed
   * (once when listed once); a member without an entry receives none.
   */
  lemma {:induction false} FanOutCount(conns: map<UserId, Socket>, members: seq<UserId>, env: Envelope, u: UserId)
    ensures multiset(Recipients(FanOut(conns, members, env)))[u]
         == if u in conns then multiset(members)[u] else 0
  {
    if members != [] {
      var init, m := members[..|members| - 1], members[|members| - 1];
      FanOutCount(conns, init, env, u);
      assert members == init + [m];
      var ds := FanOut(conns, members, env);
      var prev := FanOut(conns, init, env);
      if m in conns {
        assert ds == prev + [Delivery(m, conns[m], env)];
        assert Recipients(ds) == Recipients(prev) + [m];
      } else {
        assert ds == prev;
      }
    }
  }

  /** The sender is not excluded: a connected sender listed among the members gets the echo. */
  lemma SenderReceivesEcho(conns: map<UserId, Socket>, members: seq<UserId>, env: Envelope)
    requires env.senderId in members && env.senderId in conns
    ensures exists d | d in FanOut(conns, members, env) ::
      d.member == env.senderId && d.socket == conns[env.senderId]
  {
    var ds := FanOut(conns, members, env);
    FanOutCount(conns, members, env, env.senderId);
    assert env.senderId in multiset(Recipients(ds));
    var k :| 0 <= k < |ds| && Recipients(ds)[k] == env.senderId;
    FanOutAddressing(conns, members, env);
    assert ds[k] in ds;
  }

  /** The shared server state: the `connections` map. */
  class Server {
    var connections: map<UserId, Socket>

    constructor ()
      ensures connections == map[]
    {
      connections := map[];
    }

    /** `register`: remember the id on the connection and overwrite the map entry. */
    method Register(ws: Socket, u: UserId)
      modifies this, ws
      ensures ws.userId == Some(u)
      ensures connections == old(connections)[u := ws]
      ensures u in connections && connections[u] == ws
      ensures forall v | v != u :: (v in connections <==> v in old(connections))
      ensures forall v | v != u && v in connections :: connections[v] == old(connections)[v]
    {
      ws.userId := Some(u);
      connections := connections[u := ws];
    }

    /**
     * `close`: delete the entry under the connection's user id, whatever socket
     * it holds now; a connection that never registered deletes nothing.
     */
    method Close(ws: Socket)
      modifies this
      ensures ws.userId.Some? ==> connections == old(connections) - {ws.userId.value}
      ensures ws.userId.Some? ==> ws.userId.value !in connections
      ensures ws.userId.None? ==> connections == old(connections)
    {
      if ws.userId.Some? {
        connections := connections - {ws.userId.value};
      }
    }

    /**
     * `sendMessage`: one save; if it reported no error, one send per listed
     * member with an entry. `saveFailed` is whether `saveMessage` returned an
     * error. The map is only read.
     */
    method SendMessage(grpId: string, senderId: UserId, message: string, members: seq<UserId>, saveFailed: bool)
      returns (saves: seq<SaveCall>, sent: seq<Delivery>)
      ensures saves == [SaveMessage(grpId, senderId, message)]
      ensures saveFailed ==> sent == []
      ensures !saveFailed ==> sent == FanOut(connections, members, ReceiveMessage(grpId, senderId, message))
    {
      saves := [SaveMessage(grpId, senderId, message)];
      sent := [];
      if !saveFailed {
        var env := ReceiveMessage(grpId, senderId, message);
        var i := 0;
        while i < |members|
          invariant 0 <= i <= |members|
          invariant sent == FanOut(connections, members[..i], env)
        {
          var memberId := members[i];
          assert members[..i + 1][..i] == members[..i];
          if memberId in connections {
            sent := sent + [Delivery(memberId, connections[memberId], env)];
          }
          i := i + 1;
        }
        assert members[..|members|] == members;
      }
    }

    /** The `message` handler: dispatch on the parsed message's type. */
    method OnMessage(ws: Socket, data: Inbound, saveFailed: bool)
      returns (saves: seq<SaveCall>, sent: seq<Delivery>)
      modifies this, ws
      ensures data.Register? ==>
        saves == [] && sent == [] && ws.userId == Some(data.userId)
        && connections == old(connections)[data.userId := ws]
      ensures data.SendMessage? ==>
        connections == old(connections) && ws.userId == old(ws.userId)
        && saves == [SaveMessage(data.grpId, data.senderId, data.message)]
        && sent == (if saveFailed then []
                    else FanOut(connections, data.members, ReceiveMessage(data.grpId, data.senderId, data.message)))
      ensures data.Ignored? ==>
        saves == [] && sent == [] && connections == old(connections) && ws.userId == old(ws.userId)
    {
      match data
      case Register(u) =>
        Register(ws, u);
        saves, sent := [], [];
      case SendMessage(grpId, senderId, message, members) =>
        saves, sent := SendMessage(grpId, senderId, message, members, saveFailed);
      case Ignored =>
        saves, sent := [], [];
    }
  }

  /**
   * A stale close evicts a newer registration: the first connection of `u`
   * closes after a second connection registered under the same id, and `u`
   * is left with no entry although the second socket is still open.
   */
  method StaleCloseEvictsNewer(server: Server, first: Socket, second: Socket, u: UserId)
    requires first != second
    modifies server, first, second
    ensures u !in server.connections
    ensures second.userId == Some(u)
  {
    server.Register(first, u);
    server.Register(second, u);
    assert server.connections[u] == second;
    server.Close(first);
  }

  /** Re-registering one connection under a new id leaves its old entry in place. */
  method ReRegisterKeepsOldEntry(server: Server, ws: Socket, u: UserId, v: UserId)
    requires u != v
    modifies server, ws
    ensures u in server.connections && server.connections[u] == ws
    ensures v !in server.connections
  {
    server.Register(ws, u);
    server.Register(ws, v);
    server.Close(ws);
  }
}
