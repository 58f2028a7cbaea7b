/** The connection handshake and message routing of the client
    (Scripts/NetworkManager.cs). The WebSocket itself is outside the model:
    each frame is told what state polling found the socket in, which packet
    (if any) arrived, and whether a fresh connection attempt could be started.
    What the client sends and the signals it emits are kept as logs. */
module NetworkManager {
  import opened Wrappers
  import opened Json
  import opened EntityModels
  import SnapshotParser
  import GameState

  /** `WebSocketPeer.State`. */
  datatype ReadyState = Connecting | Open | Closing | Closed

  /** The commands the client can put on the wire. */
  datatype Outgoing =
    | Join(playerId: int, name: string)
    | Ready(ready: bool)
    | Move(unitId: int, x: real, y: real)
    | Attack(unitId: int, targetId: int)
    | Gather(unitId: int, resourceId: int)
    | Build(unitId: int, buildingType: int, x: real, y: real)
    | Train(buildingId: int, unitType: int)
    | Deposit(unitId: int, buildingId: int)
    | Hunt(unitId: int, animalId: int)

  /** The signals the node emits. */
  datatype Signal =
    | OnConnected
    | OnDisconnected
    | OnSnapshotReceived
    | OnErrorReceived(error: string)
    | OnAckReceived(ok: bool, msg: string)

  /** The exported settings. */
  datatype Config = Config(playerId: int, playerName: string, reconnectDelay: real, maxReconnectAttempts: int)

  /** The defaults: player 1 named "Player1", a 2 second retry delay, at most
      10 attempts. */
  function DefaultConfig(): (c: Config)
    ensures c.playerId == 1 && c.playerName == "Player1"
    ensures c.reconnectDelay == 2.0 && c.maxReconnectAttempts == 10
  {
    Config(1, "Player1", 2.0, 10)
  }

  /** The node's state. `socket` is `None` when there is no peer and otherwise
      the state the last poll found; `sent` and `signals` log, oldest first,
      what went out on the wire and what was emitted. */
  datatype Net = Net(
    config: Config,
    socket: Option<ReadyState>,
    isJoined: bool,
    isReady: bool,
    joinSent: bool,
    reconnectTimer: real,
    reconnectAttempts: int,
    mirror: GameState.State,
    sent: seq<Outgoing>,
    signals: seq<Signal>)

  /** Everything but the two logs, the socket and the flags is unchanged. */
  ghost predicate SameCore(a: Net, b: Net) {
    && a.config == b.config
    && a.reconnectTimer == b.reconnectTimer
    && a.reconnectAttempts == b.reconnectAttempts
    && a.mirror == b.mirror
  }

  /** `IsConnected`, also the guard of `SendMessage`: there is a socket
      and it is open. Without a socket the client is never connected. */
  function IsConnected(net: Net): (connected: bool)
    ensures connected ==> net.socket.Some?
    ensures net.socket.Some? ==> (connected <==> net.socket.value == Open)
  {
    net.socket == Some(Open)
  }

  /** `SendMessage`: the message goes out only while the socket is open and
      is dropped otherwise; nothing else changes. */
  function Send(net: Net, m: Outgoing): (r: Net)
    ensures IsConnected(net) ==> r.sent == net.sent + [m]
    ensures !IsConnected(net) ==> r.sent == net.sent
    ensures r.(sent := net.sent) == net
  {
    if IsConnected(net) then net.(sent := net.sent + [m]) else net
  }

  /** How a JSON value reads through `ToString()` for the purposes of the
      model: strings are themselves, anything else reads as no known text. */
  function Text(j: Json): string {
    if j.JStr? then j.s else ""
  }

  /** `HandleAck`. A message without `ok` (or whose `ok` is not a boolean)
      throws before anything happens and is dropped. Otherwise: the first ok
      ack joins and sends `ready`, the next one makes the client ready and
      emits `OnConnected`, any later or not-ok ack changes no flag; every
      handled ack emits `OnAckReceived`. */
  function HandleAck(net: Net, message: map<string, Json>): (r: Net)
    ensures !("ok" in message && message["ok"].JBool?) ==> r == net
    ensures "ok" in message && message["ok"].JBool? ==>
      var ok := message["ok"].b;
      var msg := if "msg" in message then Text(message["msg"]) else "";
      && SameCore(r, net) && r.socket == net.socket && r.joinSent == net.joinSent
      && r.isJoined == (net.isJoined || ok)
      && r.isReady == (net.isReady || (ok && net.isJoined))
      && (ok && !net.isJoined ==> r.sent == Send(net, Ready(true)).sent)
      && (!(ok && !net.isJoined) ==> r.sent == net.sent)
      && (ok && net.isJoined && !net.isReady ==> r.signals == net.signals + [OnConnected, OnAckReceived(ok, msg)])
      && (!(ok && net.isJoined && !net.isReady) ==> r.signals == net.signals + [OnAckReceived(ok, msg)])
  {
    if !("ok" in message && message["ok"].JBool?) then net
    else
      var ok := message["ok"].b;
      var msg := if "msg" in message then Text(message["msg"]) else "";
      var n :=
        if ok && !net.isJoined then Send(net.(isJoined := true), Ready(true))
        else if ok && !net.isReady then net.(isReady := true, signals := net.signals + [OnConnected])
        else net;
      n.(signals := n.signals + [OnAckReceived(ok, msg)])
  }

  /** `HandleError`: emits the server's error text; a message without `error`
      throws and is dropped. */
  function HandleError(net: Net, message: map<string, Json>): (r: Net)
    ensures "error" !in message ==> r == net
    ensures "error" in message ==> r == net.(signals := net.signals + [OnErrorReceived(Text(message["error"]))])
  {
    if "error" !in message then net
    else net.(signals := net.signals + [OnErrorReceived(Text(message["error"]))])
  }

  /** `HandleSnapshot`: a document that decodes is applied to the mirror and
      announced; one that does not is dropped whole, leaving the mirror as it
      was. */
  function HandleSnapshot(net: Net, doc: Json): (r: Net)
    ensures SnapshotParser.ParseSnapshot(doc).Failure? ==> r == net
    ensures SnapshotParser.ParseSnapshot(doc).Success? ==>
      && r.mirror == GameState.ApplySnapshot(net.mirror, SnapshotParser.ParseSnapshot(doc).value)
      && r.signals == net.signals + [OnSnapshotReceived]
      && r.(mirror := net.mirror, signals := net.signals) == net
  {
    match SnapshotParser.ParseSnapshot(doc)
    case Failure(_) => net
    case Success(s) =>
      net.(mirror := GameState.ApplySnapshot(net.mirror, s), signals := net.signals + [OnSnapshotReceived])
  }

  /** `HandleSnapshot` as written, where the ResourceUpdate cast inside
      `ApplySnapshot` can throw (`GameState.CastThrows`). The exception is
      caught here: the mirror keeps the merge and the events before the
      throwing one, and `OnSnapshotReceived` is not emitted. */
  function HandleSnapshotAsWritten(net: Net, doc: Json): (r: Net)
    ensures SnapshotParser.ParseSnapshot(doc).Failure? ==> r == net
    ensures SnapshotParser.ParseSnapshot(doc).Success? ==>
      var o := GameState.ApplySnapshotAsWritten(net.mirror, SnapshotParser.ParseSnapshot(doc).value);
      && (o.completed ==> r == HandleSnapshot(net, doc))
      && (!o.completed ==> r.signals == net.signals && r == net.(mirror := o.state))
  {
    match SnapshotParser.ParseSnapshot(doc)
    case Failure(_) => net
    case Success(s) =>
      var o := GameState.ApplySnapshotAsWritten(net.mirror, s);
      GameState.CompletedMatchesIntended(GameState.Merge(net.mirror, s), s.events);
      if o.completed then net.(mirror := o.state, signals := net.signals + [OnSnapshotReceived])
      else net.(mirror := o.state)
  }

  /** The example snapshot, sent to a fresh client: as written no
      `OnSnapshotReceived` is emitted and resource 7 stays in the mirror. As
      intended the snapshot is announced and resource 7 is gone. */
  lemma SnapshotCastIsNotAnnounced(net: Net)
    requires net.mirror == GameState.Init()
    ensures var doc := SnapshotParser.EncodeSnapshot(GameState.CastExample());
      && HandleSnapshotAsWritten(net, doc).signals == net.signals
      && 7 in HandleSnapshotAsWritten(net, doc).mirror.resources
      && HandleSnapshot(net, doc).signals == net.signals + [OnSnapshotReceived]
      && 7 !in HandleSnapshot(net, doc).mirror.resources
  {
    var s := GameState.CastExample();
    assert SnapshotParser.DecodableResource(s.resources[0]);
    SnapshotParser.SnapshotRoundTrip(s);
    GameState.CastAbortsLaterDestroy();
  }

  /** The message type a document announces: the text under `type` of an
      object that has one. */
  function TypeOf(doc: Option<Json>): (t: Option<string>)
    ensures t.Some? <==> doc.Some? && doc.value.JObj? && "type" in doc.value.fields
    ensures t.Some? && doc.value.fields["type"].JStr? ==> t.value == doc.value.fields["type"].s
    ensures t.Some? && !doc.value.fields["type"].JStr? ==> t.value == ""
  {
    if doc.Some? && doc.value.JObj? && "type" in doc.value.fields then Some(Text(doc.value.fields["type"]))
    else None
  }

  /** `ProcessMessage`: `None` stands for text that is not JSON. Anything that
      is not an object with a `type` is dropped; `ack`, `error` and `snapshot`
      go to their handlers; any other type is ignored. */
  function ProcessMessage(net: Net, doc: Option<Json>): (r: Net)
    ensures TypeOf(doc) == Some("ack") ==> r == HandleAck(net, doc.value.fields)
    ensures TypeOf(doc) == Some("error") ==> r == HandleError(net, doc.value.fields)
    ensures TypeOf(doc) == Some("snapshot") ==> r == HandleSnapshot(net, doc.value)
    ensures TypeOf(doc) !in {Some("ack"), Some("error"), Some("snapshot")} ==> r == net
    ensures r.socket == net.socket && r.joinSent == net.joinSent
    ensures r.sent == net.sent || r.sent == net.sent + [Ready(true)]
  {
    match TypeOf(doc)
    case None => net
    case Some(t) =>
      if t == "ack" then HandleAck(net, doc.value.fields)
      else if t == "error" then HandleError(net, doc.value.fields)
      else if t == "snapshot" then HandleSnapshot(net, doc.value)
      else net
  }

  /** `HandleDisconnect`: the peer is dropped, both handshake flags fall, one
      more attempt is counted and `OnDisconnected` is emitted. */
  function HandleDisconnect(net: Net): (r: Net)
    ensures r.socket.None? && !r.isJoined && !r.isReady
    ensures r.reconnectAttempts == net.reconnectAttempts + 1
    ensures r.signals == net.signals + [OnDisconnected]
    ensures r.(socket := net.socket, isJoined := net.isJoined, isReady := net.isReady,
               reconnectAttempts := net.reconnectAttempts, signals := net.signals) == net
  {
    net.(socket := None, isJoined := false, isReady := false,
         reconnectAttempts := net.reconnectAttempts + 1,
         signals := net.signals + [OnDisconnected])
  }

  /** `Connect`: a new peer in the connecting state, or, when the transport
      refuses to start, a disconnect. */
  function Connect(net: Net, connectOk: bool): (r: Net)
    ensures connectOk ==> r == net.(socket := Some(Connecting))
    ensures !connectOk ==> r == HandleDisconnect(net)
  {
    if connectOk then net.(socket := Some(Connecting)) else HandleDisconnect(net)
  }

  /** `_Ready`: a fresh mirror and a first connection attempt. */
  function Init(config: Config, connectOk: bool): (r: Net)
    ensures r.mirror == GameState.Init()
    ensures !r.isJoined && !r.isReady && !r.joinSent && r.sent == []
    ensures r.reconnectAttempts == (if connectOk then 0 else 1)
  {
    Connect(Net(config, None, false, false, false, 0.0, 0, GameState.Init(), [], []), connectOk)
  }

  /** What the transport reports for one frame: the time step, the state the
      poll found the peer in, the packet read while open (`None` for no
      packet, `Some(None)` for text that is not JSON), and whether a
      connection attempt made this frame could start. */
  datatype Frame = Frame(delta: real, state: ReadyState, packet: Option<Option<Json>>, connectOk: bool)

  /** The retry gate: no peer or a closed one, the delay elapsed, and
      attempts left. */
  ghost predicate MayRetry(net: Net, delta: real) {
    && (net.socket.None? || net.socket == Some(Closed))
    && net.reconnectTimer + delta >= net.config.reconnectDelay
    && net.reconnectAttempts < net.config.maxReconnectAttempts
  }

  /** The outcome of the retry step and whether it connected. */
  datatype RetryOutcome = RetryOutcome(next: Net, retried: bool)

  /** The retry step at the end of `_Process`. */
  function Retry(net: Net, delta: real, connectOk: bool): (r: RetryOutcome)
    ensures r.retried <==> MayRetry(net, delta)
    ensures r.retried ==> r.next == Connect(net.(reconnectTimer := 0.0), connectOk)
    ensures !r.retried && (net.socket.None? || net.socket == Some(Closed)) ==>
      r.next == net.(reconnectTimer := net.reconnectTimer + delta)
    ensures !(net.socket.None? || net.socket == Some(Closed)) ==> r.next == net
  {
    if net.socket.None? || net.socket == Some(Closed) then
      var timer := net.reconnectTimer + delta;
      if timer >= net.config.reconnectDelay && net.reconnectAttempts < net.config.maxReconnectAttempts then
        RetryOutcome(Connect(net.(reconnectTimer := 0.0), connectOk), true)
      else RetryOutcome(net.(reconnectTimer := timer), false)
    else RetryOutcome(net, false)
  }

  /** The socket part of `_Process`: with a peer, its polled state decides.
      Open sends `join` once and handles the packet; Closed clears the join
      flag and disconnects; Connecting and Closing wait. */
  function Poll(net: Net, f: Frame): (r: Net)
    ensures net.socket.None? ==> r == net
    ensures net.socket.Some? && f.state == Open ==>
      && r.joinSent
      && (net.joinSent ==> r == ProcessPacket(net.(socket := Some(Open)), f.packet))
      && (!net.joinSent ==>
            r == ProcessPacket(Send(net.(socket := Some(Open)), Join(net.config.playerId, net.config.playerName)).(joinSent := true), f.packet))
    ensures net.socket.Some? && f.state == Closed ==> r == HandleDisconnect(net.(joinSent := false, socket := Some(Closed)))
    ensures net.socket.Some? && f.state in {Connecting, Closing} ==> r == net.(socket := Some(f.state))
  {
    if net.socket.None? then net
    else
      var polled := net.(socket := Some(f.state));
      match f.state
      case Open =>
        var joined :=
          if !polled.joinSent then Send(polled, Join(net.config.playerId, net.config.playerName)).(joinSent := true)
          else polled;
        ProcessPacket(joined, f.packet)
      case Closed => HandleDisconnect(polled.(joinSent := false))
      case _ => polled
  }

  /** A packet read while open, if any, handed to `ProcessMessage`. */
  function ProcessPacket(net: Net, packet: Option<Option<Json>>): (r: Net)
    ensures packet.None? ==> r == net
    ensures packet.Some? ==> r == ProcessMessage(net, packet.value)
  {
    if packet.Some? then ProcessMessage(net, packet.value) else net
  }

  /** `_Process` for one frame: the socket part, then the retry step. */
  function Process(net: Net, f: Frame): (r: Net)
    ensures r.reconnectAttempts >= net.reconnectAttempts
  {
    Retry(Poll(net, f), f.delta, f.connectOk).next
  }

  /** `_Process` over a run of frames. */
  function RunFrames(net: Net, frames: seq<Frame>): (r: Net)
    ensures r.reconnectAttempts >= net.reconnectAttempts
    decreases |frames|
  {
    if |frames| == 0 then net else RunFrames(Process(net, frames[0]), frames[1..])
  }

  /** The ack a server sends to accept a step of the handshake. */
  function OkAck(): Json {
    JObj(map["type" := JStr("ack"), "ok" := JBool(true)])
  }

  /** The handshake as the server drives it over an open socket: the first ok
      ack joins and answers `ready`, the second makes the client ready and
      announces `OnConnected`, and a third changes no flag and sends
      nothing. */
  lemma HandshakeSequence(net: Net)
    requires net.socket == Some(Open) && !net.isJoined && !net.isReady
    ensures var n1 := ProcessMessage(net, Some(OkAck()));
      var n2 := ProcessMessage(n1, Some(OkAck()));
      var n3 := ProcessMessage(n2, Some(OkAck()));
      && n1.isJoined && !n1.isReady && n1.sent == net.sent + [Ready(true)]
      && n2.isJoined && n2.isReady && n2.sent == n1.sent
      && n2.signals == n1.signals + [OnConnected, OnAckReceived(true, "")]
      && n3.isJoined && n3.isReady && n3.sent == n2.sent
      && n3.signals == n2.signals + [OnAckReceived(true, "")]
  {
    var a := OkAck();
    assert TypeOf(Some(a)) == Some("ack");
    assert "msg" !in a.fields;
  }

  /** How many `join` messages a log holds. */
  function JoinCount(s: seq<Outgoing>): nat {
    if |s| == 0 then 0 else JoinCount(s[..|s| - 1]) + (if s[|s| - 1].Join? then 1 else 0)
  }

  lemma JoinCountAppend(s: seq<Outgoing>, m: Outgoing)
    ensures JoinCount(s + [m]) == JoinCount(s) + (if m.Join? then 1 else 0)
  {
    assert (s + [m])[..|s|] == s;
  }

  /** One frame on a peer that is not found closed: the peer stays, the join
      flag only rises, and a `join` goes out exactly when the peer is open and
      none was sent yet. */
  lemma FrameWithoutClose(net: Net, f: Frame)
    requires net.socket.Some? && f.state != Closed
    ensures var r := Process(net, f);
      && r.socket.Some?
      && r.joinSent == (net.joinSent || f.state == Open)
      && JoinCount(r.sent) == JoinCount(net.sent) + (if f.state == Open && !net.joinSent then 1 else 0)
  {
    var polled := net.(socket := Some(f.state));
    var p := Poll(net, f);
    if f.state == Open {
      var joined :=
        if !net.joinSent then Send(polled, Join(net.config.playerId, net.config.playerName)).(joinSent := true)
        else polled;
      if !net.joinSent {
        JoinCountAppend(net.sent, Join(net.config.playerId, net.config.playerName));
      }
      assert p == ProcessPacket(joined, f.packet);
      assert p.socket == joined.socket && p.joinSent == joined.joinSent;
      if p.sent != joined.sent {
        JoinCountAppend(joined.sent, Ready(true));
      }
    } else {
      assert p == polled;
    }
    assert p.socket == Some(f.state);
    assert Process(net, f) == p;
  }

  /** While the peer is never found closed, at most one `join` goes out, and
      none if one already had. */
  lemma {:induction false} JoinAtMostOncePerConnection(net: Net, frames: seq<Frame>)
    requires net.socket.Some?
    requires forall i :: 0 <= i < |frames| ==> frames[i].state != Closed
    ensures JoinCount(RunFrames(net, frames).sent) <= JoinCount(net.sent) + (if net.joinSent then 0 else 1)
    decreases |frames|
  {
    if |frames| > 0 {
      var n := Process(net, frames[0]);
      FrameWithoutClose(net, frames[0]);
      JoinAtMostOncePerConnection(n, frames[1..]);
    }
  }

  /** Attempts are never reset, so once the cap is reached with no peer, no
      frame ever connects again and nothing is sent. */
  lemma {:induction false} RetriesStopAtCap(net: Net, frames: seq<Frame>)
    requires net.socket.None?
    requires net.reconnectAttempts >= net.config.maxReconnectAttempts
    ensures var r := RunFrames(net, frames);
      && r.socket.None? && r.sent == net.sent && r.reconnectAttempts == net.reconnectAttempts
      && r.isJoined == net.isJoined && r.isReady == net.isReady && r.mirror == net.mirror
    decreases |frames|
  {
    if |frames| > 0 {
      var n := Process(net, frames[0]);
      assert n == net.(reconnectTimer := net.reconnectTimer + frames[0].delta);
      RetriesStopAtCap(n, frames[1..]);
    }
  }
}
