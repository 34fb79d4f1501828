/** backend/src/websocket/websocketServer.js: the Node WebSocket server's
    module state (the server, the client map, each socket's subscription
    set, the alert-poll watermark and timer) and its handlers. Sockets are
    numbers, the clock is a parameter, JSON text is kept as the values it
    carries, and `ws.send` appends a frame to an outbox. The `ws` library's
    own part is modelled only as far as the handlers rely on it: a new
    socket joins `wss.clients` and is OPEN, a closed one leaves both. */
module WebSocketServer {
  import opened Wrappers

  type Sock = nat

  /** A JSON scalar as JavaScript sees it after `JSON.parse`; `JNull` also
      stands for a missing property. */
  datatype JsValue = JNull | JBool(b: bool) | JNum(n: int) | JStr(s: string)

  /** JavaScript truthiness. */
  predicate Truthy(v: JsValue)
  {
    match v
    case JNull => false
    case JBool(b) => b
    case JNum(n) => n != 0
    case JStr(s) => s != ""
  }

  /** A client message: text that is not JSON, the JSON literal `null`
      (reading `.type` on it throws), or a value with its `type` and
      `patient_id` properties. */
  datatype Incoming = Unparsable | JsonNull | JsonValue(msgType: JsValue, patientId: JsValue)

  /** The vitals object handed to `broadcastVitalsUpdate`; only `patient_id` is inspected. */
  datatype VitalsRecord = VitalsRecord(patientId: JsValue, fields: map<string, JsValue>)

  /** A row of `getUnresolvedAlerts`; only `created_at` is inspected. */
  datatype AlertRecord = AlertRecord(alertId: int, createdAt: int, fields: map<string, JsValue>)

  datatype WsMessage =
    | Welcome(clientId: string)                        // type 'connection'
    | Subscribed(subscribedTo: JsValue)
    | Unsubscribed(unsubscribedFrom: JsValue)
    | Pong
    | ErrorReply(text: string)
    | VitalsUpdate(vitals: VitalsRecord, vitalsSentAt: int)
    | AlertPush(alert: AlertRecord, alertSentAt: int)  // type 'alert'

  datatype Frame = Frame(sock: Sock, msg: WsMessage)

  const InvalidFormat: string := "Invalid message format"
  const UnknownType: string := "Unknown message type"

  /** `s.split(sep)` for a one-character separator: always at least one piece. */
  function Split(s: string, sep: char): (r: seq<string>)
    ensures |r| >= 1
    decreases |s|
  {
    if s == [] then [""]
    else
      var rest := Split(s[1..], sep);
      if s[0] == sep then [""] + rest else [[s[0]] + rest[0]] + rest[1..]
  }

  /** `pieces.join(sep)`. */
  function Join(pieces: seq<string>, sep: char): string
    requires |pieces| >= 1
    decreases |pieces|
  {
    if |pieces| == 1 then pieces[0] else pieces[0] + [sep] + Join(pieces[1..], sep)
  }

  /** Splitting loses nothing and no piece holds the separator. */
  lemma {:induction false} SplitJoin(s: string, sep: char)
    ensures Join(Split(s, sep), sep) == s
    ensures forall i :: 0 <= i < |Split(s, sep)| ==> sep !in Split(s, sep)[i]
  {
    if s != [] {
      var rest := Split(s[1..], sep);
      SplitJoin(s[1..], sep);
      if s[0] == sep {
        assert ([""] + rest)[1..] == rest;
        assert s == [sep] + s[1..];
      } else {
        var r := Split(s, sep);
        assert r == [[s[0]] + rest[0]] + rest[1..];
        if |rest| == 1 {
          assert s == [s[0]] + rest[0];
        } else {
          assert r[1..] == rest[1..];
          assert Join(rest, sep) == rest[0] + [sep] + Join(rest[1..], sep);
          assert Join(r, sep) == ([s[0]] + rest[0]) + [sep] + Join(rest[1..], sep);
          assert s == [s[0]] + s[1..];
        }
        forall i | 0 <= i < |r| ensures sep !in r[i] {
          if i == 0 {
            assert sep !in rest[0];
          } else {
            assert r[i] == rest[i];
          }
        }
      }
    }
  }

  function DigitChar(d: nat): char
    requires d < 10
  {
    "0123456789"[d]
  }

  /** `String(n)` for a non-negative integer. */
  function Decimal(n: nat): string
  {
    if n < 10 then [DigitChar(n)] else Decimal(n / 10) + [DigitChar(n % 10)]
  }

  /** `req.url.split('?')[1]?.split('=')[1]`: the second `=`-piece of the
      second `?`-piece, if both exist. */
  function QueryValue(url: string): (r: Option<string>)
    ensures r.Some? ==> '?' in url && '=' !in r.value && '?' !in r.value
  {
    var parts := Split(url, '?');
    if |parts| < 2 then None
    else
      var pairs := Split(parts[1], '=');
      if |pairs| < 2 then None
      else
        SplitJoin(url, '?');
        SplitJoin(parts[1], '=');
        SplitNoSep(parts, 1, '?', url);
        Some(pairs[1])
  }

  lemma SplitNoSep(parts: seq<string>, k: nat, sep: char, url: string)
    requires parts == Split(url, sep) && k < |parts|
    requires forall i :: 0 <= i < |parts| ==> sep !in parts[i]
    ensures sep !in parts[k]
    ensures |parts| >= 2 ==> sep in url
  {
    if |parts| >= 2 {
      SplitJoin(url, sep);
      assert Join(parts, sep) == parts[0] + [sep] + Join(parts[1..], sep);
      assert url[|parts[0]|] == sep;
    }
  }

  /** The id a connection is stored under: the query value, or
      `client_<ms>` when it is missing or empty. */
  function ClientIdFor(url: string, nowMs: nat): (id: string)
    ensures id != ""
    ensures QueryValue(url).Some? && QueryValue(url).value != "" ==> id == QueryValue(url).value
    ensures QueryValue(url).None? || QueryValue(url).value == "" ==> id == "client_" + Decimal(nowMs)
  {
    match QueryValue(url)
    case Some(v) => if v != "" then v else "client_" + Decimal(nowMs)
    case None => "client_" + Decimal(nowMs)
  }

  /** The sockets a message goes to, as `wss.clients.forEach` visits them:
      one frame per client in `audience`, in client order. */
  function Sends(cs: seq<Sock>, audience: set<Sock>, m: WsMessage): (r: seq<Frame>)
    ensures |r| <= |cs|
  {
    if cs == [] then []
    else
      var last := cs[|cs| - 1];
      Sends(cs[..|cs| - 1], audience, m) + (if last in audience then [Frame(last, m)] else [])
  }

  lemma {:induction false} SendsMembers(cs: seq<Sock>, audience: set<Sock>, m: WsMessage, f: Frame)
    ensures f in Sends(cs, audience, m) <==> f.sock in cs && f.sock in audience && f.msg == m
  {
    if cs != [] {
      SendsMembers(cs[..|cs| - 1], audience, m, f);
      assert cs == cs[..|cs| - 1] + [cs[|cs| - 1]];
    }
  }

  /** The OPEN clients whose subscription set holds `patientId`. */
  function VitalsAudience(open: set<Sock>, subs: map<Sock, set<JsValue>>, patientId: JsValue): (r: set<Sock>)
    ensures r <= open
  {
    set s | s in open && s in subs && patientId in subs[s]
  }

  /** The frames of all pushed alerts, alert by alert. */
  function AlertSends(cs: seq<Sock>, audience: set<Sock>, alerts: seq<AlertRecord>, now: int): seq<Frame>
  {
    if alerts == [] then []
    else
      var n := |alerts| - 1;
      AlertSends(cs, audience, alerts[..n], now) + Sends(cs, audience, AlertPush(alerts[n], now))
  }

  /** Pushing one more alert appends its frames. */
  lemma AlertSendsStep(cs: seq<Sock>, audience: set<Sock>, alerts: seq<AlertRecord>, k: nat, now: int)
    requires k < |alerts|
    ensures AlertSends(cs, audience, alerts[..k + 1], now)
            == AlertSends(cs, audience, alerts[..k], now) + Sends(cs, audience, AlertPush(alerts[k], now))
  {
    var prefix := alerts[..k + 1];
    assert prefix[..k] == alerts[..k] && prefix[k] == alerts[k];
  }

  /** The alerts created strictly after the last check, in query order. */
  function NewAlerts(alerts: seq<AlertRecord>, lastCheck: int): (r: seq<AlertRecord>)
    ensures |r| <= |alerts|
  {
    if alerts == [] then []
    else if alerts[0].createdAt > lastCheck then [alerts[0]] + NewAlerts(alerts[1..], lastCheck)
    else NewAlerts(alerts[1..], lastCheck)
  }

  lemma {:induction false} NewAlertsMembers(alerts: seq<AlertRecord>, lastCheck: int, a: AlertRecord)
    ensures a in NewAlerts(alerts, lastCheck) <==> a in alerts && a.createdAt > lastCheck
  {
    if alerts != [] {
      NewAlertsMembers(alerts[1..], lastCheck, a);
      assert a in alerts <==> a == alerts[0] || a in alerts[1..];
    }
  }

  /** A socket receives a polled alert iff it is OPEN, and the alert was
      created after the watermark; subscriptions play no part. */
  lemma {:induction false} AlertPushReach(cs: seq<Sock>, open: set<Sock>, alerts: seq<AlertRecord>,
                                          lastCheck: int, now: int, f: Frame)
    ensures f in AlertSends(cs, open, NewAlerts(alerts, lastCheck), now) <==>
              f.sock in cs && f.sock in open && f.msg.AlertPush? && f.msg.alertSentAt == now
              && f.msg.alert in alerts && f.msg.alert.createdAt > lastCheck
  {
    AlertSendsMembers(cs, open, NewAlerts(alerts, lastCheck), now, f);
    if f.msg.AlertPush? {
      NewAlertsMembers(alerts, lastCheck, f.msg.alert);
    }
  }

  lemma {:induction false} AlertSendsMembers(cs: seq<Sock>, audience: set<Sock>, alerts: seq<AlertRecord>, now: int, f: Frame)
    ensures f in AlertSends(cs, audience, alerts, now) <==>
              f.sock in cs && f.sock in audience && f.msg.AlertPush? && f.msg.alert in alerts && f.msg.alertSentAt == now
  {
    if alerts != [] {
      var n := |alerts| - 1;
      AlertSendsMembers(cs, audience, alerts[..n], now, f);
      SendsMembers(cs, audience, AlertPush(alerts[n], now), f);
      assert alerts == alerts[..n] + [alerts[n]];
    }
  }

  class WsServer {
    /** `wss !== null`. */
    var serverUp: bool
    /** `wss.clients`, in the order the library visits them. */
    var clients: seq<Sock>
    /** Sockets whose `readyState` is OPEN. */
    var open: set<Sock>
    /** `ws.subscribedPatients`, for the sockets that have one. */
    var subscriptions: map<Sock, set<JsValue>>
    var connectedClients: map<string, Sock>
    var outbox: seq<Frame>
    var lastAlertCheck: int
    /** `pollingInterval !== null`. */
    var pollingHandle: bool
    /** Intervals scheduled and not cleared; a second start loses the first handle. */
    var liveTimers: nat

    /** Subscription sets only ever hold truthy patient ids, a held timer
        handle is a live timer, and without a server there are no clients. */
    predicate Valid()
      reads this
    {
      && (pollingHandle ==> liveTimers >= 1)
      && (!serverUp ==> clients == [])
      && forall s :: s in subscriptions ==> forall v :: v in subscriptions[s] ==> Truthy(v)
    }

    /** Every field but the outbox, to say in one line that a send changes nothing else. */
    function Rest(): (bool, seq<Sock>, set<Sock>, map<Sock, set<JsValue>>, map<string, Sock>, int, bool, nat)
      reads this
    {
      (serverUp, clients, open, subscriptions, connectedClients, lastAlertCheck, pollingHandle, liveTimers)
    }

    /** Module load: no server, an empty map, `lastAlertCheck = new Date()`. */
    constructor (loadTime: int)
      ensures Valid()
      ensures !serverUp && clients == [] && open == {} && subscriptions == map[]
      ensures connectedClients == map[] && outbox == []
      ensures lastAlertCheck == loadTime && !pollingHandle && liveTimers == 0
    {
      serverUp := false;
      clients := [];
      open := {};
      subscriptions := map[];
      connectedClients := map[];
      outbox := [];
      lastAlertCheck := loadTime;
      pollingHandle := false;
      liveTimers := 0;
    }

    /** `startAlertPolling`. */
    method StartAlertPolling()
      requires Valid()
      modifies this
      ensures Valid()
      ensures pollingHandle && liveTimers == old(liveTimers) + 1
      ensures serverUp == old(serverUp) && clients == old(clients) && open == old(open)
      ensures subscriptions == old(subscriptions) && connectedClients == old(connectedClients)
      ensures outbox == old(outbox) && lastAlertCheck == old(lastAlertCheck)
    {
      pollingHandle := true;
      liveTimers := liveTimers + 1;
    }

    /** `stopAlertPolling`: clears the held interval, if any. */
    method StopAlertPolling()
      requires Valid()
      modifies this
      ensures Valid()
      ensures !pollingHandle
      ensures liveTimers == if old(pollingHandle) then old(liveTimers) - 1 else old(liveTimers)
      ensures serverUp == old(serverUp) && clients == old(clients) && open == old(open)
      ensures subscriptions == old(subscriptions) && connectedClients == old(connectedClients)
      ensures outbox == old(outbox) && lastAlertCheck == old(lastAlertCheck)
    {
      if pollingHandle {
        liveTimers := liveTimers - 1;
        pollingHandle := false;
      }
    }

    /** `initializeWebSocketServer`: a new server with no clients, and polling started. */
    method Initialize()
      requires Valid()
      modifies this
      ensures Valid()
      ensures serverUp && clients == [] && pollingHandle && liveTimers == old(liveTimers) + 1
      ensures open == old(open) && subscriptions == old(subscriptions)
      ensures connectedClients == old(connectedClients)
      ensures outbox == old(outbox) && lastAlertCheck == old(lastAlertCheck)
    {
      serverUp := true;
      clients := [];
      StartAlertPolling();
    }

    /** The `connection` handler: stores the socket under its id (replacing
        any socket stored under the same id) and sends the welcome. */
    method OnConnection(ws: Sock, url: string, nowMs: nat) returns (clientId: string)
      requires Valid()
      requires serverUp && ws !in clients && ws !in open
      modifies this
      ensures Valid()
      ensures clientId == ClientIdFor(url, nowMs)
      ensures clients == old(clients) + [ws] && open == old(open) + {ws}
      ensures connectedClients == old(connectedClients)[clientId := ws]
      ensures subscriptions == old(subscriptions) - {ws}
      ensures outbox == old(outbox) + [Frame(ws, Welcome(clientId))]
      ensures serverUp == old(serverUp) && lastAlertCheck == old(lastAlertCheck)
      ensures pollingHandle == old(pollingHandle) && liveTimers == old(liveTimers)
    {
      clientId := ClientIdFor(url, nowMs);
      clients := clients + [ws];
      open := open + {ws};
      subscriptions := subscriptions - {ws};
      connectedClients := connectedClients[clientId := ws];
      outbox := outbox + [Frame(ws, Welcome(clientId))];
    }

    /** The `message` handler: a message whose `type` cannot be read gets
        "Invalid message format"; anything else goes to `handleClientMessage`. */
    method OnMessage(ws: Sock, data: Incoming)
      requires Valid()
      modifies this
      ensures Valid()
      ensures !data.JsonValue? ==>
                subscriptions == old(subscriptions) && outbox == old(outbox) + [Frame(ws, ErrorReply(InvalidFormat))]
      ensures data.JsonValue? ==> Handled(old(subscriptions), old(outbox), ws, data.msgType, data.patientId)
      ensures serverUp == old(serverUp) && clients == old(clients) && open == old(open)
      ensures connectedClients == old(connectedClients) && lastAlertCheck == old(lastAlertCheck)
      ensures pollingHandle == old(pollingHandle) && liveTimers == old(liveTimers)
    {
      if !data.JsonValue? {
        outbox := outbox + [Frame(ws, ErrorReply(InvalidFormat))];
        return;
      }
      HandleClientMessage(ws, data.msgType, data.patientId);
    }

    /** What `handleClientMessage` leaves behind, from the subscriptions and
        outbox it started with. */
    ghost predicate Handled(subs0: map<Sock, set<JsValue>>, outbox0: seq<Frame>, ws: Sock, msgType: JsValue, patientId: JsValue)
      reads this
    {
      if msgType == JStr("subscribe") then
        if Truthy(patientId) then
          && subscriptions == subs0[ws := (if ws in subs0 then subs0[ws] else {}) + {patientId}]
          && outbox == outbox0 + [Frame(ws, Subscribed(patientId))]
        else subscriptions == subs0 && outbox == outbox0
      else if msgType == JStr("unsubscribe") then
        if Truthy(patientId) && ws in subs0 then
          && subscriptions == subs0[ws := subs0[ws] - {patientId}]
          && outbox == outbox0 + [Frame(ws, Unsubscribed(patientId))]
        else subscriptions == subs0 && outbox == outbox0
      else if msgType == JStr("ping") then
        subscriptions == subs0 && outbox == outbox0 + [Frame(ws, Pong)]
      else
        subscriptions == subs0 && outbox == outbox0 + [Frame(ws, ErrorReply(UnknownType))]
    }

    /** `handleClientMessage`: subscribe, unsubscribe, ping, or an error reply. */
    method HandleClientMessage(ws: Sock, msgType: JsValue, patientId: JsValue)
      requires Valid()
      modifies this
      ensures Valid()
      ensures Handled(old(subscriptions), old(outbox), ws, msgType, patientId)
      ensures serverUp == old(serverUp) && clients == old(clients) && open == old(open)
      ensures connectedClients == old(connectedClients) && lastAlertCheck == old(lastAlertCheck)
      ensures pollingHandle == old(pollingHandle) && liveTimers == old(liveTimers)
    {
      if msgType == JStr("subscribe") {
        if Truthy(patientId) {
          var set0 := if ws in subscriptions then subscriptions[ws] else {};
          subscriptions := subscriptions[ws := set0 + {patientId}];
          outbox := outbox + [Frame(ws, Subscribed(patientId))];
        }
      } else if msgType == JStr("unsubscribe") {
        if Truthy(patientId) && ws in subscriptions {
          subscriptions := subscriptions[ws := subscriptions[ws] - {patientId}];
          outbox := outbox + [Frame(ws, Unsubscribed(patientId))];
        }
      } else if msgType == JStr("ping") {
        outbox := outbox + [Frame(ws, Pong)];
      } else {
        outbox := outbox + [Frame(ws, ErrorReply(UnknownType))];
      }
    }

    /** The `close` handler: the id's entry goes, whichever socket it now
        names; the library drops the socket from the server. */
    method OnClose(clientId: string, ws: Sock)
      requires Valid()
      modifies this
      ensures Valid()
      ensures connectedClients == old(connectedClients) - {clientId}
      ensures clients == Without(old(clients), ws) && open == old(open) - {ws}
      ensures serverUp == old(serverUp) && subscriptions == old(subscriptions)
      ensures outbox == old(outbox) && lastAlertCheck == old(lastAlertCheck)
      ensures pollingHandle == old(pollingHandle) && liveTimers == old(liveTimers)
    {
      connectedClients := connectedClients - {clientId};
      clients := Without(clients, ws);
      open := open - {ws};
    }

    /** The `error` handler: only the map entry goes. */
    method OnError(clientId: string)
      requires Valid()
      modifies this
      ensures Valid()
      ensures connectedClients == old(connectedClients) - {clientId}
      ensures serverUp == old(serverUp) && clients == old(clients) && open == old(open)
      ensures subscriptions == old(subscriptions)
      ensures outbox == old(outbox) && lastAlertCheck == old(lastAlertCheck)
      ensures pollingHandle == old(pollingHandle) && liveTimers == old(liveTimers)
    {
      connectedClients := connectedClients - {clientId};
    }

    /** `broadcastVitalsUpdate`: nothing without a server; otherwise one
        frame to each OPEN client subscribed to the reading's patient. */
    method BroadcastVitalsUpdate(vitals: VitalsRecord, now: int)
      requires Valid()
      modifies this
      ensures Valid()
      ensures !old(serverUp) ==> outbox == old(outbox)
      ensures old(serverUp) ==>
                outbox == old(outbox) + Sends(clients, VitalsAudience(open, subscriptions, vitals.patientId),
                                              VitalsUpdate(vitals, now))
      ensures serverUp == old(serverUp) && clients == old(clients) && open == old(open)
      ensures subscriptions == old(subscriptions) && connectedClients == old(connectedClients)
      ensures lastAlertCheck == old(lastAlertCheck)
      ensures pollingHandle == old(pollingHandle) && liveTimers == old(liveTimers)
    {
      if !serverUp {
        return;
      }
      SendAll(VitalsAudience(open, subscriptions, vitals.patientId), VitalsUpdate(vitals, now));
    }

    /** `broadcastAlert`: nothing without a server; otherwise one frame to
        every OPEN client. */
    method BroadcastAlert(alert: AlertRecord, now: int)
      requires Valid()
      modifies this
      ensures Valid()
      ensures !old(serverUp) ==> outbox == old(outbox)
      ensures old(serverUp) ==> outbox == old(outbox) + Sends(clients, open, AlertPush(alert, now))
      ensures serverUp == old(serverUp) && clients == old(clients) && open == old(open)
      ensures subscriptions == old(subscriptions) && connectedClients == old(connectedClients)
      ensures lastAlertCheck == old(lastAlertCheck)
      ensures pollingHandle == old(pollingHandle) && liveTimers == old(liveTimers)
    {
      if !serverUp {
        return;
      }
      SendAll(open, AlertPush(alert, now));
    }

    /** The `wss.clients.forEach` loop shared by both broadcasts. */
    method SendAll(audience: set<Sock>, m: WsMessage)
      requires Valid()
      modifies this
      ensures Valid()
      ensures outbox == old(outbox) + Sends(clients, audience, m)
      ensures serverUp == old(serverUp) && clients == old(clients) && open == old(open)
      ensures subscriptions == old(subscriptions) && connectedClients == old(connectedClients)
      ensures lastAlertCheck == old(lastAlertCheck)
      ensures pollingHandle == old(pollingHandle) && liveTimers == old(liveTimers)
    {
      var i := 0;
      while i < |clients|
        invariant 0 <= i <= |clients|
        invariant outbox == old(outbox) + Sends(clients[..i], audience, m)
        invariant serverUp == old(serverUp) && clients == old(clients) && open == old(open)
        invariant subscriptions == old(subscriptions) && connectedClients == old(connectedClients)
        invariant lastAlertCheck == old(lastAlertCheck)
        invariant pollingHandle == old(pollingHandle) && liveTimers == old(liveTimers)
      {
        var c := clients[i];
        assert clients[..i + 1][..i] == clients[..i];
        if c in audience {
          outbox := outbox + [Frame(c, m)];
        }
        i := i + 1;
      }
      assert clients[..|clients|] == clients;
    }

    /** One tick of the alert-polling interval. A failed query is swallowed;
        otherwise each alert created after `lastAlertCheck` is pushed, and
        the watermark moves to now only if there was at least one. */
    method PollAlertsTick(result: Option<seq<AlertRecord>>, now: int)
      requires Valid()
      modifies this
      ensures Valid()
      ensures result.None? ==> outbox == old(outbox) && lastAlertCheck == old(lastAlertCheck)
      ensures result.Some? ==>
                var newOnes := NewAlerts(result.value, old(lastAlertCheck));
                && outbox == old(outbox) + (if serverUp then AlertSends(clients, open, newOnes, now) else [])
                && lastAlertCheck == if newOnes == [] then old(lastAlertCheck) else now
      ensures serverUp == old(serverUp) && clients == old(clients) && open == old(open)
      ensures subscriptions == old(subscriptions) && connectedClients == old(connectedClients)
      ensures pollingHandle == old(pollingHandle) && liveTimers == old(liveTimers)
    {
      if result.None? {
        return;
      }
      var newAlerts := NewAlerts(result.value, lastAlertCheck);
      PushAlerts(newAlerts, now);
      if |newAlerts| > 0 {
        lastAlertCheck := now;
      }
    }

    /** The `for (const alert of newAlerts)` loop of one tick: `broadcastAlert` per alert. */
    method PushAlerts(alerts: seq<AlertRecord>, now: int)
      requires Valid()
      modifies this
      ensures Valid()
      ensures outbox == old(outbox) + (if serverUp then AlertSends(clients, open, alerts, now) else [])
      ensures Rest() == old(Rest())
    {
      ghost var rest0, out0 := Rest(), outbox;
      var k := 0;
      while k < |alerts|
        invariant 0 <= k <= |alerts|
        invariant Valid() && Rest() == rest0
        invariant serverUp ==> outbox == out0 + AlertSends(clients, open, alerts[..k], now)
        invariant !serverUp ==> outbox == out0
      {
        AlertSendsStep(clients, open, alerts, k, now);
        BroadcastAlert(alerts[k], now);
        k := k + 1;
      }
      assert alerts[..|alerts|] == alerts;
    }

    /** `closeWebSocketServer`: polling stopped, every client closed, no
        server, an empty map. */
    method Close()
      requires Valid()
      modifies this
      ensures Valid()
      ensures !serverUp && clients == [] && connectedClients == map[] && !pollingHandle
      ensures old(serverUp) ==> open == old(open) - set c | c in old(clients)
      ensures !old(serverUp) ==> open == old(open)
      ensures liveTimers == if old(pollingHandle) then old(liveTimers) - 1 else old(liveTimers)
      ensures subscriptions == old(subscriptions) && outbox == old(outbox)
      ensures lastAlertCheck == old(lastAlertCheck)
    {
      StopAlertPolling();
      if serverUp {
        open := open - set c | c in clients;
        clients := [];
        serverUp := false;
      }
      connectedClients := map[];
    }
  }

  /** The client list without `ws`. */
  function Without(cs: seq<Sock>, ws: Sock): (r: seq<Sock>)
    ensures forall c :: c in r <==> c in cs && c != ws
  {
    if cs == [] then []
    else if cs[0] == ws then Without(cs[1..], ws)
    else [cs[0]] + Without(cs[1..], ws)
  }

  /** Vitals for a falsy patient id reach nobody, since no subscription
      set holds a falsy id; and a vitals push reaches a subset of the
      sockets an alert push reaches. */
  lemma VitalsAudienceFacts(open: set<Sock>, subs: map<Sock, set<JsValue>>, patientId: JsValue)
    requires forall s :: s in subs ==> forall v :: v in subs[s] ==> Truthy(v)
    ensures !Truthy(patientId) ==> VitalsAudience(open, subs, patientId) == {}
    ensures VitalsAudience(open, subs, patientId) <= open
  {
  }

  /** A socket receives a vitals push iff it is a client, OPEN, and
      subscribed to that reading's patient. */
  lemma VitalsReach(cs: seq<Sock>, open: set<Sock>, subs: map<Sock, set<JsValue>>,
                    vitals: VitalsRecord, now: int, ws: Sock)
    ensures Frame(ws, VitalsUpdate(vitals, now)) in Sends(cs, VitalsAudience(open, subs, vitals.patientId), VitalsUpdate(vitals, now))
            <==> ws in cs && ws in open && ws in subs && vitals.patientId in subs[ws]
  {
    SendsMembers(cs, VitalsAudience(open, subs, vitals.patientId), VitalsUpdate(vitals, now), Frame(ws, VitalsUpdate(vitals, now)));
  }

  /** Splitting at the first separator. */
  lemma {:induction false} SplitFirst(p: string, q: string, sep: char)
    requires sep !in p
    ensures Split(p + [sep] + q, sep) == [p] + Split(q, sep)
    decreases |p|
  {
    if p == [] {
      assert ([] + [sep] + q)[1..] == q;
    } else {
      assert (p + [sep] + q)[1..] == p[1..] + [sep] + q;
      SplitFirst(p[1..], q, sep);
      assert [p[0]] + p[1..] == p;
    }
  }

  /** A string without the separator is one piece. */
  lemma {:induction false} SplitNone(s: string, sep: char)
    requires sep !in s
    ensures Split(s, sep) == [s]
    decreases |s|
  {
    if s != [] {
      SplitNone(s[1..], sep);
      assert [s[0]] + s[1..] == s;
    }
  }

  /** A URL `path?key=value` with a non-empty value is stored under that
      value; a URL with no query, or with an empty value, falls back to the
      generated id. */
  lemma ClientIdFromUrl(path: string, key: string, value: string, nowMs: nat)
    requires '?' !in path && '?' !in key && '?' !in value && '=' !in key && '=' !in value
    ensures value != "" ==> ClientIdFor(path + "?" + key + "=" + value, nowMs) == value
    ensures value == "" ==> ClientIdFor(path + "?" + key + "=" + value, nowMs) == "client_" + Decimal(nowMs)
    ensures ClientIdFor(path, nowMs) == "client_" + Decimal(nowMs)
  {
    var query := key + "=" + value;
    assert '?' !in query;
    SplitFirst(path, query, '?');
    assert path + "?" + key + "=" + value == path + ['?'] + query;
    SplitNone(query, '?');
    SplitFirst(key, value, '=');
    SplitNone(value, '=');
    SplitNone(path, '?');
  }
}
