/** parentBus: the parent page's message hub for game iframes. Children
    register, send heartbeats and unload; the first registered child leads,
    and only the leader's crash:* messages are relayed to the others. A
    periodic sweep drops children whose heartbeat is stale. Windows are
    identified by numbers; `postMessage` appends to an outbox; the clock,
    the stored session and the iframe lookup are parameters. */
module ParentBus {
  import opened Wrappers
  import opened Js

  /** A registered child: its window (absent when the event had no
      source), the origin to post to, and its last heartbeat. */
  datatype Client = Client(win: Option<int>, origin: string, lastBeat: int)

  /** The messages the parent posts. */
  datatype ParentMsg =
    | Registered(peers: seq<string>, leaderId: Option<string>)
    | LeaderChanged(leaderId: Option<string>)
    | Relayed(msg: JsValue)
    | AuthSet(token: Option<string>, userId: Option<string>)

  /** One `win.postMessage(msg, targetOrigin)`. */
  datatype Post = Post(win: int, msg: ParentMsg, targetOrigin: string)

  /** A `message` event: its data, its source window and its origin. */
  datatype MessageEvent = MessageEvent(data: JsValue, source: Option<int>, origin: string)

  /** What `onMessage` does with an event. */
  datatype Action =
    | Register(id: string)
    | Heartbeat(id: string)
    | Unload(id: string)
    | AuthRequest
    | Crash(fromId: string)
    | Ignore

  const DefaultHeartbeatInterval := 5000
  const DefaultHeartbeatTimeout := 15000

  predicate NoDup(ids: seq<string>) {
    forall i, j :: 0 <= i < j < |ids| ==> ids[i] != ids[j]
  }

  function HeadOf(ids: seq<string>): Option<string> {
    if ids == [] then None else Some(ids[0])
  }

  /** `ids.filter((k) => k !== x)` */
  function Without(ids: seq<string>, x: string): (r: seq<string>)
    ensures forall k :: k in r <==> k in ids && k != x
    ensures NoDup(ids) ==> NoDup(r)
    ensures x !in ids ==> r == ids
  {
    if ids == [] then []
    else
      var rest := Without(ids[1..], x);
      if ids[0] == x then rest
      else
        assert forall k :: k in [ids[0]] + rest ==> k in ids;
        assert NoDup(ids) ==> ids[0] !in ids[1..] && NoDup(ids[1..]);
        [ids[0]] + rest
  }

  lemma {:induction false} WithoutConcat(a: seq<string>, b: seq<string>, x: string)
    ensures Without(a + b, x) == Without(a, x) + Without(b, x)
    decreases |a|
  {
    if a == [] {
      assert a + b == b;
    } else {
      assert (a + b)[1..] == a[1..] + b;
      WithoutConcat(a[1..], b, x);
    }
  }

  lemma DropFromMiddle(kept: seq<string>, id: string, rest: seq<string>)
    requires id !in kept && id !in rest
    ensures Without(kept + [id] + rest, id) == kept + rest
  {
    WithoutConcat(kept + [id], rest, id);
    WithoutConcat(kept, [id], id);
    assert Without([id], id) == [] by {
      assert [id][1..] == [];
    }
    assert Without(kept + [id], id) == kept;
  }

  lemma WithoutKeepsHead(s: seq<string>, x: string)
    requires s != [] && s[0] != x
    ensures HeadOf(Without(s, x)) == HeadOf(s)
  {
  }

  lemma NoDupSplit(s: seq<string>, i: int)
    requires NoDup(s) && 0 <= i < |s|
    ensures s[i] !in s[..i] && s[i] !in s[i + 1..]
  {
  }

  /** A heartbeat older than the timeout. */
  predicate Stale(c: Client, now: int, timeout: int) {
    now - c.lastBeat > timeout
  }

  /** The ids, in order, whose client is not stale. */
  function KeepFresh(ids: seq<string>, clients: map<string, Client>, now: int, timeout: int): (r: seq<string>)
    requires forall k :: k in ids ==> k in clients
    ensures forall k :: k in r <==> k in ids && !Stale(clients[k], now, timeout)
    ensures NoDup(ids) ==> NoDup(r)
    decreases |ids|
  {
    if ids == [] then []
    else
      var front := KeepFresh(ids[..|ids| - 1], clients, now, timeout);
      var last := ids[|ids| - 1];
      assert forall k :: k in ids[..|ids| - 1] ==> k in ids;
      assert forall k :: k in ids ==> k in ids[..|ids| - 1] || k == last;
      if Stale(clients[last], now, timeout) then front
      else
        assert NoDup(ids) ==> last !in ids[..|ids| - 1];
        front + [last]
  }

  /** The sweep's order after keeping the i-th id. */
  lemma FreshStep(s: seq<string>, i: int, clients: map<string, Client>, now: int, timeout: int)
    requires 0 <= i < |s| && forall k :: k in s ==> k in clients
    requires !Stale(clients[s[i]], now, timeout)
    ensures KeepFresh(s[..i], clients, now, timeout) + s[i..] == KeepFresh(s[..i + 1], clients, now, timeout) + s[i + 1..]
  {
    assert s[..i + 1][..i] == s[..i];
    assert s[i..] == [s[i]] + s[i + 1..];
  }

  /** The sweep's order after removing the stale i-th id. */
  lemma StaleStep(s: seq<string>, i: int, clients: map<string, Client>, now: int, timeout: int)
    requires 0 <= i < |s| && NoDup(s) && forall k :: k in s ==> k in clients
    requires Stale(clients[s[i]], now, timeout)
    ensures Without(KeepFresh(s[..i], clients, now, timeout) + s[i..], s[i])
      == KeepFresh(s[..i + 1], clients, now, timeout) + s[i + 1..]
  {
    var kept := KeepFresh(s[..i], clients, now, timeout);
    assert s[..i + 1][..i] == s[..i];
    assert KeepFresh(s[..i + 1], clients, now, timeout) == kept;
    NoDupSplit(s, i);
    assert s[i..] == [s[i]] + s[i + 1..];
    assert kept + s[i..] == kept + [s[i]] + s[i + 1..];
    DropFromMiddle(kept, s[i], s[i + 1..]);
  }

  /** One post of `msg` to each of the clients `ids` that has a window,
      skipping the one named `skip`, in order. */
  function PostsTo(ids: seq<string>, clients: map<string, Client>, skip: Option<string>, msg: ParentMsg): seq<Post>
    requires forall k :: k in ids ==> k in clients
    decreases |ids|
  {
    if ids == [] then []
    else
      var last := ids[|ids| - 1];
      var c := clients[last];
      PostsTo(ids[..|ids| - 1], clients, skip, msg)
      + (if Some(last) == skip || c.win.None? then [] else [Post(c.win.value, msg, c.origin)])
  }

  /** `ev.origin && ev.origin !== "null" ? ev.origin : derived`, then `|| "*"`. */
  function ReplyOrigin(origin: string, derived: string): string {
    var target := if origin != "" && origin != "null" then origin else derived;
    if target == "" then "*" else target
  }

  /** The branch of `onMessage` an event takes. */
  function Classify(data: JsValue): Action {
    if !data.JObject? || !Get(data, "type").JStr? then Ignore
    else
      var t := Get(data, "type").s;
      var id := Get(Get(data, "payload"), "id");
      if t == "child:register" && Truthy(id) then Register(ToString(id))
      else if t == "child:heartbeat" && Truthy(id) then Heartbeat(ToString(id))
      else if t == "child:unload" && Truthy(id) then Unload(ToString(id))
      else if t == "auth:request" then AuthRequest
      else if StartsWith(t, "crash:") then Crash(ToString(Coalesce(Get(Get(data, "meta"), "from"), JStr(""))))
      else Ignore
  }

  // ---------------------------------------------------------------------
  // Properties of the helpers
  // ---------------------------------------------------------------------

  /** A relay reaches every client with a window except the sender, and
      nothing else. */
  lemma {:induction false} PostsToReach(ids: seq<string>, clients: map<string, Client>, skip: Option<string>, msg: ParentMsg)
    requires forall k :: k in ids ==> k in clients
    ensures forall k :: k in ids && Some(k) != skip && clients[k].win.Some? ==>
      Post(clients[k].win.value, msg, clients[k].origin) in PostsTo(ids, clients, skip, msg)
    ensures forall p :: p in PostsTo(ids, clients, skip, msg) ==>
      exists k :: k in ids && Some(k) != skip && clients[k].win == Some(p.win) && p == Post(p.win, msg, clients[k].origin)
    decreases |ids|
  {
    if ids != [] {
      var front := ids[..|ids| - 1];
      assert forall k :: k in front ==> k in ids;
      assert forall k :: k in ids ==> k in front || k == ids[|ids| - 1];
      PostsToReach(front, clients, skip, msg);
    }
  }

  /** A crash:* message names its sender in meta.from; without it the
      sender is the empty id. */
  lemma CrashSender(t: string, from: string)
    requires StartsWith(t, "crash:")
    ensures Classify(JObject(map["type" := JStr(t), "meta" := JObject(map["from" := JStr(from)])])) == Crash(from)
    ensures Classify(JObject(map["type" := JStr(t)])) == Crash("")
  {
    var m := JObject(map["type" := JStr(t), "meta" := JObject(map["from" := JStr(from)])]);
    assert Get(m, "type") == JStr(t);
    assert Get(Get(m, "payload"), "id") == JUndefined;
    assert t[1] == 'r' by {
      assert t[..6] == "crash:";
    }
    var n := JObject(map["type" := JStr(t)]);
    assert Get(n, "type") == JStr(t);
    assert Get(Get(n, "meta"), "from") == JUndefined;
  }

  /** The reply goes to the event's origin when it is a real one, else to
      the iframe's origin, else to any. */
  lemma ReplyOrigins(origin: string, derived: string)
    ensures origin != "" && origin != "null" ==> ReplyOrigin(origin, derived) == origin
    ensures ReplyOrigin("null", derived) == ReplyOrigin("", derived)
    ensures ReplyOrigin("", "") == "*"
  {
  }

  /** `order` lists the clients once each; there is a leader exactly
      when there are clients, and it is one of them. */
  ghost predicate Consistent(order: seq<string>, clients: map<string, Client>, leaderId: Option<string>) {
    && (forall k :: k in order <==> k in clients)
    && NoDup(order)
    && (leaderId.None? <==> order == [])
    && (leaderId.Some? ==> leaderId.value in clients)
  }

  /** Registering a client keeps the bookkeeping consistent: a new id is
      appended to the order, and it leads when nobody (or the empty id)
      did. */
  lemma RegistrationConsistent(order: seq<string>, clients: map<string, Client>, leaderId: Option<string>,
                               id: string, c: Client)
    requires Consistent(order, clients, leaderId)
    ensures Consistent(if id in clients then order else order + [id], clients[id := c],
                       if leaderId.None? || leaderId.value == "" then Some(id) else leaderId)
  {
    if id !in clients {
      var o := order + [id];
      assert forall k :: k in o <==> k in order || k == id;
      forall i, j | 0 <= i < j < |o|
        ensures o[i] != o[j]
      {
        if j == |order| {
          assert o[i] in order;
        }
      }
    }
  }

  /** Dropping a client keeps the bookkeeping consistent when its
      leadership passes to the first remaining client. */
  lemma RemovalConsistent(order: seq<string>, clients: map<string, Client>, leaderId: Option<string>, id: string)
    requires Consistent(order, clients, leaderId)
    ensures var rest := Without(order, id);
      Consistent(rest, clients - {id}, if leaderId == Some(id) then HeadOf(rest) else leaderId)
  {
    var rest := Without(order, id);
    if leaderId.Some? && leaderId != Some(id) {
      assert leaderId.value in rest;
    }
  }

  /** What a sweep that started from leader `leader0` and outbox
      `outbox0` has posted so far: nothing while that leader stays, and
      otherwise a LeaderChanged naming the current leader to every client
      with a window; it posts nothing else. */
  ghost predicate Announced(leader0: Option<string>, outbox0: seq<Post>,
                            clients: map<string, Client>, leaderId: Option<string>, outbox: seq<Post>) {
    && outbox0 <= outbox
    && (leader0.Some? && leader0.value in clients ==> outbox == outbox0)
    && (leader0.Some? && leader0.value !in clients ==>
          forall k :: k in clients && clients[k].win.Some? ==>
            Post(clients[k].win.value, LeaderChanged(leaderId), clients[k].origin) in outbox[|outbox0|..])
    && (forall p :: p in outbox[|outbox0|..] ==> p.msg.LeaderChanged?)
  }

  /** Removing a client during a sweep keeps `Announced`: a removed
      leader is announced to all the clients left. */
  lemma AnnouncedAfterRemoval(leader0: Option<string>, outbox0: seq<Post>,
                              clients: map<string, Client>, leaderId: Option<string>, outbox: seq<Post>,
                              id: string, order': seq<string>, leaderId': Option<string>, outbox': seq<Post>)
    requires Announced(leader0, outbox0, clients, leaderId, outbox)
    requires leader0.Some? && leader0.value in clients ==> leaderId == leader0
    requires forall k :: k in order' <==> k in clients - {id}
    requires leaderId == Some(id) ==> outbox' == outbox + PostsTo(order', clients - {id}, None, LeaderChanged(leaderId'))
    requires leaderId != Some(id) ==> outbox' == outbox && leaderId' == leaderId
    ensures Announced(leader0, outbox0, clients - {id}, leaderId', outbox')
  {
    var clients' := clients - {id};
    if leaderId == Some(id) {
      var posts := PostsTo(order', clients', None, LeaderChanged(leaderId'));
      PostsToReach(order', clients', None, LeaderChanged(leaderId'));
      assert outbox'[|outbox0|..] == outbox[|outbox0|..] + posts;
    }
  }

  /** After a sweep, the clients left are exactly the fresh ones. */
  lemma SweptKeys(order0: seq<string>, clients0: map<string, Client>, order: seq<string>, clients: map<string, Client>,
                  leaderId: Option<string>, now: int, timeout: int)
    requires forall k :: k in order0 <==> k in clients0
    requires Consistent(order, clients, leaderId)
    requires order == KeepFresh(order0, clients0, now, timeout)
    ensures forall k :: k in clients <==> k in clients0 && !Stale(clients0[k], now, timeout)
  {
  }

  class Bus {
    var clients: map<string, Client>
    /** The keys of `clients` in insertion order. */
    var order: seq<string>
    var leaderId: Option<string>
    var inited: bool
    var heartbeatInterval: int
    var heartbeatTimeout: int
    var outbox: seq<Post>

    ghost predicate Valid()
      reads this
    {
      Consistent(order, clients, leaderId)
    }

    constructor()
      ensures Valid()
      ensures clients == map[] && order == [] && leaderId == None && !inited && outbox == []
      ensures heartbeatInterval == DefaultHeartbeatInterval && heartbeatTimeout == DefaultHeartbeatTimeout
    {
      clients := map[];
      order := [];
      leaderId := None;
      inited := false;
      heartbeatInterval := DefaultHeartbeatInterval;
      heartbeatTimeout := DefaultHeartbeatTimeout;
      outbox := [];
    }

    /** `initParentBus(options)`: only the first call sets the options. */
    method Init(interval: Option<int>, timeout: Option<int>)
      modifies this
      ensures old(inited) ==> unchanged(this)
      ensures !old(inited) ==>
        && inited
        && heartbeatInterval == interval.GetOr(old(heartbeatInterval))
        && heartbeatTimeout == timeout.GetOr(old(heartbeatTimeout))
        && clients == old(clients) && order == old(order) && leaderId == old(leaderId) && outbox == old(outbox)
    {
      if inited {
        return;
      }
      inited := true;
      heartbeatInterval := interval.GetOr(heartbeatInterval);
      heartbeatTimeout := timeout.GetOr(heartbeatTimeout);
    }

    /** `_registerChild(id, win, origin)`: store or replace the client,
        make it leader when there is none, and tell it its peers. */
    method RegisterChild(id: string, win: Option<int>, origin: string, now: int)
      requires Valid()
      modifies this
      ensures Valid()
      ensures clients == old(clients)[id := Client(win, origin, now)]
      ensures order == if id in old(clients) then old(order) else old(order) + [id]
      ensures leaderId == if old(leaderId).None? || old(leaderId).value == "" then Some(id) else old(leaderId)
      ensures outbox == old(outbox) + (if win.Some? then [Post(win.value, Registered(Without(order, id), leaderId), origin)] else [])
      ensures inited == old(inited) && heartbeatTimeout == old(heartbeatTimeout) && heartbeatInterval == old(heartbeatInterval)
    {
      RegistrationConsistent(order, clients, leaderId, id, Client(win, origin, now));
      if id !in clients {
        order := order + [id];
      }
      clients := clients[id := Client(win, origin, now)];
      if leaderId.None? || leaderId.value == "" {
        leaderId := Some(id);
      }
      if win.Some? {
        outbox := outbox + [Post(win.value, Registered(Without(order, id), leaderId), origin)];
      }
    }

    /** `_broadcast(fromId, msg)`: post to every client but the sender. */
    method Broadcast(fromId: string, msg: JsValue)
      requires Valid()
      modifies this
      ensures Valid()
      ensures outbox == old(outbox) + PostsTo(order, clients, Some(fromId), Relayed(msg))
      ensures clients == old(clients) && order == old(order) && leaderId == old(leaderId)
      ensures inited == old(inited) && heartbeatTimeout == old(heartbeatTimeout) && heartbeatInterval == old(heartbeatInterval)
    {
      var i := 0;
      while i < |order|
        invariant 0 <= i <= |order|
        invariant forall k :: k in order[..i] ==> k in clients
        invariant outbox == old(outbox) + PostsTo(order[..i], clients, Some(fromId), Relayed(msg))
        invariant clients == old(clients) && order == old(order) && leaderId == old(leaderId)
        invariant inited == old(inited) && heartbeatTimeout == old(heartbeatTimeout) && heartbeatInterval == old(heartbeatInterval)
      {
        var id := order[i];
        var c := clients[id];
        assert order[..i + 1][..i] == order[..i];
        if id != fromId && c.win.Some? {
          outbox := outbox + [Post(c.win.value, Relayed(msg), c.origin)];
        }
        i := i + 1;
      }
      assert order[..|order|] == order;
    }

    /** `_removeChild(id)`: drop the client; when it led, the first
        remaining client (or none) leads and every client is told. */
    method RemoveChild(id: string)
      requires Valid()
      modifies this
      ensures Valid()
      ensures clients == old(clients) - {id}
      ensures order == Without(old(order), id)
      ensures leaderId == if old(leaderId) == Some(id) then HeadOf(order) else old(leaderId)
      ensures outbox == old(outbox) + (if old(leaderId) == Some(id) then PostsTo(order, clients, None, LeaderChanged(leaderId)) else [])
      ensures inited == old(inited) && heartbeatTimeout == old(heartbeatTimeout) && heartbeatInterval == old(heartbeatInterval)
    {
      RemovalConsistent(order, clients, leaderId, id);
      clients := clients - {id};
      order := Without(order, id);
      if leaderId == Some(id) {
        leaderId := HeadOf(order);
        AnnounceLeader();
      }
    }

    /** Tell every client with a window who leads now. */
    method AnnounceLeader()
      requires Valid()
      modifies this`outbox
      ensures outbox == old(outbox) + PostsTo(order, clients, None, LeaderChanged(leaderId))
    {
      var i := 0;
      while i < |order|
        invariant 0 <= i <= |order|
        invariant forall k :: k in order[..i] ==> k in clients
        invariant outbox == old(outbox) + PostsTo(order[..i], clients, None, LeaderChanged(leaderId))
      {
        var c := clients[order[i]];
        assert order[..i + 1][..i] == order[..i];
        if c.win.Some? {
          outbox := outbox + [Post(c.win.value, LeaderChanged(leaderId), c.origin)];
        }
        i := i + 1;
      }
      assert order[..|order|] == order;
    }

    /** A heartbeat refreshes the lastBeat of a known child only. */
    method Beat(id: string, now: int)
      requires Valid()
      modifies this
      ensures Valid()
      ensures clients == if id in old(clients) then old(clients)[id := old(clients)[id].(lastBeat := now)] else old(clients)
      ensures order == old(order) && leaderId == old(leaderId) && outbox == old(outbox)
      ensures inited == old(inited) && heartbeatTimeout == old(heartbeatTimeout) && heartbeatInterval == old(heartbeatInterval)
    {
      if id in clients {
        clients := clients[id := clients[id].(lastBeat := now)];
      }
    }

    /** `onMessage(ev)`, with the clock, the iframe's origin as
        `deriveOriginForSource` finds it, and the stored session. */
    method OnMessage(ev: MessageEvent, now: int, derivedOrigin: string, token: Option<string>, userId: Option<string>)
      requires Valid()
      modifies this
      ensures Valid()
      ensures inited == old(inited) && heartbeatTimeout == old(heartbeatTimeout) && heartbeatInterval == old(heartbeatInterval)
      ensures Classify(ev.data).Ignore? ==> unchanged(this)
      ensures Classify(ev.data).Register? ==>
        var id := Classify(ev.data).id;
        && clients == old(clients)[id := Client(ev.source, ev.origin, now)]
        && order == (if id in old(clients) then old(order) else old(order) + [id])
        && leaderId == (if old(leaderId).None? || old(leaderId).value == "" then Some(id) else old(leaderId))
        && outbox == old(outbox) + (if ev.source.Some? then [Post(ev.source.value, Registered(Without(order, id), leaderId), ev.origin)] else [])
      ensures Classify(ev.data).Heartbeat? ==>
        var id := Classify(ev.data).id;
        && clients == (if id in old(clients) then old(clients)[id := old(clients)[id].(lastBeat := now)] else old(clients))
        && order == old(order) && leaderId == old(leaderId) && outbox == old(outbox)
      ensures Classify(ev.data).Unload? ==>
        var id := Classify(ev.data).id;
        && clients == old(clients) - {id}
        && order == Without(old(order), id)
        && leaderId == (if old(leaderId) == Some(id) then HeadOf(order) else old(leaderId))
        && outbox == old(outbox) + (if old(leaderId) == Some(id) then PostsTo(order, clients, None, LeaderChanged(leaderId)) else [])
      ensures Classify(ev.data).AuthRequest? ==>
        && clients == old(clients) && order == old(order) && leaderId == old(leaderId)
        && outbox == old(outbox) + (if ev.source.Some? then [Post(ev.source.value, AuthSet(token, userId), ReplyOrigin(ev.origin, derivedOrigin))] else [])
      ensures Classify(ev.data).Crash? ==>
        var fromId := Classify(ev.data).fromId;
        && clients == old(clients) && order == old(order) && leaderId == old(leaderId)
        && outbox == old(outbox) + (if old(leaderId) == Some(fromId) && fromId != "" then PostsTo(order, clients, Some(fromId), Relayed(ev.data)) else [])
    {
      var action := Classify(ev.data);
      match action
      case Ignore =>
      case Register(id) =>
        RegisterChild(id, ev.source, ev.origin, now);
      case Heartbeat(id) =>
        Beat(id, now);
      case Unload(id) =>
        RemoveChild(id);
      case AuthRequest =>
        if ev.source.Some? {
          outbox := outbox + [Post(ev.source.value, AuthSet(token, userId), ReplyOrigin(ev.origin, derivedOrigin))];
        }
      case Crash(fromId) =>
        if leaderId.None? || leaderId.value == "" || fromId != leaderId.value {
          return;
        }
        Broadcast(fromId, ev.data);
    }

    /** What the sweep keeps after looking at the first `i` ids of the
        `order0` it started from, with `clients0` and `leader0` the state
        at that start. */
    ghost predicate SweepInv(order0: seq<string>, clients0: map<string, Client>, leader0: Option<string>,
                             outbox0: seq<Post>, timeout0: int, i: int, now: int)
      reads this
    {
      && 0 <= i <= |order0|
      && NoDup(order0)
      && (forall k :: k in order0 ==> k in clients0)
      && Valid()
      && heartbeatTimeout == timeout0
      && order == KeepFresh(order0[..i], clients0, now, timeout0) + order0[i..]
      && (forall k :: k in clients ==> k in clients0 && clients[k] == clients0[k])
      && (leader0.Some? && leader0.value in clients ==> leaderId == leader0)
      && (leader0.None? || leader0.value !in clients ==> leaderId == HeadOf(order))
      && Announced(leader0, outbox0, clients, leaderId, outbox)
    }

    /** One step of the sweep: the i-th id of the snapshot is removed
        when its heartbeat is stale. */
    method SweepStep(ghost order0: seq<string>, ghost clients0: map<string, Client>, ghost leader0: Option<string>,
                     ghost outbox0: seq<Post>, ghost timeout0: int, id: string, i: int, now: int)
      requires SweepInv(order0, clients0, leader0, outbox0, timeout0, i, now)
      requires i < |order0| && id == order0[i]
      modifies this
      ensures SweepInv(order0, clients0, leader0, outbox0, timeout0, i + 1, now)
      ensures inited == old(inited) && heartbeatInterval == old(heartbeatInterval)
    {
      assert id in order0[i..];
      if Stale(clients[id], now, heartbeatTimeout) {
        ghost var before, leaderBefore, clientsBefore := order, leaderId, clients;
        StaleStep(order0, i, clients0, now, heartbeatTimeout);
        ghost var outboxBefore := outbox;
        RemoveChild(id);
        AnnouncedAfterRemoval(leader0, outbox0, clientsBefore, leaderBefore, outboxBefore, id, order, leaderId, outbox);
        if leaderBefore != Some(id) {
          if leader0.None? || leader0.value !in clientsBefore {
            assert leaderBefore == HeadOf(before);
            WithoutKeepsHead(before, id);
          }
        }
      } else {
        FreshStep(order0, i, clients0, now, heartbeatTimeout);
      }
    }

    /** The periodic sweep: every child whose last heartbeat is older than
        the timeout is removed, in insertion order. */
    method Sweep(now: int)
      requires Valid()
      modifies this
      ensures Valid()
      ensures order == KeepFresh(old(order), old(clients), now, heartbeatTimeout)
      ensures forall k :: k in clients <==> k in old(clients) && !Stale(old(clients)[k], now, heartbeatTimeout)
      ensures forall k :: k in clients ==> clients[k] == old(clients)[k]
      ensures old(leaderId).Some? && old(leaderId).value in clients ==> leaderId == old(leaderId)
      ensures old(leaderId).None? || old(leaderId).value !in clients ==> leaderId == HeadOf(order)
      ensures old(outbox) <= outbox
      ensures old(leaderId).Some? && old(leaderId).value in clients ==> outbox == old(outbox)
      ensures old(leaderId).Some? && old(leaderId).value !in clients ==>
        forall k :: k in clients && clients[k].win.Some? ==>
          Post(clients[k].win.value, LeaderChanged(leaderId), clients[k].origin) in outbox[|old(outbox)|..]
      ensures forall p :: p in outbox[|old(outbox)|..] ==> p.msg.LeaderChanged?
      ensures inited == old(inited) && heartbeatTimeout == old(heartbeatTimeout) && heartbeatInterval == old(heartbeatInterval)
    {
      var snapshot := order;
      ghost var clients0, leader0, outbox0, timeout0 := clients, leaderId, outbox, heartbeatTimeout;
      var i := 0;
      assert snapshot[..0] == [] && snapshot[0..] == snapshot;
      while i < |snapshot|
        invariant SweepInv(snapshot, clients0, leader0, outbox0, timeout0, i, now)
        invariant inited == old(inited) && heartbeatInterval == old(heartbeatInterval)
      {
        SweepStep(snapshot, clients0, leader0, outbox0, timeout0, snapshot[i], i, now);
        i := i + 1;
      }
      assert snapshot[..|snapshot|] == snapshot && snapshot[|snapshot|..] == [];
      SweptKeys(old(order), old(clients), order, clients, leaderId, now, heartbeatTimeout);
      assert old(outbox) == outbox0 && old(leaderId) == leader0;
      assert Announced(leader0, outbox0, clients, leaderId, outbox);
    }
  }
}
