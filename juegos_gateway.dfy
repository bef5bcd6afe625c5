/** JuegosGateway: the socket gateway. Each connected socket sits in the
    room of its user and may join game rooms; per-socket maps throttle
    events and count them in fixed windows. Token verification and the
    user repository are one parameter (uid resolution), and the clock is
    passed in as `now`. */
module Gateway {
  import opened Wrappers
  import opened Js

  /** A `number | string` round id. */
  datatype RoundRef = RoundText(s: string) | RoundNumber(n: Num)

  /** A rate-limit window: its start and the events counted in it. */
  datatype Slot = Slot(t: int, c: int)

  /** The events the gateway emits to one socket. */
  datatype Emit =
    | SysError(code: string, message: string)
    | Connected(userRoom: string)
    | Refreshed
    | Joined(room: string)

  /** The body of `room:join`; an absent gameCode is the empty text. */
  datatype JoinData = JoinData(gameCode: string, roundId: Option<RoundRef>)

  const NotProvisioned := "USUARIO_NO_PROVISIONADO"

  /** The defaults of `throttle` and `rateLimit`. */
  const ThrottleMs := 250
  const RateLimitCalls := 10
  const RateWindowMs := 5000

  // ---------------------------------------------------------------------
  // Rooms
  // ---------------------------------------------------------------------

  /** `user:${userId}` */
  function RoomForUser(userId: int): (r: string)
    ensures StartsWith(r, "user:")
  {
    assert ("user:" + IntToString(userId))[..5] == "user:";
    "user:" + IntToString(userId)
  }

  /** `${roundId}` of a number or a text. */
  function RoundLabel(r: RoundRef): string {
    match r
    case RoundText(s) => s
    case RoundNumber(n) => NumToString(n)
  }

  /** `game:${gameCode}:${roundId ?? 'current'}` */
  function RoomForGame(gameCode: string, roundId: Option<RoundRef>): (r: string)
    ensures StartsWith(r, "game:")
  {
    var round := if roundId.Some? then RoundLabel(roundId.value) else "current";
    assert ("game:" + gameCode + ":" + round)[..5] == "game:";
    "game:" + gameCode + ":" + round
  }

  /** A socket's user id as JavaScript tests it: present and not 0. */
  predicate HasUser(userId: Option<int>) {
    userId.Some? && userId.value != 0
  }

  // ---------------------------------------------------------------------
  // Throttle and rate limit
  // ---------------------------------------------------------------------

  /** `now - (last ?? 0) < ms`: the event came too soon. */
  predicate TooSoon(last: Option<int>, now: int, ms: int) {
    now - last.GetOr(0) < ms
  }

  /** The window of `rateLimit` after one call at `now`: a fresh window
      when there was none or the old one is more than `windowMs` old,
      with the call counted. */
  function RateSlot(prev: Option<Slot>, now: int, windowMs: int): (s: Slot)
    ensures prev.None? || now - prev.value.t > windowMs ==> s == Slot(now, 1)
    ensures prev.Some? && now - prev.value.t <= windowMs ==> s == prev.value.(c := prev.value.c + 1)
  {
    var slot := if prev.Some? then prev.value else Slot(now, 0);
    var slot := if now - slot.t > windowMs then Slot(now, 0) else slot;
    slot.(c := slot.c + 1)
  }

  /** The window after a run of calls at the times `ts`. */
  function RateRun(prev: Option<Slot>, ts: seq<int>, windowMs: int): Option<Slot>
    decreases |ts|
  {
    if ts == [] then prev
    else Some(RateSlot(RateRun(prev, ts[..|ts| - 1], windowMs), ts[|ts| - 1], windowMs))
  }

  /** Whether the last of the calls at `ts` is limited. */
  predicate LimitedAfter(prev: Option<Slot>, ts: seq<int>, limit: int, windowMs: int)
    requires ts != []
  {
    RateRun(prev, ts, windowMs).value.c > limit
  }

  /** `ReplaceFirst(s, pat, rep)`: `s.replace(pat, rep)` for a text pattern. */
  function ReplaceFirst(s: string, pat: string, rep: string): (r: string)
    requires pat != []
    decreases |s|
  {
    if StartsWith(s, pat) then rep + s[|pat|..]
    else if s == [] then []
    else [s[0]] + ReplaceFirst(s[1..], pat, rep)
  }

  /** The handshake token: `auth.token || authorization?.replace('Bearer ', '') || ''`. */
  function HandshakeToken(authToken: Option<string>, authorization: Option<string>): string {
    if authToken.Some? && authToken.value != "" then authToken.value
    else if authorization.Some? then ReplaceFirst(authorization.value, "Bearer ", "")
    else ""
  }

  /** The sys:error a failed connection reports. */
  function ConnectionError(e: Exception): Emit {
    if e == Thrown(NotProvisioned) then SysError("ERR_NO_USER", "Usuario no provisionado")
    else if e == Thrown("ERR_MISSING_TOKEN") then SysError("ERR_AUTH", "Token ausente")
    else SysError("ERR_AUTH", "Unauthorized")
  }

  // ---------------------------------------------------------------------
  // Properties
  // ---------------------------------------------------------------------

  /** User rooms and game rooms never collide, and distinct users have
      distinct rooms. */
  lemma RoomsDistinct(a: int, b: int, gameCode: string, roundId: Option<RoundRef>)
    ensures RoomForUser(a) == RoomForUser(b) ==> a == b
    ensures RoomForUser(a) != RoomForGame(gameCode, roundId)
  {
    if RoomForUser(a) == RoomForUser(b) {
      assert IntToString(a) == RoomForUser(a)[5..];
      assert IntToString(b) == RoomForUser(b)[5..];
      IntToStringInjective(a, b);
    }
    assert RoomForUser(a)[0] == 'u';
    assert RoomForGame(gameCode, roundId)[0] == 'g';
  }

  /** Without a round id the room is the game's "current" room, and a
      numeric round id names the same room as its String(...) text:
      plain decimal below 10^21, exponent form from there on. */
  lemma GameRoomRounds(gameCode: string, id: int)
    ensures RoomForGame(gameCode, None) == "game:" + gameCode + ":current"
    ensures RoomForGame(gameCode, Some(RoundNumber(FromInt(id)))) == RoomForGame(gameCode, Some(RoundText(IntegerText(id))))
    ensures -ExponentFrom < id < ExponentFrom ==>
      RoomForGame(gameCode, Some(RoundNumber(FromInt(id)))) == RoomForGame(gameCode, Some(RoundText(IntToString(id))))
  {
    NumToStringOfInt(id);
  }

  /** Counts restart after more than `windowMs`: the first call of a new
      window is never limited when the limit is positive. */
  lemma WindowResets(prev: Slot, now: int, limit: int, windowMs: int)
    requires limit >= 1 && now - prev.t > windowMs
    ensures RateSlot(Some(prev), now, windowMs) == Slot(now, 1)
    ensures RateSlot(Some(prev), now, windowMs).c <= limit
  {
  }

  /** Within one window every call is counted: a run of calls starting a
      fresh window, all within `windowMs` of its first call, counts all of
      them in the window opened by the first. */
  lemma {:induction false} RunWithinWindow(ts: seq<int>, windowMs: int)
    requires ts != []
    requires forall i :: 0 <= i < |ts| ==> ts[i] - ts[0] <= windowMs
    ensures RateRun(None, ts, windowMs) == Some(Slot(ts[0], |ts|))
    decreases |ts|
  {
    if |ts| == 1 {
      assert ts[..0] == [];
    } else {
      var front := ts[..|ts| - 1];
      assert front[0] == ts[0];
      RunWithinWindow(front, windowMs);
    }
  }

  /** Within one window the first `limit` calls pass and every later one
      is limited. */
  lemma LimitWithinWindow(ts: seq<int>, limit: int, windowMs: int, k: nat)
    requires forall i :: 0 <= i < |ts| ==> ts[i] - ts[0] <= windowMs
    requires 1 <= k <= |ts|
    ensures LimitedAfter(None, ts[..k], limit, windowMs) <==> k > limit
  {
    var run := ts[..k];
    assert run[0] == ts[0];
    RunWithinWindow(run, windowMs);
  }

  /** With the defaults, ten calls within five seconds of the first all
      pass and the eleventh is limited. */
  lemma DefaultRateLimit(ts: seq<int>)
    requires |ts| == 11
    requires forall i :: 0 <= i < |ts| ==> ts[i] - ts[0] <= RateWindowMs
    ensures forall k :: 1 <= k <= 10 ==> !LimitedAfter(None, ts[..k], RateLimitCalls, RateWindowMs)
    ensures LimitedAfter(None, ts, RateLimitCalls, RateWindowMs)
  {
    forall k | 1 <= k <= 10
      ensures !LimitedAfter(None, ts[..k], RateLimitCalls, RateWindowMs)
    {
      LimitWithinWindow(ts, RateLimitCalls, RateWindowMs, k);
    }
    LimitWithinWindow(ts, RateLimitCalls, RateWindowMs, 11);
    assert ts[..11] == ts;
  }

  /** A socket's state as the gateway's handlers change it. */
  class Socket {
    var userId: Option<int>
    var rooms: set<string>
    var emitted: seq<Emit>
    var connected: bool

    constructor()
      ensures userId == None && rooms == {} && emitted == [] && connected
    {
      userId := None;
      rooms := {};
      emitted := [];
      connected := true;
    }
  }

  class JuegosGateway {
    var lastEventAt: map<Socket, map<string, int>>
    var windowCounters: map<Socket, map<string, Slot>>
    /** Firebase verification and `findOrCreateByFirebaseUid`, from token to user id. */
    const resolveUser: string -> Result<int>

    constructor(resolveUser: string -> Result<int>)
      ensures lastEventAt == map[] && windowCounters == map[] && this.resolveUser == resolveUser
    {
      lastEventAt := map[];
      windowCounters := map[];
      this.resolveUser := resolveUser;
    }

    /** `handleConnection(client)`: a resolved user joins its room and gets
        fresh throttle maps; any failure is reported and disconnects. */
    method HandleConnection(client: Socket, authToken: Option<string>, authorization: Option<string>)
      modifies this, client
      ensures var token := HandshakeToken(authToken, authorization);
        var resolved := if token == "" then Err(Thrown("ERR_MISSING_TOKEN")) else resolveUser(token);
        && (resolved.Ok? ==>
              && client.userId == Some(resolved.value)
              && client.rooms == old(client.rooms) + {RoomForUser(resolved.value)}
              && client.emitted == old(client.emitted) + [Connected(RoomForUser(resolved.value))]
              && client.connected == old(client.connected)
              && lastEventAt == old(lastEventAt)[client := map[]]
              && windowCounters == old(windowCounters)[client := map[]])
        && (resolved.Err? ==>
              && client.userId == old(client.userId) && client.rooms == old(client.rooms)
              && client.emitted == old(client.emitted) + [ConnectionError(resolved.error)]
              && !client.connected
              && lastEventAt == old(lastEventAt) && windowCounters == old(windowCounters))
    {
      var token := HandshakeToken(authToken, authorization);
      var resolved := if token == "" then Err(Thrown("ERR_MISSING_TOKEN")) else resolveUser(token);
      if resolved.Err? {
        client.emitted := client.emitted + [ConnectionError(resolved.error)];
        client.connected := false;
        return;
      }
      var id := resolved.value;
      client.userId := Some(id);
      var userRoom := RoomForUser(id);
      client.rooms := client.rooms + {userRoom};
      client.emitted := client.emitted + [Connected(userRoom)];
      lastEventAt := lastEventAt[client := map[]];
      windowCounters := windowCounters[client := map[]];
    }

    /** `handleDisconnect(client)`: leave the user room and drop the maps. */
    method HandleDisconnect(client: Socket)
      modifies this, client
      ensures client.rooms == if HasUser(old(client.userId)) then old(client.rooms) - {RoomForUser(old(client.userId).value)} else old(client.rooms)
      ensures client.userId == old(client.userId) && client.emitted == old(client.emitted)
      ensures lastEventAt == old(lastEventAt) - {client} && windowCounters == old(windowCounters) - {client}
    {
      if HasUser(client.userId) {
        client.rooms := client.rooms - {RoomForUser(client.userId.value)};
      }
      lastEventAt := lastEventAt - {client};
      windowCounters := windowCounters - {client};
    }

    /** `throttle(client, event, ms)`: false for a socket without a map;
        true, with nothing stored, for an event less than `ms` after the
        last; otherwise the time is stored and the event passes. */
    method Throttle(client: Socket, event: string, ms: int, now: int) returns (limited: bool)
      modifies this
      ensures client !in old(lastEventAt) ==> !limited && lastEventAt == old(lastEventAt)
      ensures client in old(lastEventAt) ==>
        var m := old(lastEventAt)[client];
        var last := if event in m then Some(m[event]) else None;
        && (limited <==> TooSoon(last, now, ms))
        && lastEventAt == if limited then old(lastEventAt) else old(lastEventAt)[client := m[event := now]]
      ensures windowCounters == old(windowCounters)
    {
      if client !in lastEventAt {
        return false;
      }
      var m := lastEventAt[client];
      var last := if event in m then Some(m[event]) else None;
      if TooSoon(last, now, ms) {
        return true;
      }
      lastEventAt := lastEventAt[client := m[event := now]];
      limited := false;
    }

    /** Two `throttle` calls for one event on a socket with a map: once
        the first, at t, passes and is recorded, the second, at now, is
        throttled exactly when it comes less than `ms` after t, and a
        second that passes records now. */
    method ThrottleSpacing(client: Socket, event: string, ms: int, t: int, now: int) returns (first: bool, second: bool)
      requires client in lastEventAt
      modifies this
      ensures !first ==> client in lastEventAt && event in lastEventAt[client]
      ensures !first ==> (second <==> now < t + ms)
      ensures !first ==> lastEventAt[client][event] == if second then t else now
    {
      first := Throttle(client, event, ms, t);
      second := Throttle(client, event, ms, now);
    }

    /** `rateLimit(client, event, limit, windowMs)`: counts the call in the
        event's window (creating the map and the window as needed) and
        reports whether the count is above `limit`. */
    method RateLimit(client: Socket, event: string, limit: int, windowMs: int, now: int) returns (limited: bool)
      modifies this
      ensures var m := if client in old(windowCounters) then old(windowCounters)[client] else map[];
        var slot := RateSlot(if event in m then Some(m[event]) else None, now, windowMs);
        && windowCounters == old(windowCounters)[client := m[event := slot]]
        && (limited <==> slot.c > limit)
      ensures lastEventAt == old(lastEventAt)
    {
      var m := if client in windowCounters then windowCounters[client] else map[];
      var slot := if event in m then m[event] else Slot(now, 0);
      if now - slot.t > windowMs {
        slot := Slot(now, 0);
      }
      slot := slot.(c := slot.c + 1);
      m := m[event := slot];
      windowCounters := windowCounters[client := m];
      limited := slot.c > limit;
    }

    /** `handleAuthRefresh(client, data)`: a resolved user is set on the
        socket, moving it to the new user's room only when it had another
        user before; any failure is reported and changes nothing else. */
    method HandleAuthRefresh(client: Socket, token: Option<string>)
      modifies client
      ensures var resolved := if token.None? || token.value == "" then Err(Thrown("ERR_MISSING_TOKEN")) else resolveUser(token.value);
        && (resolved.Ok? ==>
              var prev := old(client.userId);
              && client.userId == Some(resolved.value)
              && client.rooms == (if HasUser(prev) && prev.value != resolved.value
                                  then old(client.rooms) - {RoomForUser(prev.value)} + {RoomForUser(resolved.value)}
                                  else old(client.rooms))
              && client.emitted == old(client.emitted) + [Refreshed])
        && (resolved.Err? ==>
              && client.userId == old(client.userId) && client.rooms == old(client.rooms)
              && client.emitted == old(client.emitted) + [SysError("ERR_AUTH", "Unauthorized (refresh)")])
      ensures client.connected == old(client.connected)
    {
      var resolved := if token.None? || token.value == "" then Err(Thrown("ERR_MISSING_TOKEN")) else resolveUser(token.value);
      if resolved.Err? {
        client.emitted := client.emitted + [SysError("ERR_AUTH", "Unauthorized (refresh)")];
        return;
      }
      var id := resolved.value;
      var prev := client.userId;
      if HasUser(prev) && prev.value != id {
        client.rooms := client.rooms - {RoomForUser(prev.value)};
        client.rooms := client.rooms + {RoomForUser(id)};
      }
      client.userId := Some(id);
      client.emitted := client.emitted + [Refreshed];
    }

    /** `handleRoomJoin(client, data)`: needs a user on the socket and a
        game code, and joins the game room. */
    method HandleRoomJoin(client: Socket, data: Option<JoinData>)
      modifies client
      ensures !HasUser(old(client.userId)) ==>
        client.rooms == old(client.rooms) && client.emitted == old(client.emitted) + [SysError("ERR_NO_USER", "No user in context")]
      ensures HasUser(old(client.userId)) && (data.None? || data.value.gameCode == "") ==>
        client.rooms == old(client.rooms) && client.emitted == old(client.emitted) + [SysError("ERR_BAD_INPUT", "Missing gameCode")]
      ensures HasUser(old(client.userId)) && data.Some? && data.value.gameCode != "" ==>
        var room := RoomForGame(data.value.gameCode, data.value.roundId);
        client.rooms == old(client.rooms) + {room} && client.emitted == old(client.emitted) + [Joined(room)]
      ensures client.userId == old(client.userId) && client.connected == old(client.connected)
    {
      if !HasUser(client.userId) {
        client.emitted := client.emitted + [SysError("ERR_NO_USER", "No user in context")];
        return;
      }
      if data.None? || data.value.gameCode == "" {
        client.emitted := client.emitted + [SysError("ERR_BAD_INPUT", "Missing gameCode")];
        return;
      }
      var room := RoomForGame(data.value.gameCode, data.value.roundId);
      client.rooms := client.rooms + {room};
      client.emitted := client.emitted + [Joined(room)];
    }
  }

  /** A refresh to the same user keeps the socket's rooms, and one to a
      different user swaps the old user room for the new one. */
  lemma RefreshRooms(rooms: set<string>, prev: int, next: int)
    requires prev != 0 && prev != next && RoomForUser(prev) in rooms
    ensures var after := rooms - {RoomForUser(prev)} + {RoomForUser(next)};
      RoomForUser(prev) !in after && RoomForUser(next) in after
  {
    RoomsDistinct(prev, next, "", None);
  }
}
