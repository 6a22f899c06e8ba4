/** The realtime client of frontend/src/composables/useRealtimeUpdates.js:
    the WebSocket address derived from the API base address, and the
    connect / reconnect life cycle driven by socket events and one timer. */
module Realtime {
  import opened Common
  import opened Text

  // ---------------------------------------------------------------------
  // buildWsUrl
  // ---------------------------------------------------------------------

  /** `pathname.replace(/\/api\/?$/, "")`: a trailing `/api` or `/api/` is
      dropped, any other path is kept. */
  function DropApiMount(pathname: string): (r: string)
    ensures EndsWith(pathname, "/api/") ==> pathname == r + "/api/"
    ensures !EndsWith(pathname, "/api/") && EndsWith(pathname, "/api") ==> pathname == r + "/api"
    ensures !EndsWith(pathname, "/api/") && !EndsWith(pathname, "/api") ==> r == pathname
  {
    if EndsWith(pathname, "/api/") then pathname[..|pathname| - 5]
    else if EndsWith(pathname, "/api") then pathname[..|pathname| - 4]
    else pathname
  }

  /** `wsPath.endsWith("/") ? wsPath.slice(0, -1) : wsPath`: one trailing
      slash is dropped. */
  function DropTrailingSlash(path: string): (r: string)
    ensures EndsWith(path, "/") ==> path == r + "/"
    ensures !EndsWith(path, "/") ==> r == path
  {
    if EndsWith(path, "/") then path[..|path| - 1] else path
  }

  /** `wss:` exactly when the API is served over `https:`. */
  function Scheme(protocol: string): (s: string)
    ensures s == "wss:" <==> protocol == "https:"
    ensures s != "wss:" ==> s == "ws:"
  {
    if protocol == "https:" then "wss:" else "ws:"
  }

  /** The path of the server root under which the socket lives: a prefix
      of the API path, without the API mount and one slash before it. */
  function SocketRoot(pathname: string): (r: string)
    ensures |r| <= |pathname| && r == pathname[..|r|]
    ensures pathname[|r|..] in {"", "/", "/api", "/api/", "//api", "//api/"}
  {
    var a := DropApiMount(pathname);
    var r := DropTrailingSlash(a);
    var mount: string := if EndsWith(pathname, "/api/") then "/api/" else if EndsWith(pathname, "/api") then "/api" else "";
    var slash: string := if EndsWith(a, "/") then "/" else "";
    assert pathname == a + mount by {
      if mount == "" {
        assert a + mount == a;
      }
    }
    assert a == r + slash by {
      if slash == "" {
        assert r + slash == r;
      }
    }
    CutAfter(r, slash, mount);
    SlashBeforeMount();
    r
  }

  /** The front of `x + y + z` is `x`, and the rest is `y + z`. */
  lemma CutAfter(x: string, y: string, z: string)
    ensures (x + y) + z == x + (y + z)
    ensures ((x + y) + z)[..|x|] == x
    ensures ((x + y) + z)[|x|..] == y + z
  {
  }

  /** A slash in front of the API mount, as SocketRoot cuts it. */
  lemma SlashBeforeMount()
    ensures "/" + "/api" == "//api" && "/" + "/api/" == "//api/"
  {
    assert ("/" + "/api")[1..] == "/api";
    assert ("/" + "/api/")[1..] == "/api/";
  }

  /** `localStorage.getItem("access") || ""`. */
  function TokenText(token: Option<string>): string {
    if token.Some? then token.value else ""
  }

  const UpdatesPath: string := "/ws/updates/?token="

  /** `buildWsUrl`: scheme, `//` and the API host in front, then the socket
      root, then the updates path and the token. */
  function BuildWsUrl(protocol: string, host: string, pathname: string, token: Option<string>): (url: string)
    ensures var front := Scheme(protocol) + "//" + host;
            var tail := UpdatesPath + TokenText(token);
            |front| + |tail| <= |url| && url[..|front|] == front
    ensures var front := Scheme(protocol) + "//" + host;
            var tail := UpdatesPath + TokenText(token);
            |front| + |tail| <= |url| && url[|front|..|url| - |tail|] == SocketRoot(pathname)
    ensures EndsWith(url, UpdatesPath + TokenText(token))
  {
    var front := Scheme(protocol) + "//" + host;
    var tail := UpdatesPath + TokenText(token);
    var url := front + SocketRoot(pathname) + tail;
    assert url[..|front|] == front;
    assert url[|front|..|url| - |tail|] == SocketRoot(pathname);
    assert url[|url| - |tail|..] == tail;
    url
  }

  /** The development base address `http://127.0.0.1:8000/api/` of
      frontend/src/api.js gives the socket at the server's root:
      `ws://127.0.0.1:8000/ws/updates/?token=` followed by the token. */
  lemma DevelopmentAddress(token: string)
    ensures BuildWsUrl("http:", "127.0.0.1:8000", "/api/", Some(token))
            == "ws:" + "//" + "127.0.0.1:8000" + UpdatesPath + token
  {
    assert SocketRoot("/api/") == "" by {
      assert EndsWith("/api/", "/api/");
      assert DropApiMount("/api/") == "";
    }
    var front := "ws:" + "//" + "127.0.0.1:8000";
    assert Scheme("http:") == "ws:";
    assert front + "" + (UpdatesPath + token) == front + UpdatesPath + token;
  }

  /** An API mounted at `/api/` under a prefix gets the prefix's socket. */
  lemma ApiMountWithSlashIgnored(prefix: string)
    requires !EndsWith(prefix, "/") && !EndsWith(prefix, "/api")
    ensures SocketRoot(prefix + "/api/") == SocketRoot(prefix)
  {
    var p := prefix + "/api/";
    assert p[|p| - 5..] == "/api/";
    assert p[..|p| - 5] == prefix;
  }

  /** An API mounted at `/api` under a prefix gets the prefix's socket. */
  lemma ApiMountIgnored(prefix: string)
    requires !EndsWith(prefix, "/") && !EndsWith(prefix, "/api")
    ensures SocketRoot(prefix + "/api") == SocketRoot(prefix)
  {
    var p := prefix + "/api";
    assert !EndsWith(p, "/api/") by {
      assert p[|p| - 1] == 'i';
    }
    assert p[|p| - 4..] == "/api";
    assert p[..|p| - 4] == prefix;
  }

  /** A trailing slash after a prefix does not change the socket. */
  lemma TrailingSlashIgnored(prefix: string)
    requires !EndsWith(prefix, "/") && !EndsWith(prefix, "/api")
    ensures SocketRoot(prefix + "/") == SocketRoot(prefix)
  {
    var p := prefix + "/";
    assert !EndsWith(p, "/api/") by {
      if |prefix| >= 4 {
        assert p[|p| - 5..|p| - 1] == prefix[|prefix| - 4..];
      }
    }
    assert !EndsWith(p, "/api") by {
      assert p[|p| - 1] == '/';
    }
    assert p[..|p| - 1] == prefix;
  }

  // ---------------------------------------------------------------------
  // The connection life cycle
  // ---------------------------------------------------------------------

  /** The client's state: whether `wsRef` holds a socket, `isReady`,
      whether `reconnectTimer` holds a handle, how many reconnect timers
      are pending, how many sockets were created, and whether the
      component was unmounted. Cancelling a timer leaves its handle in
      `reconnectTimer`; only the timer's own callback sets it to null. */
  datatype Client = Client(socket: bool, isReady: bool, handle: bool, timers: nat, sockets: nat, unmounted: bool)

  const Initial: Client := Client(false, false, false, 0, 0, false)

  /** What happens to the client: a call of `connect` (whose `new
      WebSocket` may throw), the reconnect timer firing (and connecting),
      the current socket's open, close and error events, and unmounting. */
  datatype Event = Connect(fails: bool) | TimerFires(fails: bool) | Opened | Closed | Failed | Unmount

  /** `scheduleReconnect`: a handle in `reconnectTimer`, even of a
      cancelled timer, makes it do nothing; otherwise one timer is armed
      and its handle kept. */
  function ScheduleReconnect(c: Client): (r: Client)
    ensures r.handle
    ensures r.timers == (if c.handle then c.timers else c.timers + 1)
    ensures r.(handle := c.handle, timers := c.timers) == c
  {
    if c.handle then c else c.(handle := true, timers := c.timers + 1)
  }

  /** `connect`: the old socket is dropped and `isReady` cleared; a new
      socket is created, or a reconnect is scheduled when that throws. */
  function ConnectNow(c: Client, fails: bool): (r: Client)
    ensures !r.isReady
    ensures r.socket <==> !fails
    ensures r.sockets == c.sockets + (if fails then 0 else 1)
    ensures fails ==> r.handle && r.timers == (if c.handle then c.timers else c.timers + 1)
    ensures !fails ==> r.handle == c.handle && r.timers == c.timers
    ensures r.unmounted == c.unmounted
  {
    var d := c.(socket := false, isReady := false);
    if fails then ScheduleReconnect(d) else d.(socket := true, sockets := c.sockets + 1)
  }

  /** One event as the composable handles it. A firing timer sets
      `reconnectTimer` to null before it connects. Unmounting cancels the
      pending timer but leaves its handle, and the handlers of the socket
      stay attached after `onBeforeUnmount` closes it. */
  function Step(c: Client, e: Event): (r: Client)
    ensures e.Unmount? ==> r.timers == 0 && r.unmounted && r.handle == c.handle && r.sockets == c.sockets
    ensures e.Opened? && c.socket ==> r.isReady
    ensures (e.Closed? || e.Failed?) && c.socket ==>
              !r.isReady && r.handle && r.timers == (if c.handle then c.timers else c.timers + 1)
    ensures e.TimerFires? && c.timers > 0 ==>
              && r.sockets == c.sockets + (if e.fails then 0 else 1)
              && r.timers == c.timers - 1 + (if e.fails then 1 else 0)
              && (r.handle <==> e.fails)
    ensures e.TimerFires? && c.timers == 0 ==> r == c
  {
    match e
    case Connect(fails) => ConnectNow(c, fails)
    case TimerFires(fails) =>
      if c.timers == 0 then c else ConnectNow(c.(handle := false, timers := c.timers - 1), fails)
    case Opened => if c.socket then c.(isReady := true) else c
    case Closed => if c.socket then ScheduleReconnect(c.(isReady := false)) else c
    case Failed => if c.socket then ScheduleReconnect(c.(isReady := false)) else c
    case Unmount => c.(timers := 0, unmounted := true)
  }

  function Run(c: Client, events: seq<Event>): Client
    decreases |events|
  {
    if |events| == 0 then c else Run(Step(c, events[0]), events[1..])
  }

  /** At most one reconnect timer is pending, a pending timer has its
      handle in `reconnectTimer`, and the client is ready only while it
      holds a socket. */
  predicate Healthy(c: Client) {
    c.timers <= 1 && (c.timers > 0 ==> c.handle) && (c.isReady ==> c.socket)
  }

  lemma StepHealthy(c: Client, e: Event)
    requires Healthy(c)
    ensures Healthy(Step(c, e))
  {
  }

  /** Whatever the events, there is never more than one pending timer. */
  lemma {:induction false} RunHealthy(c: Client, events: seq<Event>)
    requires Healthy(c)
    ensures Healthy(Run(c, events))
    decreases |events|
  {
    if |events| > 0 {
      StepHealthy(c, events[0]);
      RunHealthy(Step(c, events[0]), events[1..]);
    }
  }

  /** A close and an error of the same socket schedule one reconnect, not
      two: the close arms nothing after the error. */
  lemma CloseAndErrorScheduleOnce(c: Client)
    requires Healthy(c) && c.socket
    ensures Run(c, [Failed, Closed]).timers == (if c.handle then c.timers else 1)
  {
    assert Run(c, [Failed, Closed]) == Step(Step(c, Failed), Closed) by {
      assert [Failed, Closed][1..] == [Closed];
    }
  }

  /** Unmounted with an open socket and no reconnect pending, the close
      event of the socket the unmount closed arms a reconnect timer, and
      when it fires a new socket is created for a component that no longer
      exists. */
  lemma ReconnectAfterUnmount(c: Client)
    requires c.socket && !c.handle
    ensures Run(c, [Unmount, Closed]).timers == 1
    ensures Run(c, [Unmount, Closed, TimerFires(false)]).sockets == c.sockets + 1
    ensures Run(c, [Unmount, Closed, TimerFires(false)]).unmounted
  {
    var u := Step(c, Unmount);
    var v := Step(u, Closed);
    assert Run(c, [Unmount, Closed]) == Run(v, []) by {
      assert [Unmount, Closed][1..] == [Closed];
      assert [Closed][1..] == [];
    }
    assert Run(c, [Unmount, Closed, TimerFires(false)]) == Step(v, TimerFires(false)) by {
      assert [Unmount, Closed, TimerFires(false)][1..] == [Closed, TimerFires(false)];
      assert [Closed, TimerFires(false)][1..] == [TimerFires(false)];
    }
  }

  /** Unmounted while a reconnect was pending, the cancelled timer's handle
      stays in `reconnectTimer`, so no later close or error arms a timer
      and, unless `connect` is called again, no socket is created. */
  lemma {:induction false} StaleHandleAfterUnmount(c: Client, events: seq<Event>)
    requires c.handle
    requires forall i :: 0 <= i < |events| ==> !events[i].Connect?
    ensures var r := Run(Step(c, Unmount), events);
            r.timers == 0 && r.handle && r.sockets == c.sockets
    decreases |events|
  {
    if |events| > 0 {
      var u := Step(c, Unmount);
      var v := Step(u, events[0]);
      assert v.handle && v.timers == 0 && v.sockets == c.sockets && v.unmounted;
      assert Step(v, Unmount) == v;
      StaleHandleAfterUnmount(v, events[1..]);
    }
  }

  /** The life cycle as evidently intended: once unmounted, the handlers
      and the timer do nothing. */
  function StepStopped(c: Client, e: Event): (r: Client)
    ensures c.unmounted ==> r == c
    ensures !c.unmounted ==> r == Step(c, e)
  {
    if c.unmounted then c else Step(c, e)
  }

  function RunStopped(c: Client, events: seq<Event>): Client
    decreases |events|
  {
    if |events| == 0 then c else RunStopped(StepStopped(c, events[0]), events[1..])
  }

  /** With the guard, nothing happens after unmounting: no timer is pending
      and no socket is created, whatever events follow. */
  lemma {:induction false} UnmountIsFinal(c: Client, events: seq<Event>)
    ensures var u := StepStopped(c, Unmount);
            var r := RunStopped(u, events);
            r == u && (!c.unmounted ==> r.timers == 0 && r.sockets == c.sockets)
    decreases |events|
  {
    if |events| > 0 {
      UnmountIsFinal(c, events[1..]);
    }
  }

  /** Before unmounting, the guarded life cycle is the original one. */
  lemma {:induction false} StoppedAgreesBeforeUnmount(c: Client, events: seq<Event>)
    requires !c.unmounted
    requires forall i :: 0 <= i < |events| ==> !events[i].Unmount?
    ensures RunStopped(c, events) == Run(c, events)
    decreases |events|
  {
    if |events| > 0 {
      StoppedAgreesBeforeUnmount(Step(c, events[0]), events[1..]);
    }
  }
}
