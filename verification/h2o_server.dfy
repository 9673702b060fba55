/** The server core of ext/h2o_server.c as a class over its static state:
    the four `*_initialized` flags, `gaccept_ctx.ssl_ctx`, the closing state
    of the two libuv handles and `gruntime`. Every method appends to a ghost
    trace exactly the events module TeardownLedger gives it, so the ledger
    lemmas there (released once, closed at most once, cleanup order) are
    facts about these methods. */
module H2oServer {
  import opened Wrappers
  import opened ServerConfig
  import opened TeardownLedger

  /** PHP's `SUCCESS` / `FAILURE`. */
  datatype Status = Success | Failure

  /** A response header. */
  datatype Header = Header(name: string, value: string)

  /** The response part of an h2o request that `php_h2o_on_req` fills in. */
  class Request {
    var status: int
    var reason: string
    var headers: seq<Header>
    /** The bytes handed to `h2o_send_inline`, once sent. */
    var sent: Option<string>

    constructor ()
      ensures headers == [] && sent == None
    {
      status := 0;
      reason := "";
      headers := [];
      sent := None;
    }
  }

  class Server {
    var loopInitialized: bool     // gloop_initialized
    var ctxInitialized: bool      // gctx_initialized
    var serverInitialized: bool   // gserver_initialized
    var sigintInitialized: bool   // gsigint_initialized
    var sslCtx: bool              // gaccept_ctx.ssl_ctx != NULL
    var listenerClosing: bool     // uv_is_closing(&gserver)
    var sigintClosing: bool       // uv_is_closing(&gsigint)
    var responseBody: string      // gruntime.response_body
    var responseBodyLen: nat      // gruntime.response_body_len

    /** Everything acquired, released, initialised and closed so far. */
    ghost var trace: seq<Event>
    /** The client records the accept callback allocated, by allocation order. */
    ghost var clients: seq<ClientState>

    /** Between runs: every flag is zero and there is no TLS context. */
    predicate Idle()
      reads this
    {
      !loopInitialized && !ctxInitialized && !serverInitialized && !sigintInitialized && !sslCtx
    }

    function Flags(): HandleFlags
      reads this
    {
      HandleFlags(serverInitialized, listenerClosing, sigintInitialized, sigintClosing)
    }

    /** The module's static state when the extension is loaded. */
    constructor ()
      ensures Idle() && trace == [] && clients == []
      ensures !listenerClosing && !sigintClosing
      ensures responseBody == [] && responseBodyLen == 0
    {
      loopInitialized, ctxInitialized, serverInitialized, sigintInitialized := false, false, false, false;
      sslCtx, listenerClosing, sigintClosing := false, false, false;
      responseBody, responseBodyLen := [], 0;
      trace, clients := [], [];
    }

    /** `php_h2o_cleanup`: releases what the flags say is set up, disposes
        the config whatever the flags say, drains the loop (running the
        pending close callbacks) before closing it, and zeroes every flag. */
    method Cleanup()
      modifies this
      ensures trace == old(trace) + CleanupEvents(old(ctxInitialized), old(sslCtx), old(loopInitialized))
      ensures Idle()
      ensures clients == if old(loopInitialized) then Drained(old(clients)) else old(clients)
      ensures listenerClosing == old(listenerClosing) && sigintClosing == old(sigintClosing)
      ensures responseBody == old(responseBody) && responseBodyLen == old(responseBodyLen)
    {
      // the releases made, in order: context, config, TLS context, loop
      ghost var p0: seq<Event> := [];
      if ctxInitialized {
        p0 := [Release(Context)];
        ctxInitialized := false;
      }
      ghost var p2: seq<Event> := [];
      if sslCtx {
        p2 := [Release(SslCtx)];
        sslCtx := false;
      }
      ghost var p3: seq<Event> := [];
      if loopInitialized {
        clients := Drained(clients);
        p3 := [Drain, Release(EventLoop)];
        loopInitialized := false;
      }
      trace := trace + (p0 + [Release(GlobalConf)] + p2 + p3);
      serverInitialized := false;
      sigintInitialized := false;
    }

    /** `php_h2o_setup_ssl`: the new context is stored before the
        certificate and key are loaded, so a failed load leaves it set. */
    method SetupSsl(o: Foreign) returns (rc: int)
      requires !sslCtx
      modifies this
      ensures rc == if SslOk(o) then 0 else -1
      ensures sslCtx == o.sslCtxNew
      ensures trace == old(trace) + SslEvents(o)
      ensures loopInitialized == old(loopInitialized) && ctxInitialized == old(ctxInitialized)
      ensures Flags() == old(Flags()) && clients == old(clients)
      ensures responseBody == old(responseBody) && responseBodyLen == old(responseBodyLen)
    {
      if !o.sslCtxNew {
        return -1;
      }
      sslCtx := true;
      trace := trace + [Acquire(SslCtx)];
      if !o.useCertificateChain {
        return -1;
      }
      if !o.usePrivateKey {
        return -1;
      }
      return 0;
    }

    /** The guarded closes shared by `php_h2o_on_sigint` and the end of a
        run: close a handle only if it is initialised and not closing. */
    method CloseHandles()
      modifies this
      ensures trace == old(trace) + GuardedCloses(old(Flags()))
      ensures Flags() == AfterGuardedCloses(old(Flags()))
      ensures loopInitialized == old(loopInitialized) && ctxInitialized == old(ctxInitialized)
      ensures sslCtx == old(sslCtx) && clients == old(clients)
      ensures responseBody == old(responseBody) && responseBodyLen == old(responseBodyLen)
    {
      ghost var t0 := trace;
      if serverInitialized && !listenerClosing {
        trace := trace + [Close(Listener)];
        listenerClosing := true;
      }
      if sigintInitialized && !sigintClosing {
        trace := trace + [Close(SigintWatcher)];
        sigintClosing := true;
      }
      assert trace == t0 + GuardedCloses(old(Flags()));
    }

    /** `php_h2o_on_sigint`: the guarded closes, then `uv_stop`. */
    method OnSigint()
      modifies this
      ensures trace == old(trace) + GuardedCloses(old(Flags())) + [Stop]
      ensures Flags() == AfterGuardedCloses(old(Flags()))
      ensures loopInitialized == old(loopInitialized) && ctxInitialized == old(ctxInitialized)
      ensures sslCtx == old(sslCtx) && clients == old(clients)
      ensures responseBody == old(responseBody) && responseBodyLen == old(responseBodyLen)
    {
      CloseHandles();
      trace := trace + [Stop];
    }

    /** The serving `uv_run` and what follows it up to cleanup: the SIGINT
        handler may run while the loop serves; after the loop returns the
        same guarded closes are made again. */
    method ServeUntilStopped(o: Foreign)
      requires serverInitialized && !listenerClosing && sigintInitialized == o.signalInit
      requires o.signalInit ==> !sigintClosing
      modifies this
      ensures trace == old(trace) + ServeEvents(o)
      ensures loopInitialized == old(loopInitialized) && ctxInitialized == old(ctxInitialized)
      ensures sslCtx == old(sslCtx) && clients == old(clients) + AcceptedAll(o.accepts)
      ensures serverInitialized && sigintInitialized == o.signalInit
      ensures listenerClosing && (o.signalInit ==> sigintClosing)
      ensures responseBody == old(responseBody) && responseBodyLen == old(responseBodyLen)
    {
      ghost var t0 := trace;
      ghost var flags := HandleFlags(true, false, o.signalInit, false);
      ghost var handled := o.sigintBeforeReturn && o.signalInit;
      assert GuardedCloses(Flags()) == GuardedCloses(flags);
      trace := trace + [Serve];
      AcceptConnections(o.accepts);
      if o.sigintBeforeReturn && sigintInitialized {
        OnSigint();
        assert trace == t0 + [Serve] + GuardedCloses(flags) + [Stop];
        assert GuardedCloses(Flags()) == [];
        assert GuardedCloses(AfterGuardedCloses(flags)) == [];
      }
      ghost var t1 := trace;
      assert t1 == t0 + [Serve] + (if handled then GuardedCloses(flags) + [Stop] else []);
      CloseHandles();
      assert trace == t1 + GuardedCloses(if handled then AfterGuardedCloses(flags) else flags);
    }

    /** `php_h2o_server_run`, with every foreign outcome given by `o`.
        It returns SUCCESS exactly when `RunSucceeds`, appends exactly
        `RunEvents` to the trace (so, by the ledger lemmas, releases each
        resource it acquires once and the loop last), and leaves every
        flag zero whatever path it takes. The closing state of the two
        handles is what `ListenAndServe` leaves; the trace records every
        close. */
    method Run(opts: ServerOptions, o: Foreign) returns (rc: Status)
      requires Idle()
      modifies this
      ensures rc == if RunSucceeds(opts.HasTls(), o) then Success else Failure
      ensures trace == old(trace) + RunEvents(opts.HasTls(), o)
      ensures Idle()
      ensures clients ==
        if !o.loopInit then old(clients)
        else Drained(old(clients) + if RunSucceeds(opts.HasTls(), o) then AcceptedAll(o.accepts) else [])
      ensures o.loopInit ==> Outstanding(clients) == 0
      ensures responseBody == opts.responseBody && responseBodyLen == opts.responseBodyLen
    {
      var tls := opts.HasTls();
      ghost var t0 := trace;
      sslCtx := false;
      responseBody, responseBodyLen := opts.responseBody, opts.responseBodyLen;
      trace := trace + [Acquire(GlobalConf)];
      if !o.loopInit {
        trace := trace + [Release(GlobalConf)];
        return Failure;
      }
      loopInitialized, trace := true, trace + [Acquire(EventLoop)];
      ctxInitialized, trace := true, trace + [Acquire(Context)];
      ghost var acq := [Acquire(GlobalConf), Acquire(EventLoop), Acquire(Context)] + (if tls then SslEvents(o) else []);

      var sslRc := 0;
      if tls {
        sslRc := SetupSsl(o);
      }
      assert trace == t0 + acq;
      if sslRc != 0 {
        Cleanup();
        RunShape(t0, tls, o, [], trace);
        assert old(clients) + [] == old(clients);
        DrainFreesEvery(old(clients));
        return Failure;
      }
      rc := ListenAndServe(o);
      RunShape(t0, tls, o, HandleEvents(o), trace);
      DrainFreesEvery(old(clients) + if RunSucceeds(tls, o) then AcceptedAll(o.accepts) else []);
    }

    /** The accept callbacks the serving loop runs, one per attempt, in order. */
    method AcceptConnections(attempts: seq<Attempt>)
      modifies this
      ensures clients == old(clients) + AcceptedAll(attempts)
      ensures trace == old(trace) && Flags() == old(Flags())
      ensures loopInitialized == old(loopInitialized) && ctxInitialized == old(ctxInitialized)
      ensures sslCtx == old(sslCtx)
      ensures responseBody == old(responseBody) && responseBodyLen == old(responseBodyLen)
    {
      var k := 0;
      while k < |attempts|
        invariant 0 <= k <= |attempts|
        invariant clients == old(clients) + AcceptedAll(attempts[..k])
        invariant trace == old(trace) && Flags() == old(Flags())
        invariant loopInitialized == old(loopInitialized) && ctxInitialized == old(ctxInitialized)
        invariant sslCtx == old(sslCtx)
        invariant responseBody == old(responseBody) && responseBodyLen == old(responseBodyLen)
      {
        var a := attempts[k];
        OnConnection(a.status, a.mallocOk, a.acceptOk);
        assert attempts[..k + 1][..k] == attempts[..k];
        k := k + 1;
      }
      assert attempts[..k] == attempts;
    }

    /** A run that acquired `acq`, went on with `rest` and then cleaned up has
        produced `RunEvents`. */
    static lemma RunShape(t0: seq<Event>, tls: bool, o: Foreign, rest: seq<Event>, t: seq<Event>)
      requires o.loopInit
      requires rest == if tls && !SslOk(o) then [] else HandleEvents(o)
      requires t == t0 + ([Acquire(GlobalConf), Acquire(EventLoop), Acquire(Context)] + (if tls then SslEvents(o) else []))
        + rest + CleanupEvents(true, tls && o.sslCtxNew, true)
      ensures t == t0 + RunEvents(tls, o)
    {
      var acq := [Acquire(GlobalConf), Acquire(EventLoop), Acquire(Context)] + (if tls then SslEvents(o) else []);
      var cl := CleanupEvents(true, tls && o.sslCtxNew, true);
      assert RunEvents(tls, o) == acq + rest + cl;
      Regroup(t0, acq, rest, cl);
    }

    /** The rest of `php_h2o_server_run` once the loop, the context and any
        TLS context are set up: a failed `uv_signal_init` is tolerated (the
        server then runs without the watcher), a failed `uv_tcp_init`,
        address, bind or listen goes to cleanup, and otherwise the loop
        serves until stopped, then cleanup. The closing state of the two
        handles is what `BindAndServe` leaves; the trace records every close. */
    method ListenAndServe(o: Foreign) returns (rc: Status)
      requires loopInitialized && ctxInitialized && !serverInitialized && !sigintInitialized
      modifies this
      ensures rc == if o.tcpInit && o.ip4Addr && o.tcpBind && o.listen then Success else Failure
      ensures trace == old(trace) + HandleEvents(o) + CleanupEvents(true, old(sslCtx), true)
      ensures Idle()
      ensures clients == Drained(old(clients)
        + if o.tcpInit && o.ip4Addr && o.tcpBind && o.listen then AcceptedAll(o.accepts) else [])
      ensures responseBody == old(responseBody) && responseBodyLen == old(responseBodyLen)
    {
      ghost var t1 := trace;
      ghost var ssl := sslCtx;
      ghost var sigEv: seq<Event> := [];
      if o.signalInit {
        sigintInitialized := true;
        sigintClosing := false;
        trace := trace + [Init(SigintWatcher)];
        sigEv := [Init(SigintWatcher)];
      }
      ghost var t2 := trace;
      assert t2 == t1 + sigEv;

      assert old(clients) + [] == old(clients);
      if !o.tcpInit {
        assert HandleEvents(o) == sigEv;
        Cleanup();
        Regroup(t1, [], sigEv, CleanupEvents(true, ssl, true));
        return Failure;
      }
      ghost var serving := o.ip4Addr && o.tcpBind && o.listen;
      ghost var tail := [Init(Listener)] + (if serving then ServeEvents(o) else []);
      rc := BindAndServe(o);
      assert HandleEvents(o) == sigEv + tail;
      Regroup(t1, sigEv, tail, CleanupEvents(true, ssl, true));
    }

    /** From a successful `uv_tcp_init` on: a failed address, bind or listen
        goes to cleanup, otherwise the loop serves until stopped, then
        cleanup. */
    method BindAndServe(o: Foreign) returns (rc: Status)
      requires loopInitialized && ctxInitialized && !serverInitialized && sigintInitialized == o.signalInit
      requires o.signalInit ==> !sigintClosing
      modifies this
      ensures rc == if o.ip4Addr && o.tcpBind && o.listen then Success else Failure
      ensures trace == old(trace)
        + ([Init(Listener)] + if o.ip4Addr && o.tcpBind && o.listen then ServeEvents(o) else [])
        + CleanupEvents(true, old(sslCtx), true)
      ensures Idle()
      ensures clients == Drained(old(clients) + if o.ip4Addr && o.tcpBind && o.listen then AcceptedAll(o.accepts) else [])
      ensures o.ip4Addr && o.tcpBind && o.listen ==> listenerClosing && (o.signalInit ==> sigintClosing)
      ensures responseBody == old(responseBody) && responseBodyLen == old(responseBodyLen)
    {
      ghost var t0 := trace;
      serverInitialized := true;
      listenerClosing := false;
      trace := trace + [Init(Listener)];

      if !(o.ip4Addr && o.tcpBind && o.listen) {
        assert old(clients) + [] == old(clients);
        Cleanup();
        assert [Init(Listener)] + [] == [Init(Listener)];
        return Failure;
      }

      ServeUntilStopped(o);
      assert trace == t0 + ([Init(Listener)] + ServeEvents(o));
      Cleanup();
      return Success;
    }

    static lemma Regroup(a: seq<Event>, b: seq<Event>, c: seq<Event>, d: seq<Event>)
      ensures a + b + c + d == a + (b + c) + d
    {
    }

    /** `php_h2o_on_uv_connection`: a non-zero status or a failed `malloc`
        allocates nothing; a failed accept closes the new record with the
        freeing callback (pending until the loop runs it); a successful one
        hands it to the protocol layer with that same callback. */
    method OnConnection(status: int, mallocOk: bool, acceptOk: bool)
      modifies this
      ensures clients == old(clients) + Accepted(Attempt(status, mallocOk, acceptOk))
      ensures trace == old(trace) && Flags() == old(Flags())
      ensures loopInitialized == old(loopInitialized) && ctxInitialized == old(ctxInitialized)
      ensures sslCtx == old(sslCtx)
      ensures responseBody == old(responseBody) && responseBodyLen == old(responseBodyLen)
    {
      if status != 0 {
        return;
      }
      if !mallocOk {
        return;
      }
      if !acceptOk {
        clients := clients + [ClosePending];
        return;
      }
      clients := clients + [WithProtocol];
    }

    /** `php_h2o_on_client_close`: the single release of a record, run by
        the loop for a closed record or by the protocol layer for one it
        holds. */
    method OnClientClose(id: nat)
      requires id < |clients| && clients[id] != Freed
      modifies this
      ensures clients == old(clients)[id := Freed]
      ensures Outstanding(clients) == Outstanding(old(clients)) - 1
      ensures trace == old(trace) && Flags() == old(Flags())
      ensures loopInitialized == old(loopInitialized) && ctxInitialized == old(ctxInitialized)
      ensures sslCtx == old(sslCtx)
      ensures responseBody == old(responseBody) && responseBodyLen == old(responseBodyLen)
    {
      FreeingReleasesOne(clients, id);
      clients := clients[id := Freed];
    }

    /** `php_h2o_on_req`: every request is answered 200 "OK" with one
        `content-type: text/plain` header and the first
        `gruntime.response_body_len` bytes of the configured body. */
    method OnReq(req: Request) returns (r: int)
      requires responseBodyLen <= |responseBody|
      modifies req
      ensures r == 0
      ensures req.status == 200 && req.reason == "OK"
      ensures req.headers == old(req.headers) + [Header("content-type", "text/plain")]
      ensures req.sent == Some(responseBody[..responseBodyLen])
    {
      req.status := 200;
      req.reason := "OK";
      req.headers := req.headers + [Header("content-type", "text/plain")];
      req.sent := Some(responseBody[..responseBodyLen]);
      return 0;
    }
  }
}
