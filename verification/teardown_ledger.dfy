/** The resource ledger of the server core (ext/h2o_server.c): which
    resources and handles a run acquires, initialises, releases and closes,
    in which order, as a trace of events; what each operation of the
    server appends to that trace; and the per-connection client records.
    Everything here is pure; class H2oServer.Server is proved to append
    exactly these traces. */
module TeardownLedger {
  import opened Wrappers

  /** What is set up and later disposed: the global config (`gconf`), the
      event loop (`gloop`), the h2o context (`gctx`), the TLS context
      (`gaccept_ctx.ssl_ctx`). */
  datatype Resource = GlobalConf | EventLoop | Context | SslCtx

  /** The two libuv handles: the listening socket (`gserver`) and the
      SIGINT watcher (`gsigint`). */
  datatype Handle = Listener | SigintWatcher

  datatype Event =
    | Acquire(r: Resource)
    | Release(r: Resource)
    | Init(h: Handle)
    | Close(h: Handle)
    | Drain   // uv_run inside cleanup: pending close callbacks run
    | Serve   // the blocking uv_run that serves connections
    | Stop    // uv_stop

  /** What a prefix of the trace holds: resources not yet released,
      handles initialised and not yet closed, and what was ever acquired or
      initialised (a run sets each up at most once). */
  datatype Ledger = Ledger(
    held: set<Resource>, open: set<Handle>,
    acquired: set<Resource>, initialised: set<Handle>)

  const Empty: Ledger := Ledger({}, {}, {}, {})

  /** One event; `None` is a misuse: acquiring twice, releasing what is not
      held, initialising twice, closing a handle that is not open. */
  function Step(l: Ledger, e: Event): Option<Ledger> {
    match e
    case Acquire(r) =>
      if r in l.held || r in l.acquired then None
      else Some(l.(held := l.held + {r}, acquired := l.acquired + {r}))
    case Release(r) => if r in l.held then Some(l.(held := l.held - {r})) else None
    case Init(h) =>
      if h in l.open || h in l.initialised then None
      else Some(l.(open := l.open + {h}, initialised := l.initialised + {h}))
    case Close(h) => if h in l.open then Some(l.(open := l.open - {h})) else None
    case _ => Some(l)
  }

  function Replay(t: seq<Event>, l: Ledger): Option<Ledger>
    decreases |t|
  {
    if t == [] then Some(l)
    else
      match Step(l, t[0])
      case None => None
      case Some(m) => Replay(t[1..], m)
  }

  function Count(t: seq<Event>, e: Event): nat {
    multiset(t)[e]
  }

  function Bit(b: bool): nat {
    if b then 1 else 0
  }

  // ---------------------------------------------------------------------
  // Replay

  /** Replaying a concatenation is replaying its halves in turn. */
  lemma {:induction false} ReplayAppend(a: seq<Event>, b: seq<Event>, l: Ledger)
    ensures Replay(a + b, l) ==
      match Replay(a, l)
      case None => None
      case Some(m) => Replay(b, m)
    decreases |a|
  {
    if a == [] {
      assert a + b == b;
    } else {
      assert (a + b)[0] == a[0];
      assert (a + b)[1..] == a[1..] + b;
      match Step(l, a[0])
      case None =>
      case Some(m) => ReplayAppend(a[1..], b, m);
    }
  }

  lemma ReplaySingle(e: Event, l: Ledger)
    ensures Replay([e], l) == Step(l, e)
  {
  }

  /** A trace that replays without misuse acquires each resource at most
      once and releases it as often as it acquires it, up to what is held at
      its two ends; likewise handles with initialise and close. In particular
      nothing is released or closed more often than it was set up. */
  lemma {:induction false} ReplayCounts(t: seq<Event>, l: Ledger, l': Ledger, r: Resource, h: Handle)
    requires Replay(t, l) == Some(l')
    ensures Count(t, Acquire(r)) + Bit(r in l.acquired) == Bit(r in l'.acquired)
    ensures Count(t, Acquire(r)) + Bit(r in l.held) == Count(t, Release(r)) + Bit(r in l'.held)
    ensures Count(t, Init(h)) + Bit(h in l.initialised) == Bit(h in l'.initialised)
    ensures Count(t, Init(h)) + Bit(h in l.open) == Count(t, Close(h)) + Bit(h in l'.open)
    decreases |t|
  {
    if t != [] {
      assert t == [t[0]] + t[1..];
      assert multiset(t) == multiset{t[0]} + multiset(t[1..]);
      var m := Step(l, t[0]).value;
      ReplayCounts(t[1..], m, l', r, h);
    }
  }

  // ---------------------------------------------------------------------
  // php_h2o_cleanup

  /** The events of `php_h2o_cleanup`, given `gctx_initialized`, whether
      `gaccept_ctx.ssl_ctx` is non-NULL and `gloop_initialized`: dispose the
      context if initialised, dispose the config unconditionally, free the
      TLS context if set, drain and close the loop if initialised. */
  function CleanupEvents(ctx: bool, ssl: bool, loop: bool): seq<Event> {
    (if ctx then [Release(Context)] else [])
    + [Release(GlobalConf)]
    + (if ssl then [Release(SslCtx)] else [])
    + (if loop then [Drain, Release(EventLoop)] else [])
  }

  /** The resources the cleanup flags say are set up, with the config. */
  function FlaggedHeld(ctx: bool, ssl: bool, loop: bool): set<Resource> {
    {GlobalConf}
    + (if ctx then {Context} else {})
    + (if ssl then {SslCtx} else {})
    + (if loop then {EventLoop} else {})
  }

  /** When the flags agree with what is held, cleanup releases exactly
      what is held, each once, and touches no handle. */
  lemma CleanupReleasesHeld(ctx: bool, ssl: bool, loop: bool, l: Ledger)
    requires l.held == FlaggedHeld(ctx, ssl, loop)
    ensures Replay(CleanupEvents(ctx, ssl, loop), l) == Some(l.(held := {}))
  {
    var p0 := if ctx then [Release(Context)] else [];
    var p1 := [Release(GlobalConf)];
    var p2 := if ssl then [Release(SslCtx)] else [];
    var p3 := if loop then [Drain, Release(EventLoop)] else [];
    assert CleanupEvents(ctx, ssl, loop) == p0 + (p1 + (p2 + p3));
    var l1 := l.(held := l.held - (if ctx then {Context} else {}));
    var l2 := l1.(held := l1.held - {GlobalConf});
    var l3 := l2.(held := l2.held - (if ssl then {SslCtx} else {}));
    var l4 := l3.(held := l3.held - (if loop then {EventLoop} else {}));
    ReplayAppend(p0, p1 + (p2 + p3), l);
    if ctx {
      ReplaySingle(Release(Context), l);
    } else {
      assert l1 == l;
    }
    assert Replay(p0, l) == Some(l1);
    ReplayAppend(p1, p2 + p3, l1);
    ReplaySingle(Release(GlobalConf), l1);
    ReplayAppend(p2, p3, l2);
    if ssl {
      ReplaySingle(Release(SslCtx), l2);
    } else {
      assert l3 == l2;
    }
    assert Replay(p2, l2) == Some(l3);
    if loop {
      ReplayAppend([Drain], [Release(EventLoop)], l3);
      ReplaySingle(Drain, l3);
      ReplaySingle(Release(EventLoop), l3);
      assert [Drain] + [Release(EventLoop)] == p3;
    } else {
      assert l4 == l3;
    }
    assert Replay(p3, l3) == Some(l4);
    assert l4 == l.(held := {});
  }

  /** Cleanup is not idempotent: it disposes the config unconditionally,
      so a second cleanup (all flags already reset) disposes it again. */
  lemma CleanupTwiceDisposesConfigTwice(ctx: bool, ssl: bool, loop: bool, l: Ledger)
    requires l.held == FlaggedHeld(ctx, ssl, loop)
    ensures Count(CleanupEvents(ctx, ssl, loop) + CleanupEvents(false, false, false), Release(GlobalConf)) == 2
    ensures Replay(CleanupEvents(ctx, ssl, loop) + CleanupEvents(false, false, false), l) == None
  {
    CleanupReleasesHeld(ctx, ssl, loop, l);
    ReplayAppend(CleanupEvents(ctx, ssl, loop), CleanupEvents(false, false, false), l);
    assert CleanupEvents(false, false, false) == [Release(GlobalConf)];
    ReplaySingle(Release(GlobalConf), l.(held := {}));
    var a := CleanupEvents(ctx, ssl, loop);
    CleanupDisposesConfigOnce(ctx, ssl, loop);
    assert multiset(a + [Release(GlobalConf)]) == multiset(a) + multiset{Release(GlobalConf)};
  }

  /** One cleanup disposes the config exactly once, whatever the flags. */
  lemma CleanupDisposesConfigOnce(ctx: bool, ssl: bool, loop: bool)
    ensures Count(CleanupEvents(ctx, ssl, loop), Release(GlobalConf)) == 1
  {
  }

  /** Precedes(t, a, b): some `a` comes before some `b` in `t`. */
  ghost predicate Precedes(t: seq<Event>, a: Event, b: Event) {
    exists i, j :: 0 <= i < j < |t| && t[i] == a && t[j] == b
  }

  /** Cleanup's order is context, config, TLS context, loop, and the loop is
      drained right before it is closed. This is not the reverse of the
      acquisition order (config, loop, context, TLS context): the config is
      disposed before the TLS context, although acquired before it. */
  lemma CleanupOrder(ctx: bool, ssl: bool, loop: bool)
    ensures var t := CleanupEvents(ctx, ssl, loop);
      && (ctx ==> Precedes(t, Release(Context), Release(GlobalConf)))
      && (ssl ==> Precedes(t, Release(GlobalConf), Release(SslCtx)))
      && (ssl && loop ==> Precedes(t, Release(SslCtx), Release(EventLoop)))
      && (loop ==> |t| >= 2 && t[|t| - 2] == Drain && t[|t| - 1] == Release(EventLoop))
  {
    var t := CleanupEvents(ctx, ssl, loop);
    var c := if ctx then 1 else 0;
    assert t[c] == Release(GlobalConf);
    if ctx {
      assert t[0] == Release(Context);
    }
    if ssl {
      assert t[c + 1] == Release(SslCtx);
      if loop {
        assert t[c + 3] == Release(EventLoop);
      }
    }
  }

  // ---------------------------------------------------------------------
  // The SIGINT handler and the post-run path

  /** The four facts the close guards test: `gserver_initialized`,
      `uv_is_closing(&gserver)`, `gsigint_initialized`,
      `uv_is_closing(&gsigint)`. */
  datatype HandleFlags = HandleFlags(
    serverInitialized: bool, listenerClosing: bool,
    sigintInitialized: bool, sigintClosing: bool)

  /** The guarded closes of the SIGINT handler, repeated after the loop
      returns: close each handle that is initialised and not already closing. */
  function GuardedCloses(f: HandleFlags): seq<Event> {
    (if f.serverInitialized && !f.listenerClosing then [Close(Listener)] else [])
    + (if f.sigintInitialized && !f.sigintClosing then [Close(SigintWatcher)] else [])
  }

  /** The flags after the guarded closes: `uv_close` marks a handle closing. */
  function AfterGuardedCloses(f: HandleFlags): HandleFlags {
    f.(listenerClosing := f.listenerClosing || f.serverInitialized,
       sigintClosing := f.sigintClosing || f.sigintInitialized)
  }

  /** Across the SIGINT handler and the post-run path each handle is closed
      at most once, exactly when it was initialised and not yet closing, and
      the second round of closes does nothing. */
  lemma ClosedAtMostOnce(f: HandleFlags)
    ensures GuardedCloses(AfterGuardedCloses(f)) == []
    ensures var t := GuardedCloses(f) + GuardedCloses(AfterGuardedCloses(f));
      && Count(t, Close(Listener)) == Bit(f.serverInitialized && !f.listenerClosing)
      && Count(t, Close(SigintWatcher)) == Bit(f.sigintInitialized && !f.sigintClosing)
  {
  }

  // ---------------------------------------------------------------------
  // php_h2o_server_run

  /** The outcome of every foreign call the run makes, and whether the SIGINT
      handler ran before the serving `uv_run` returned. */
  datatype Foreign = Foreign(
    loopInit: bool,              // uv_loop_init
    sslCtxNew: bool,             // SSL_CTX_new
    useCertificateChain: bool,   // SSL_CTX_use_certificate_chain_file
    usePrivateKey: bool,         // SSL_CTX_use_PrivateKey_file
    signalInit: bool,            // uv_signal_init
    tcpInit: bool,               // uv_tcp_init
    ip4Addr: bool,               // uv_ip4_addr
    tcpBind: bool,               // uv_tcp_bind
    listen: bool,                // uv_listen
    sigintBeforeReturn: bool,    // SIGINT delivered while serving
    accepts: seq<Attempt>)       // the accept callbacks run while serving, in order

  /** php_h2o_setup_ssl returns 0. */
  predicate SslOk(o: Foreign) {
    o.sslCtxNew && o.useCertificateChain && o.usePrivateKey
  }

  /** The events of `php_h2o_setup_ssl`: the context is stored as soon as it
      is created, whatever happens next. */
  function SslEvents(o: Foreign): seq<Event> {
    if o.sslCtxNew then [Acquire(SslCtx)] else []
  }

  /** The run returns SUCCESS. */
  predicate RunSucceeds(tls: bool, o: Foreign) {
    o.loopInit && (tls ==> SslOk(o)) && o.tcpInit && o.ip4Addr && o.tcpBind && o.listen
  }

  /** From the blocking `uv_run` on: the SIGINT handler's closes and stop if
      it ran, then the same guarded closes after the loop returns. */
  function ServeEvents(o: Foreign): seq<Event> {
    var flags := HandleFlags(true, false, o.signalInit, false);
    var handled := o.sigintBeforeReturn && o.signalInit;
    [Serve]
    + (if handled then GuardedCloses(flags) + [Stop] else [])
    + GuardedCloses(if handled then AfterGuardedCloses(flags) else flags)
  }

  /** Everything from `h2o_config_init` up to the call to cleanup, once
      `uv_loop_init` succeeded. */
  function SetupEvents(tls: bool, o: Foreign): seq<Event> {
    [Acquire(GlobalConf), Acquire(EventLoop), Acquire(Context)]
    + (if tls then SslEvents(o) else [])
    + (if tls && !SslOk(o) then [] else HandleEvents(o))
  }

  /** From `uv_signal_init` on, up to cleanup: the watcher if it
      initialises, then the listener, and serving if the address, bind and
      listen succeed. */
  function HandleEvents(o: Foreign): seq<Event> {
    (if o.signalInit then [Init(SigintWatcher)] else [])
    + (if !o.tcpInit then []
       else [Init(Listener)] + (if o.ip4Addr && o.tcpBind && o.listen then ServeEvents(o) else []))
  }

  /** The events of `php_h2o_server_run` with TLS requested or not: a failed
      `uv_loop_init` disposes the config directly; every other path ends in
      cleanup. */
  function RunEvents(tls: bool, o: Foreign): seq<Event> {
    if !o.loopInit then [Acquire(GlobalConf), Release(GlobalConf)]
    else SetupEvents(tls, o) + CleanupEvents(true, tls && o.sslCtxNew, true)
  }

  /** What a run acquires: the config always, loop and context once the loop
      initialises, the TLS context once created. */
  function AcquiredBy(tls: bool, o: Foreign): set<Resource> {
    if !o.loopInit then {GlobalConf}
    else {GlobalConf, EventLoop, Context} + (if tls && o.sslCtxNew then {SslCtx} else {})
  }

  /** The handles a run initialises: none if the loop or TLS setup fails. */
  function InitialisedBy(tls: bool, o: Foreign): set<Handle> {
    if !o.loopInit || (tls && !SslOk(o)) then {}
    else (if o.signalInit then {SigintWatcher} else {}) + (if o.tcpInit then {Listener} else {})
  }

  /** The handles a run leaves open: a setup failure after `uv_signal_init`
      or `uv_tcp_init` reaches cleanup without closing the handles those calls
      initialised; a successful run closes both. */
  function Leftover(tls: bool, o: Foreign): set<Handle> {
    if RunSucceeds(tls, o) then {} else InitialisedBy(tls, o)
  }

  /** A run replays without misuse: nothing acquired or initialised twice,
      nothing released that is not held, no handle closed that is not open.
      It ends holding no resource, having acquired `AcquiredBy` and
      initialised `InitialisedBy`, with only `Leftover` still open. The
      ledger accepts the loop's release while a handle is still open: when
      `Leftover` holds the listener (signal init failed, a later listener
      step failed), libuv's `uv_loop_close` actually fails with EBUSY and
      the loop is not released; the model does not capture that failure. */
  lemma RunLedger(tls: bool, o: Foreign)
    ensures Replay(RunEvents(tls, o), Empty)
      == Some(Ledger({}, Leftover(tls, o), AcquiredBy(tls, o), InitialisedBy(tls, o)))
  {
    if !o.loopInit {
      var l := Ledger({GlobalConf}, {}, {GlobalConf}, {});
      ReplayAppend([Acquire(GlobalConf)], [Release(GlobalConf)], Empty);
      ReplaySingle(Acquire(GlobalConf), Empty);
      assert Empty.held + {GlobalConf} == {GlobalConf};
      assert Step(Empty, Acquire(GlobalConf)) == Some(l);
      ReplaySingle(Release(GlobalConf), l);
      assert Step(l, Release(GlobalConf)) == Some(l.(held := {}));
      assert RunEvents(tls, o) == [Acquire(GlobalConf)] + [Release(GlobalConf)];
    } else {
      var ssl := tls && o.sslCtxNew;
      var l := SetupReplays(tls, o);
      ReplayAppend(SetupEvents(tls, o), CleanupEvents(true, ssl, true), Empty);
      CleanupReleasesHeld(true, ssl, true, l);
    }
  }

  /** The setup part of a run replays, holding what cleanup's flags say. */
  lemma SetupReplays(tls: bool, o: Foreign) returns (l: Ledger)
    requires o.loopInit
    ensures Replay(SetupEvents(tls, o), Empty) == Some(l)
    ensures l.held == FlaggedHeld(true, tls && o.sslCtxNew, true)
    ensures l.open == Leftover(tls, o)
    ensures l.acquired == AcquiredBy(tls, o) && l.initialised == InitialisedBy(tls, o)
  {
    var acq := [Acquire(GlobalConf), Acquire(EventLoop), Acquire(Context)]
      + (if tls then SslEvents(o) else []);
    var l1 := AcquisitionsReplay(tls, o);
    var rest := if tls && !SslOk(o) then [] else HandleEvents(o);
    ReplayAppend(acq, rest, Empty);
    if tls && !SslOk(o) {
      assert Replay(rest, l1) == Some(l1);
      l := l1;
    } else {
      l := HandlesReplay(tls, o, l1);
    }
  }

  /** The config, loop, context and TLS context acquisitions replay. */
  lemma AcquisitionsReplay(tls: bool, o: Foreign) returns (l1: Ledger)
    ensures Replay([Acquire(GlobalConf), Acquire(EventLoop), Acquire(Context)]
      + (if tls then SslEvents(o) else []), Empty) == Some(l1)
    ensures l1.held == l1.acquired == FlaggedHeld(true, tls && o.sslCtxNew, true)
    ensures l1.open == {} && l1.initialised == {}
  {
    var acq := [Acquire(GlobalConf), Acquire(EventLoop), Acquire(Context)];
    var l0 := Ledger({GlobalConf, EventLoop, Context}, {}, {GlobalConf, EventLoop, Context}, {});
    var a1 := Ledger({GlobalConf}, {}, {GlobalConf}, {});
    var a2 := Ledger({GlobalConf, EventLoop}, {}, {GlobalConf, EventLoop}, {});
    ReplayAppend([Acquire(GlobalConf)], [Acquire(EventLoop)] + [Acquire(Context)], Empty);
    ReplaySingle(Acquire(GlobalConf), Empty);
    assert Empty.held + {GlobalConf} == {GlobalConf};
    assert Step(Empty, Acquire(GlobalConf)) == Some(a1);
    ReplayAppend([Acquire(EventLoop)], [Acquire(Context)], a1);
    ReplaySingle(Acquire(EventLoop), a1);
    assert a1.held + {EventLoop} == {GlobalConf, EventLoop};
    assert Step(a1, Acquire(EventLoop)) == Some(a2);
    ReplaySingle(Acquire(Context), a2);
    assert a2.held + {Context} == {GlobalConf, EventLoop, Context};
    assert Step(a2, Acquire(Context)) == Some(l0);
    assert acq == [Acquire(GlobalConf)] + ([Acquire(EventLoop)] + [Acquire(Context)]);
    assert Replay(acq, Empty) == Some(l0);

    var sslEv := if tls then SslEvents(o) else [];
    var ssl := tls && o.sslCtxNew;
    l1 := if ssl then l0.(held := l0.held + {SslCtx}, acquired := l0.acquired + {SslCtx}) else l0;
    ReplayAppend(acq, sslEv, Empty);
    if ssl {
      ReplaySingle(Acquire(SslCtx), l0);
    } else {
      assert sslEv == [];
    }
  }

  /** From `uv_signal_init` on, up to cleanup, the handle events replay. */
  lemma HandlesReplay(tls: bool, o: Foreign, l1: Ledger) returns (l: Ledger)
    requires l1.open == {} && l1.initialised == {}
    ensures Replay(HandleEvents(o), l1) == Some(l)
    ensures l.held == l1.held && l.acquired == l1.acquired
    ensures l.initialised == (if o.signalInit then {SigintWatcher} else {}) + (if o.tcpInit then {Listener} else {})
    ensures l.open == if o.tcpInit && o.ip4Addr && o.tcpBind && o.listen then {} else l.initialised
  {
    var sigEv := if o.signalInit then [Init(SigintWatcher)] else [];
    var serving := o.ip4Addr && o.tcpBind && o.listen;
    var tcpEv := if !o.tcpInit then [] else [Init(Listener)] + (if serving then ServeEvents(o) else []);
    var l2 := if o.signalInit then l1.(open := l1.open + {SigintWatcher}, initialised := l1.initialised + {SigintWatcher}) else l1;
    if o.signalInit {
      ReplaySingle(Init(SigintWatcher), l1);
    }
    assert Replay(sigEv, l1) == Some(l2);
    ReplayAppend(sigEv, tcpEv, l1);
    if !o.tcpInit {
      l := l2;
    } else {
      var l3 := l2.(open := l2.open + {Listener}, initialised := l2.initialised + {Listener});
      ReplaySingle(Init(Listener), l2);
      var srv := if serving then ServeEvents(o) else [];
      ReplayAppend([Init(Listener)], srv, l2);
      if serving {
        l := ServeReplays(o, l3);
      } else {
        l := l3;
      }
    }
  }

  /** Serving, the handler and the post-run closes close every open handle. */
  lemma ServeReplays(o: Foreign, l3: Ledger) returns (l: Ledger)
    requires l3.open == {Listener} + (if o.signalInit then {SigintWatcher} else {})
    ensures Replay(ServeEvents(o), l3) == Some(l)
    ensures l == l3.(open := {})
  {
    l := l3.(open := {});
    var flags := HandleFlags(true, false, o.signalInit, false);
    var handled := o.sigintBeforeReturn && o.signalInit;
    var closes := GuardedCloses(flags);
    var sigClose := if o.signalInit then [Close(SigintWatcher)] else [];
    assert closes == [Close(Listener)] + sigClose;
    var mid := l3.(open := l3.open - {Listener});
    ReplayAppend([Close(Listener)], sigClose, l3);
    ReplaySingle(Close(Listener), l3);
    if o.signalInit {
      ReplaySingle(Close(SigintWatcher), mid);
      assert mid.open - {SigintWatcher} == {};
    } else {
      assert mid.open == {};
    }
    assert Replay(sigClose, mid) == Some(l);
    assert Replay(closes, l3) == Some(l);
    var tail := (if handled then closes + [Stop] else []) + GuardedCloses(if handled then AfterGuardedCloses(flags) else flags);
    if handled {
      assert GuardedCloses(AfterGuardedCloses(flags)) == [];
      assert tail == closes + [Stop];
      ReplayAppend(closes, [Stop], l3);
      ReplaySingle(Stop, l);
    } else {
      assert tail == closes;
    }
    assert ServeEvents(o) == [Serve] + tail;
    ReplayAppend([Serve], tail, l3);
    ReplaySingle(Serve, l3);
  }

  /** Every resource a run acquires it acquires once and releases exactly
      once, on every path; nothing else is acquired. */
  lemma RunReleasesEachOnce(tls: bool, o: Foreign, r: Resource)
    ensures Count(RunEvents(tls, o), Acquire(r)) == Bit(r in AcquiredBy(tls, o))
    ensures Count(RunEvents(tls, o), Release(r)) == Count(RunEvents(tls, o), Acquire(r))
  {
    RunLedger(tls, o);
    ReplayCounts(RunEvents(tls, o), Empty, Ledger({}, Leftover(tls, o), AcquiredBy(tls, o), InitialisedBy(tls, o)), r, Listener);
  }

  /** Each handle is initialised at most once and closed only if it was,
      at most once; exactly the `Leftover` handles are not closed. */
  lemma RunClosesHandlesOnce(tls: bool, o: Foreign, h: Handle)
    ensures Count(RunEvents(tls, o), Init(h)) == Bit(h in InitialisedBy(tls, o))
    ensures Count(RunEvents(tls, o), Close(h)) == Bit(h in InitialisedBy(tls, o) && h !in Leftover(tls, o))
  {
    RunLedger(tls, o);
    ReplayCounts(RunEvents(tls, o), Empty, Ledger({}, Leftover(tls, o), AcquiredBy(tls, o), InitialisedBy(tls, o)), GlobalConf, h);
  }

  /** A failed `uv_loop_init` disposes only the config: no other resource,
      no handle, no cleanup, no serving. */
  lemma LoopInitFailure(tls: bool, o: Foreign)
    requires !o.loopInit
    ensures !RunSucceeds(tls, o)
    ensures forall e :: e in RunEvents(tls, o) ==> e == Acquire(GlobalConf) || e == Release(GlobalConf)
  {
  }

  /** The run serves connections exactly when it succeeds. */
  lemma ServesOnlyOnSuccess(tls: bool, o: Foreign)
    ensures Serve in RunEvents(tls, o) <==> RunSucceeds(tls, o)
  {
  }

  /** Once the loop was initialised every path, failing or not, ends in
      cleanup, which drains the loop right before closing it. */
  lemma DrainsBeforeLoopClose(tls: bool, o: Foreign)
    requires o.loopInit
    ensures var t := RunEvents(tls, o);
      && |t| >= 2 && t[|t| - 2] == Drain && t[|t| - 1] == Release(EventLoop)
  {
  }

  /** A TLS context created before a certificate or key load fails is still
      freed, by cleanup. */
  lemma TlsFailureFreesContext(o: Foreign)
    requires o.loopInit && o.sslCtxNew && !SslOk(o)
    ensures !RunSucceeds(true, o)
    ensures Count(RunEvents(true, o), Acquire(SslCtx)) == 1
    ensures Count(RunEvents(true, o), Release(SslCtx)) == 1
  {
    RunReleasesEachOnce(true, o, SslCtx);
  }

  // ---------------------------------------------------------------------
  // Client records of the accept callback

  /** A client record allocated by the accept callback. Each live record has
      exactly one release registered: `ClosePending` is closed with the
      freeing callback after a failed accept, `WithProtocol` was handed to
      the protocol layer with that same callback. */
  datatype ClientState = ClosePending | WithProtocol | Freed

  /** One call of the accept callback: listener status, whether `malloc`
      returned a record, whether `uv_accept` succeeded. */
  datatype Attempt = Attempt(status: int, mallocOk: bool, acceptOk: bool)

  /** The records one call allocates, with their state. */
  function Accepted(a: Attempt): seq<ClientState> {
    if a.status != 0 || !a.mallocOk then []
    else if !a.acceptOk then [ClosePending]
    else [WithProtocol]
  }

  /** The records a sequence of calls allocates, in call order. */
  function AcceptedAll(attempts: seq<Attempt>): seq<ClientState> {
    if attempts == [] then []
    else AcceptedAll(attempts[..|attempts| - 1]) + Accepted(attempts[|attempts| - 1])
  }

  /** The loop running the pending close callbacks, each of which frees its record. */
  function RunCloseCallbacks(cs: seq<ClientState>): seq<ClientState> {
    seq(|cs|, i requires 0 <= i < |cs| => if cs[i] == ClosePending then Freed else cs[i])
  }

  /** The connections the protocol layer holds closing, each close freeing
      its record. */
  function ProtocolCloses(cs: seq<ClientState>): seq<ClientState> {
    seq(|cs|, i requires 0 <= i < |cs| => if cs[i] == WithProtocol then Freed else cs[i])
  }

  /** The draining `uv_run` of cleanup: it returns only once no handle is
      active, so after the pending close callbacks it waits for every
      connection the protocol layer still holds to close. */
  function Drained(cs: seq<ClientState>): seq<ClientState> {
    ProtocolCloses(RunCloseCallbacks(cs))
  }

  /** Records allocated and not yet freed. */
  function Outstanding(cs: seq<ClientState>): nat {
    if cs == [] then 0 else Bit(cs[0] != Freed) + Outstanding(cs[1..])
  }

  /** Records the protocol layer holds. */
  function WithProtocolCount(cs: seq<ClientState>): nat {
    if cs == [] then 0 else Bit(cs[0] == WithProtocol) + WithProtocolCount(cs[1..])
  }

  lemma {:induction false} OutstandingAppend(a: seq<ClientState>, b: seq<ClientState>)
    ensures Outstanding(a + b) == Outstanding(a) + Outstanding(b)
    ensures WithProtocolCount(a + b) == WithProtocolCount(a) + WithProtocolCount(b)
    decreases |a|
  {
    if a == [] {
      assert a + b == b;
    } else {
      assert (a + b)[0] == a[0];
      assert (a + b)[1..] == a[1..] + b;
      OutstandingAppend(a[1..], b);
    }
  }

  /** Once the pending close callbacks have run, the only records still
      allocated are those the protocol layer holds. */
  lemma {:induction false} CloseCallbacksLeaveProtocolRecords(cs: seq<ClientState>)
    ensures Outstanding(RunCloseCallbacks(cs)) == WithProtocolCount(cs)
    decreases |cs|
  {
    if cs != [] {
      assert RunCloseCallbacks(cs)[1..] == RunCloseCallbacks(cs[1..]);
      CloseCallbacksLeaveProtocolRecords(cs[1..]);
    }
  }

  /** A completed drain leaves no client record allocated. This holds by the
      construction of `Drained`, which builds in libuv's rule that a
      `UV_RUN_DEFAULT` run returns only once no handle is active, so every
      connection has closed and its close callback has run; it is not a fact
      derived from the callbacks themselves. */
  lemma {:induction false} DrainFreesEvery(cs: seq<ClientState>)
    ensures Outstanding(Drained(cs)) == 0
    decreases |cs|
  {
    if cs != [] {
      assert Drained(cs)[1..] == Drained(cs[1..]);
      DrainFreesEvery(cs[1..]);
    }
  }

  /** Any number of accept calls with a non-zero status, no memory or a
      failed accept leave no record allocated once the pending close
      callbacks have run: zero net growth, with or without the protocol
      layer's connections closing. */
  lemma {:induction false} FailedAcceptsLeaveNothing(cs: seq<ClientState>, attempts: seq<Attempt>)
    requires forall i :: 0 <= i < |attempts| ==>
      attempts[i].status != 0 || !attempts[i].mallocOk || !attempts[i].acceptOk
    ensures Outstanding(RunCloseCallbacks(cs + AcceptedAll(attempts))) == Outstanding(RunCloseCallbacks(cs))
  {
    CloseCallbacksLeaveProtocolRecords(cs + AcceptedAll(attempts));
    CloseCallbacksLeaveProtocolRecords(cs);
    OutstandingAppend(cs, AcceptedAll(attempts));
    NoProtocolRecords(attempts);
  }

  lemma {:induction false} NoProtocolRecords(attempts: seq<Attempt>)
    requires forall i :: 0 <= i < |attempts| ==>
      attempts[i].status != 0 || !attempts[i].mallocOk || !attempts[i].acceptOk
    ensures WithProtocolCount(AcceptedAll(attempts)) == 0
    decreases |attempts|
  {
    if attempts != [] {
      var n := |attempts| - 1;
      var pre := attempts[..n];
      assert forall i :: 0 <= i < |pre| ==> pre[i] == attempts[i];
      NoProtocolRecords(pre);
      assert AcceptedAll(attempts) == AcceptedAll(pre) + Accepted(attempts[n]);
      assert WithProtocolCount(Accepted(attempts[n])) == 0;
      OutstandingAppend(AcceptedAll(pre), Accepted(attempts[n]));
    }
  }

  /** Freeing a live record through its close callback lowers the count of
      allocated records by exactly one. */
  lemma {:induction false} FreeingReleasesOne(cs: seq<ClientState>, i: nat)
    requires i < |cs| && cs[i] != Freed
    ensures Outstanding(cs[i := Freed]) == Outstanding(cs) - 1
    decreases |cs|
  {
    if i == 0 {
      assert cs[i := Freed][1..] == cs[1..];
    } else {
      assert cs[i := Freed][1..] == cs[1..][i - 1 := Freed];
      FreeingReleasesOne(cs[1..], i - 1);
    }
  }
}
