/** The PHP binding of ext/h2o.c: `php_h2o_read_str_option` and
    `h2o_server_run()`, written step by step over a request heap with
    `estrdup` / `efree`. It is proved to accept and reject exactly as
    `PhpOptions.ReadOptions` says, to hand the server exactly the record
    `ReadOptions` gives, and to free every string it duplicates exactly once,
    on every exit path. */
module H2oExt {
  import opened Wrappers
  import opened ServerConfig
  import opened PhpOptions
  import opened TeardownLedger
  import opened H2oServer

  /** A `char *`: NULL or the address of a block on the request heap. */
  datatype CPtr = NULL | Ptr(addr: nat)

  /** The block a pointer holds, as a set. */
  function Block(p: CPtr): set<nat> {
    if p.Ptr? then {p.addr} else {}
  }

  /** The request heap behind `estrdup` and `efree`. `live` holds the
      blocks allocated and not yet freed. `efree` of a block that is not
      live (a double free) is refused by its precondition, so a caller that
      ends with `live` as it began, having only allocated fresh blocks, has
      freed each of them exactly once. */
  class Heap {
    var contents: map<nat, string>
    var next: nat
    ghost var live: set<nat>

    /** Live blocks hold a string and lie below `next`, so the next block
        handed out is fresh. */
    ghost predicate Valid()
      reads this
    {
      forall a :: a in live ==> a < next && a in contents
    }

    constructor ()
      ensures Valid() && live == {}
    {
      contents, next := map[], 0;
      live := {};
    }

    /** `estrdup(s)`: a fresh block holding the C string of `s`. */
    method Estrdup(s: string) returns (p: CPtr)
      requires Valid()
      modifies this
      ensures Valid()
      ensures p.Ptr? && p.addr !in old(live)
      ensures contents == old(contents)[p.addr := CString(s)]
      ensures live == old(live) + {p.addr}
    {
      p := Ptr(next);
      contents := contents[next := CString(s)];
      live := live + {next};
      next := next + 1;
    }

    /** `efree(p)`: gives a live block back; `efree(NULL)` does nothing. */
    method Efree(p: CPtr)
      requires Valid()
      requires p.Ptr? ==> p.addr in live
      modifies this
      ensures Valid()
      ensures live == old(live) - Block(p)
      ensures contents == if p.Ptr? then old(contents) - {p.addr} else old(contents)
    {
      if p.Ptr? {
        contents := contents - {p.addr};
        live := live - {p.addr};
      }
    }
  }

  /** What `h2o_server_run()` did: raised an exception, or returned a bool. */
  datatype CallResult = Threw(thrown: Thrown) | Returned(value: bool)

  /** `strlen` of a C string held in a block: the characters before the
      first NUL. */
  function Strlen(s: string): (n: nat)
    ensures n <= |s| && '\0' !in s[..n]
    ensures n < |s| ==> s[n] == '\0'
  {
    |CString(s)|
  }

  /** The string a block holds, or `None` for NULL. */
  function Deref(contents: map<nat, string>, p: CPtr): Option<string>
    requires p.Ptr? ==> p.addr in contents
  {
    if p.Ptr? then Some(contents[p.addr]) else None
  }

  /** The port and the four pointers the binding holds once the options
      array has been read. */
  datatype Copies = Copies(port: uint16, host: CPtr, body: CPtr, cert: CPtr, key: CPtr)

  const NoCopies: Copies := Copies(DefaultPort, NULL, NULL, NULL, NULL)

  /** The copies are exactly the blocks allocated since `live0`, each its
      own block. */
  ghost predicate Owned(heap: Heap, live0: set<nat>, c: Copies)
    reads heap
  {
    && heap.live == live0 + Block(c.host) + Block(c.body) + Block(c.cert) + Block(c.key)
    && (c.host.Ptr? ==> c.host.addr !in live0)
    && (c.body.Ptr? ==> c.body.addr !in live0)
    && (c.cert.Ptr? ==> c.cert.addr !in live0)
    && (c.key.Ptr? ==> c.key.addr !in live0)
    && (c.host.Ptr? && c.body.Ptr? ==> c.host.addr != c.body.addr)
    && (c.host.Ptr? && c.cert.Ptr? ==> c.host.addr != c.cert.addr)
    && (c.host.Ptr? && c.key.Ptr? ==> c.host.addr != c.key.addr)
    && (c.body.Ptr? && c.cert.Ptr? ==> c.body.addr != c.cert.addr)
    && (c.body.Ptr? && c.key.Ptr? ==> c.body.addr != c.key.addr)
    && (c.cert.Ptr? && c.key.Ptr? ==> c.cert.addr != c.key.addr)
  }

  /** `php_h2o_read_str_option`, called as the binding calls it, with
      `*out` still NULL: `Ok(NULL)` is a missing or null value (the output
      left untouched), `Ok` of a fresh block is a string copied, `Err` is a
      value of another type, with nothing allocated. The result is exactly
      `StrOption`. */
  method ReadStrOption(heap: Heap, ht: OptionsArray, key: string) returns (res: Result<CPtr, Thrown>)
    requires heap.Valid()
    modifies heap
    ensures heap.Valid()
    ensures res.Err? ==> StrOption(ht, key) == Err(res.error) && unchanged(heap)
    ensures res.Ok? ==>
      var p := res.value;
      && (p.Ptr? ==> p.addr !in old(heap.live) && p.addr in heap.live)
      && heap.contents == (if p.Ptr? then old(heap.contents)[p.addr := heap.contents[p.addr]] else old(heap.contents))
      && StrOption(ht, key) == Ok(Deref(heap.contents, p))
      && heap.live == old(heap.live) + Block(p)
  {
    if key !in ht || ht[key].Null? {
      return Ok(NULL);
    }
    if !ht[key].Str? {
      return Err(TypeError(StringTypeMessage(key)));
    }
    var p := heap.Estrdup(ht[key].s);
    return Ok(p);
  }

  /** The `ht != NULL` block of `h2o_server_run()`: the port check, then
      the string options. A failure raises exactly `ReadArray`'s error with
      every copy made freed; success yields copies that hold exactly what
      `ReadArray` reads. */
  method ReadOptionsArray(heap: Heap, ht: OptionsArray) returns (res: Result<Copies, Thrown>)
    requires heap.Valid()
    modifies heap
    ensures heap.Valid()
    ensures res.Err? ==> ReadArray(ht) == Err(res.error) && heap.live == old(heap.live)
    ensures res.Ok? ==> Owned(heap, old(heap.live), res.value) && ReadArray(ht) == Ok(Held(heap, res.value))
  {
    var port: uint16 := DefaultPort;
    if "port" in ht && !ht["port"].Null? {
      if !ht["port"].Long? {
        return Err(TypeError(PortTypeMessage));
      }
      var n := ht["port"].n;
      if n < 1 || n > 65535 {
        return Err(ValueError(PortRangeMessage));
      }
      port := n as uint16;
    }
    assert PortOption(ht) == Ok(port);
    res := ReadStringOptions(heap, ht, port);
  }

  /** What the copies hold, as read from the array. */
  ghost function Held(heap: Heap, c: Copies): RawOptions
    reads heap
    requires c.host.Ptr? ==> c.host.addr in heap.contents
    requires c.body.Ptr? ==> c.body.addr in heap.contents
    requires c.cert.Ptr? ==> c.cert.addr in heap.contents
    requires c.key.Ptr? ==> c.key.addr in heap.contents
  {
    RawOptions(c.port,
      Deref(heap.contents, c.host), Deref(heap.contents, c.body),
      Deref(heap.contents, c.cert), Deref(heap.contents, c.key))
  }

  /** The four `php_h2o_read_str_option` calls of `h2o_server_run()`,
      each failure freeing the copies made before it. */
  method ReadStringOptions(heap: Heap, ht: OptionsArray, port: uint16) returns (res: Result<Copies, Thrown>)
    requires heap.Valid()
    modifies heap
    ensures heap.Valid()
    ensures res.Err? ==> ReadStrings(ht, port) == Err(res.error) && heap.live == old(heap.live)
    ensures res.Ok? ==>
      && res.value.port == port
      && Owned(heap, old(heap.live), res.value)
      && ReadStrings(ht, port) == Ok(Held(heap, res.value))
  {
    var rh := ReadStrOption(heap, ht, "host");
    if rh.Err? {
      return Err(rh.error);
    }
    var host := rh.value;
    ghost var hv := Deref(heap.contents, host);

    var rb := ReadStrOption(heap, ht, "response_body");
    if rb.Err? {
      heap.Efree(host);
      return Err(rb.error);
    }
    var body := rb.value;
    assert Deref(heap.contents, host) == hv;
    res := ReadTlsOptions(heap, ht, Copies(port, host, body, NULL, NULL), old(heap.live));
  }

  /** The certificate and key reads, given the host and body copies
      already made: a failure frees those and the certificate copy. */
  method ReadTlsOptions(heap: Heap, ht: OptionsArray, c: Copies, ghost live0: set<nat>) returns (res: Result<Copies, Thrown>)
    requires heap.Valid() && c.cert.NULL? && c.key.NULL? && Owned(heap, live0, c)
    modifies heap
    ensures heap.Valid()
    ensures res.Err? ==> ReadTls(ht) == Err(res.error) && heap.live == live0
    ensures res.Ok? ==>
      && res.value == c.(cert := res.value.cert, key := res.value.key)
      && Owned(heap, live0, res.value)
      && Deref(heap.contents, c.host) == Deref(old(heap.contents), c.host)
      && Deref(heap.contents, c.body) == Deref(old(heap.contents), c.body)
      && ReadTls(ht) == Ok((Deref(heap.contents, res.value.cert), Deref(heap.contents, res.value.key)))
  {
    var rc := ReadStrOption(heap, ht, "tls_cert");
    if rc.Err? {
      heap.Efree(c.host);
      heap.Efree(c.body);
      return Err(rc.error);
    }
    var cert := rc.value;
    ghost var cv := Deref(heap.contents, cert);

    var rk := ReadStrOption(heap, ht, "tls_key");
    if rk.Err? {
      heap.Efree(c.host);
      assert heap.live == live0 + Block(c.body) + Block(cert);
      heap.Efree(c.body);
      assert heap.live == live0 + Block(cert);
      heap.Efree(cert);
      return Err(rk.error);
    }
    assert Deref(heap.contents, cert) == cv;
    res := Ok(c.(cert := cert, key := rk.value));
  }

  /** `PHP_FUNCTION(h2o_server_run)`: `None` is an omitted or null
      options argument. The outcome is exactly `ReadOptions(args)`: an
      exception before the server is touched, or the run of exactly the
      record `ReadOptions` gives, returning whether it succeeded and leaving
      no client record allocated once the loop was initialised. Whatever
      the exit, the heap's live blocks are as before the call: every string
      duplicated on the way is freed, exactly once. */
  method H2oServerRun(args: Option<OptionsArray>, heap: Heap, server: Server, o: Foreign) returns (r: CallResult)
    requires heap.Valid() && server.Idle()
    modifies heap, server
    ensures heap.Valid() && heap.live == old(heap.live)
    ensures server.Idle()
    ensures match ReadOptions(args)
      case Err(e) => r == Threw(e) && unchanged(server)
      case Ok(opts) =>
        && r == Returned(RunSucceeds(opts.HasTls(), o))
        && server.trace == old(server.trace) + RunEvents(opts.HasTls(), o)
        && server.responseBody == opts.responseBody && server.responseBodyLen == opts.responseBodyLen
        && server.responseBodyLen == |server.responseBody|
        && server.clients ==
          (if !o.loopInit then old(server.clients)
           else Drained(old(server.clients) + if RunSucceeds(opts.HasTls(), o) then AcceptedAll(o.accepts) else []))
        && (o.loopInit ==> Outstanding(server.clients) == 0)
  {
    ghost var L0 := heap.live;
    var checked := CheckOptions(args, heap);
    if checked.Err? {
      return Threw(checked.error);
    }
    var (opts, c) := checked.value;
    var status := server.Run(opts, o);
    AcceptedBodyLength(args);
    FreeCopies(heap, L0, c);
    return Returned(status == Success);
  }

  /** The validation half of `h2o_server_run()`: the array reads, the
      record built from the copies, and the pairing check. On success the
      copies stay live, owned by the caller, and the record is the one
      `ReadOptions` gives; on failure every copy is already freed. */
  method CheckOptions(args: Option<OptionsArray>, heap: Heap) returns (res: Result<(ServerOptions, Copies), Thrown>)
    requires heap.Valid()
    modifies heap
    ensures heap.Valid()
    ensures res.Err? ==> ReadOptions(args) == Err(res.error) && heap.live == old(heap.live)
    ensures res.Ok? ==> ReadOptions(args) == Ok(res.value.0) && Owned(heap, old(heap.live), res.value.1)
  {
    ghost var L0 := heap.live;
    var c := NoCopies;
    if args.Some? {
      var read := ReadOptionsArray(heap, args.value);
      if read.Err? {
        RejectedArray(args.value);
        return Err(read.error);
      }
      c := read.value;
    }
    assert Owned(heap, L0, c);
    ghost var raw := Held(heap, c);
    assert (if args.Some? then ReadArray(args.value) else Ok(NoOptions)) == Ok(raw);
    ReadArrayThenPairing(args, raw);

    var opts := ServerOptions(DefaultHost, c.port, DefaultBody, |DefaultBody|, None, None);
    if c.host.Ptr? {
      opts := opts.(host := heap.contents[c.host.addr]);
    }
    if c.body.Ptr? {
      var copy := heap.contents[c.body.addr];
      opts := opts.(responseBody := copy, responseBodyLen := Strlen(copy));
    }
    opts := opts.(tlsCert := Deref(heap.contents, c.cert), tlsKey := Deref(heap.contents, c.key));
    assert opts == Assemble(raw);

    if c.cert.NULL? != c.key.NULL? {
      FreeCopies(heap, L0, c);
      return Err(ValueError(PairingMessage));
    }
    return Ok((opts, c));
  }

  /** A failed read of the array is the outcome of the whole validation. */
  lemma RejectedArray(ht: OptionsArray)
    requires ReadArray(ht).Err?
    ensures ReadOptions(Some(ht)) == Err(ReadArray(ht).error)
  {
  }

  /** Once the array is read, only the pairing check remains. */
  lemma ReadArrayThenPairing(args: Option<OptionsArray>, raw: RawOptions)
    requires (if args.Some? then ReadArray(args.value) else Ok(NoOptions)) == Ok(raw)
    ensures ReadOptions(args) ==
      var opts := Assemble(raw);
      if opts.tlsCert.None? != opts.tlsKey.None? then Err(ValueError(PairingMessage)) else Ok(opts)
  {
  }

  /** The four `efree` calls that end every path after the array was read. */
  method FreeCopies(heap: Heap, ghost live0: set<nat>, c: Copies)
    requires heap.Valid() && Owned(heap, live0, c)
    modifies heap
    ensures heap.Valid() && heap.live == live0
  {
    heap.Efree(c.host);
    assert heap.live == live0 + Block(c.body) + Block(c.cert) + Block(c.key);
    heap.Efree(c.body);
    assert heap.live == live0 + Block(c.cert) + Block(c.key);
    heap.Efree(c.cert);
    assert heap.live == live0 + Block(c.key);
    heap.Efree(c.key);
  }
}
