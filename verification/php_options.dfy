/** What `h2o_server_run()` (ext/h2o.c) accepts: the pure reading of the
    PHP options array into a `ServerOptions` record, or the exception it
    raises instead. The imperative binding in module H2oExt is proved to
    compute exactly `ReadOptions`. */
module PhpOptions {
  import opened Wrappers
  import opened ServerConfig

  /** A value of the options array, by its zval type. `Other` stands for
      every type the binding rejects (bool, float, array, object, ...). */
  datatype ZValue = Null | Long(n: int) | Str(s: string) | Other

  /** The PHP options array, looked up by string key. */
  type OptionsArray = map<string, ZValue>

  /** The exception left pending when the function returns early. */
  datatype Thrown = TypeError(message: string) | ValueError(message: string)

  const DefaultHost: string := "0.0.0.0"
  const DefaultPort: uint16 := 8080
  const DefaultBody: string := "OK\n"

  const PortTypeMessage: string := "Option 'port' must be int"
  const PortRangeMessage: string := "Option 'port' must be between 1 and 65535"
  const PairingMessage: string := "Both 'tls_cert' and 'tls_key' must be set together"

  function StringTypeMessage(key: string): string {
    "Option '" + key + "' must be string"
  }

  /** The string options, in the order the binding reads them after the port. */
  const StringKeys: seq<string> := ["host", "response_body", "tls_cert", "tls_key"]

  /** The C copy `estrdup(ZSTR_VAL(s))` of a PHP string: a PHP string may
      hold NUL characters, a C string ends at the first one. */
  function CString(s: string): (r: string)
    ensures |r| <= |s| && r == s[..|r|]
    ensures '\0' !in r
    ensures |r| < |s| ==> s[|r|] == '\0'
  {
    if s == [] || s[0] == '\0' then [] else [s[0]] + CString(s[1..])
  }

  /** `php_h2o_read_str_option`: a missing or null value leaves the output
      alone, a string is copied, anything else is a type error. */
  function StrOption(ht: OptionsArray, key: string): Result<Option<string>, Thrown> {
    if key !in ht || ht[key].Null? then Ok(None)
    else if !ht[key].Str? then Err(TypeError(StringTypeMessage(key)))
    else Ok(Some(CString(ht[key].s)))
  }

  /** The port check: a present, non-null port must be an integer in 1..65535. */
  function PortOption(ht: OptionsArray): Result<uint16, Thrown> {
    if "port" !in ht || ht["port"].Null? then Ok(DefaultPort)
    else if !ht["port"].Long? then Err(TypeError(PortTypeMessage))
    else if ht["port"].n < 1 || ht["port"].n > 65535 then Err(ValueError(PortRangeMessage))
    else Ok(ht["port"].n as uint16)
  }

  /** What was read from the array before the record is assembled; `None`
      is a pointer still NULL. */
  datatype RawOptions = RawOptions(
    port: uint16,
    host: Option<string>,
    body: Option<string>,
    cert: Option<string>,
    key: Option<string>)

  const NoOptions: RawOptions := RawOptions(DefaultPort, None, None, None, None)

  /** The reads of the options array, in source order; the first failure wins. */
  function ReadArray(ht: OptionsArray): Result<RawOptions, Thrown> {
    var port :- PortOption(ht);
    ReadStrings(ht, port)
  }

  /** The four string reads that follow the port check. */
  function ReadStrings(ht: OptionsArray, port: uint16): Result<RawOptions, Thrown> {
    var host :- StrOption(ht, "host");
    var body :- StrOption(ht, "response_body");
    var tls :- ReadTls(ht);
    Ok(RawOptions(port, host, body, tls.0, tls.1))
  }

  /** The certificate and key reads, the last two. */
  function ReadTls(ht: OptionsArray): Result<(Option<string>, Option<string>), Thrown> {
    var cert :- StrOption(ht, "tls_cert");
    var key :- StrOption(ht, "tls_key");
    Ok((cert, key))
  }

  /** Defaults overridden by what was read; the body length is `strlen` of the copy. */
  function Assemble(raw: RawOptions): ServerOptions {
    ServerOptions(
      if raw.host.Some? then raw.host.value else DefaultHost,
      raw.port,
      if raw.body.Some? then raw.body.value else DefaultBody,
      if raw.body.Some? then |raw.body.value| else |DefaultBody|,
      raw.cert,
      raw.key)
  }

  /** The whole validation: `None` is an omitted or null options argument. */
  function ReadOptions(args: Option<OptionsArray>): Result<ServerOptions, Thrown> {
    var raw :- if args.Some? then ReadArray(args.value) else Ok(NoOptions);
    var opts := Assemble(raw);
    if opts.tlsCert.None? != opts.tlsKey.None? then Err(ValueError(PairingMessage))
    else Ok(opts)
  }

  // ---------------------------------------------------------------------
  // An independent, declarative statement of what is accepted

  /** The key holds a PHP string. */
  predicate Given(ht: OptionsArray, key: string) {
    key in ht && ht[key].Str?
  }

  /** The key is absent, null, or of the right type. */
  predicate StringTyped(ht: OptionsArray, key: string) {
    key !in ht || ht[key].Null? || ht[key].Str?
  }

  predicate PortAcceptable(ht: OptionsArray) {
    "port" !in ht || ht["port"].Null? || (ht["port"].Long? && 1 <= ht["port"].n <= 65535)
  }

  /** Every check passes: port, the four string types, and TLS pairing. */
  predicate Acceptable(ht: OptionsArray) {
    && PortAcceptable(ht)
    && (forall i :: 0 <= i < |StringKeys| ==> StringTyped(ht, StringKeys[i]))
    && (Given(ht, "tls_cert") <==> Given(ht, "tls_key"))
  }

  /** Each check's verdict, in the order the binding makes them. */
  function Checks(ht: OptionsArray): seq<Option<Thrown>> {
    [ if PortAcceptable(ht) then None
      else if !ht["port"].Long? then Some(TypeError(PortTypeMessage))
      else Some(ValueError(PortRangeMessage)) ]
    + seq(|StringKeys|, i requires 0 <= i < |StringKeys| =>
        if StringTyped(ht, StringKeys[i]) then None else Some(TypeError(StringTypeMessage(StringKeys[i]))))
    + [ if Given(ht, "tls_cert") <==> Given(ht, "tls_key") then None else Some(ValueError(PairingMessage)) ]
  }

  /** The first failing check of a list. */
  function FirstError(checks: seq<Option<Thrown>>): (r: Option<Thrown>)
    ensures r.None? <==> forall i :: 0 <= i < |checks| ==> checks[i].None?
    ensures r.Some? ==> exists i :: 0 <= i < |checks| && checks[i] == r
                          && forall j :: 0 <= j < i ==> checks[j].None?
  {
    if checks == [] then None
    else if checks[0].Some? then checks[0]
    else
      var r := FirstError(checks[1..]);
      assert forall i :: 1 <= i < |checks| ==> checks[i] == checks[1..][i - 1];
      if r.Some? then
        ghost var k :| 0 <= k < |checks[1..]| && checks[1..][k] == r
                       && forall j :: 0 <= j < k ==> checks[1..][j].None?;
        assert checks[k + 1] == r;
        r
      else r
  }

  // ---------------------------------------------------------------------
  // Properties

  /** Without an options array, or with one that sets nothing, the record is
      the defaults: host 0.0.0.0, port 8080, body "OK\n" of length 3, no TLS. */
  lemma DefaultsWhenNothingGiven(args: Option<OptionsArray>)
    requires args.Some? ==> forall key :: key in args.value ==> args.value[key].Null?
    ensures ReadOptions(args).Ok?
    ensures var opts := ReadOptions(args).value;
      && opts.host == "0.0.0.0" && opts.port == 8080
      && opts.responseBody == "OK\n" && opts.responseBodyLen == 3
      && opts.tlsCert.None? && opts.tlsKey.None?
  {
  }

  /** A present, non-null port that is not an integer is a type error. */
  lemma PortMustBeInt(ht: OptionsArray)
    requires "port" in ht && !ht["port"].Null? && !ht["port"].Long?
    ensures ReadOptions(Some(ht)) == Err(TypeError(PortTypeMessage))
  {
  }

  /** An integer port fails with a value error exactly when it lies outside
      1..65535; inside the range the validation is as if the port were
      absent, except that the port is stored unchanged. */
  lemma PortRange(ht: OptionsArray, p: int)
    requires "port" in ht && ht["port"] == Long(p)
    ensures ReadOptions(Some(ht)) == Err(ValueError(PortRangeMessage)) <==> (p < 1 || p > 65535)
    ensures 1 <= p <= 65535 ==>
      match ReadOptions(Some(ht - {"port"}))
      case Ok(opts) => ReadOptions(Some(ht)) == Ok(opts.(port := p as uint16))
      case Err(e) => ReadOptions(Some(ht)) == Err(e)
  {
    if 1 <= p <= 65535 {
      var ht' := ht - {"port"};
      forall key | key != "port" ensures StrOption(ht, key) == StrOption(ht', key) {
      }
    }
  }

  /** `php_h2o_read_str_option`: a missing or null value succeeds and gives
      nothing, a string gives its C copy, any other value is a type error
      naming the key. */
  lemma StringOptionOutcomes(ht: OptionsArray, key: string)
    ensures StrOption(ht, key) == Ok(None) <==> key !in ht || ht[key].Null?
    ensures StrOption(ht, key).Err? <==> !StringTyped(ht, key)
    ensures StrOption(ht, key).Err? ==> StrOption(ht, key).error == TypeError(StringTypeMessage(key))
    ensures Given(ht, key) ==> StrOption(ht, key) == Ok(Some(CString(ht[key].s)))
  {
  }

  /** Whatever the array, a successful read yields exactly the record the
      given values describe, each absent or null one replaced by its default. */
  lemma ReadOptionsFields(ht: OptionsArray)
    requires ReadOptions(Some(ht)).Ok?
    ensures var opts := ReadOptions(Some(ht)).value;
      && opts.port as int == (if "port" in ht && ht["port"].Long? then ht["port"].n else 8080)
      && opts.host == (if Given(ht, "host") then CString(ht["host"].s) else DefaultHost)
      && opts.responseBody == (if Given(ht, "response_body") then CString(ht["response_body"].s) else DefaultBody)
      && opts.tlsCert == (if Given(ht, "tls_cert") then Some(CString(ht["tls_cert"].s)) else None)
      && opts.tlsKey == (if Given(ht, "tls_key") then Some(CString(ht["tls_key"].s)) else None)
      && opts.responseBodyLen == |opts.responseBody|
  {
  }

  /** Every accepted record, with or without an options array, carries the
      body with its own length: 3 for the default, `strlen` of the copy
      otherwise. */
  lemma AcceptedBodyLength(args: Option<OptionsArray>)
    requires ReadOptions(args).Ok?
    ensures ReadOptions(args).value.responseBodyLen == |ReadOptions(args).value.responseBody|
  {
  }

  /** A supplied body replaces the default and its recorded length is the
      length of the copy; for a body without NUL that is the body itself
      and its own length. */
  lemma BodyReplacesDefault(ht: OptionsArray, body: string)
    requires "response_body" in ht && ht["response_body"] == Str(body)
    requires ReadOptions(Some(ht)).Ok?
    ensures ReadOptions(Some(ht)).value.responseBody == CString(body)
    ensures ReadOptions(Some(ht)).value.responseBodyLen == |CString(body)|
    ensures '\0' !in body ==>
      ReadOptions(Some(ht)).value.responseBody == body && ReadOptions(Some(ht)).value.responseBodyLen == |body|
  {
  }

  /** A string without NUL is copied whole. */
  lemma NoNulCopiedWhole(s: string)
    requires '\0' !in s
    ensures CString(s) == s
  {
  }

  /** Certificate and key are accepted only together: whenever the other
      checks pass, exactly one of them given is a value error, and an
      accepted record has both or neither. */
  lemma TlsPairing(ht: OptionsArray)
    ensures ReadOptions(Some(ht)).Ok? ==>
      ReadOptions(Some(ht)).value.tlsCert.Some? == ReadOptions(Some(ht)).value.tlsKey.Some?
    ensures ReadArray(ht).Ok? && Given(ht, "tls_cert") != Given(ht, "tls_key") ==>
      ReadOptions(Some(ht)) == Err(ValueError(PairingMessage))
  {
  }

  /** The validation accepts exactly the arrays that pass every check. */
  lemma AcceptsExactly(ht: OptionsArray)
    ensures ReadOptions(Some(ht)).Ok? <==> Acceptable(ht)
  {
    StringKeysTyped(ht);
  }

  lemma StringKeysTyped(ht: OptionsArray)
    ensures ReadArray(ht).Ok? <==> PortAcceptable(ht) && forall i :: 0 <= i < |StringKeys| ==> StringTyped(ht, StringKeys[i])
    ensures ReadArray(ht).Ok? ==>
      (ReadArray(ht).value.cert.Some? <==> Given(ht, "tls_cert")) &&
      (ReadArray(ht).value.key.Some? <==> Given(ht, "tls_key"))
  {
    assert StringKeys[0] == "host" && StringKeys[1] == "response_body";
    assert StringKeys[2] == "tls_cert" && StringKeys[3] == "tls_key";
    var each := StringTyped(ht, "host") && StringTyped(ht, "response_body")
      && StringTyped(ht, "tls_cert") && StringTyped(ht, "tls_key");
    assert each <==> forall i :: 0 <= i < |StringKeys| ==> StringTyped(ht, StringKeys[i]);
  }

  /** The error raised is the first failing check in the order port, host,
      response_body, tls_cert, tls_key, pairing. */
  lemma ErrorIsFirstFailingCheck(ht: OptionsArray)
    ensures ReadOptions(Some(ht)).Err? <==> FirstError(Checks(ht)).Some?
    ensures ReadOptions(Some(ht)).Err? ==> ReadOptions(Some(ht)).error == FirstError(Checks(ht)).value
  {
    var c := Checks(ht);
    assert c[0] == (if PortAcceptable(ht) then None
      else if !ht["port"].Long? then Some(TypeError(PortTypeMessage))
      else Some(ValueError(PortRangeMessage)));
    assert c[1] == (if StringTyped(ht, "host") then None else Some(TypeError(StringTypeMessage("host"))));
    assert c[2] == (if StringTyped(ht, "response_body") then None else Some(TypeError(StringTypeMessage("response_body"))));
    assert c[3] == (if StringTyped(ht, "tls_cert") then None else Some(TypeError(StringTypeMessage("tls_cert"))));
    assert c[4] == (if StringTyped(ht, "tls_key") then None else Some(TypeError(StringTypeMessage("tls_key"))));
    assert c[5] == (if Given(ht, "tls_cert") <==> Given(ht, "tls_key") then None else Some(ValueError(PairingMessage)));
    assert |c| == 6;
    FirstOfSix(c);
    if PortOption(ht).Err? {
      assert ReadArray(ht) == Err(PortOption(ht).error);
    } else if StrOption(ht, "host").Err? {
      assert ReadArray(ht) == Err(StrOption(ht, "host").error);
    } else if StrOption(ht, "response_body").Err? {
      assert ReadArray(ht) == Err(StrOption(ht, "response_body").error);
    } else if ReadTls(ht).Err? {
      assert ReadArray(ht) == Err(ReadTls(ht).error);
    } else {
      assert ReadArray(ht).Ok?;
    }
  }

  /** FirstError unrolled on a list of six checks. */
  lemma FirstOfSix(c: seq<Option<Thrown>>)
    requires |c| == 6
    ensures FirstError(c) ==
      if c[0].Some? then c[0] else if c[1].Some? then c[1] else if c[2].Some? then c[2]
      else if c[3].Some? then c[3] else if c[4].Some? then c[4] else c[5]
  {
  }
}
