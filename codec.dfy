/** Validation of an IPC request (src/ipc/codec.ts:25-43), over the value `JSON.parse` has
    already produced. */
module Codec {
  import opened Wrappers
  import opened Config

  /** The six request methods (src/ipc/codec.ts:9-16). */
  datatype IpcMethod = Execute | TreeMethod | Ping | Version | Debug | ConfigMethod

  function MethodName(m: IpcMethod): string {
    match m
    case Execute => "execute"
    case TreeMethod => "tree"
    case Ping => "ping"
    case Version => "version"
    case Debug => "debug"
    case ConfigMethod => "config"
  }

  /** `methods.has(name)`: the method a name denotes, if any. */
  function MethodNamed(name: string): (m: Option<IpcMethod>)
    ensures m.Some? <==> name in {"execute", "tree", "ping", "version", "debug", "config"}
    ensures m.Some? ==> MethodName(m.value) == name
  {
    if name == "execute" then Some(Execute)
    else if name == "tree" then Some(TreeMethod)
    else if name == "ping" then Some(Ping)
    else if name == "version" then Some(Version)
    else if name == "debug" then Some(Debug)
    else if name == "config" then Some(ConfigMethod)
    else None
  }

  /** Every method is recognised by its own name. */
  lemma MethodNames(m: IpcMethod)
    ensures MethodNamed(MethodName(m)) == Some(m)
  {
  }

  /** IpcRequest: `params` is passed on as it came, possibly absent (Undefined). */
  datatype Request = Request(id: string, ipcMethod: IpcMethod, params: Value)

  datatype Decoded = Decoded(request: Request) | Invalid(message: string)

  /** JavaScript truthiness of a parsed value. */
  predicate Truthy(v: Value) {
    match v
    case Undefined => false
    case Null => false
    case Bool(b) => b
    case Num(n) => n != 0.0
    case NonFinite => true
    case Str(s) => s != []
    case Func => true
    case Object(_) => true
  }

  /** decodeRequest after parsing (src/ipc/codec.ts:25-43): a falsy or non-object value is an
      invalid request; then the id must be a non-empty string and the method one of the six
      names; the fields come back unchanged. */
  function DecodeRequest(parsed: Value): (r: Decoded)
    ensures !parsed.Object? ==> r == Invalid("Invalid request")
    ensures parsed.Object? && !(Field(parsed, "id").Str? && Field(parsed, "id").s != []) ==>
              r == Invalid("Invalid request id")
    ensures r.Decoded? <==>
              && parsed.Object?
              && Field(parsed, "id").Str? && Field(parsed, "id").s != []
              && Field(parsed, "method").Str? && MethodNamed(Field(parsed, "method").s).Some?
    ensures r.Decoded? ==> r.request == Request(Field(parsed, "id").s, MethodNamed(Field(parsed, "method").s).value,
                                                Field(parsed, "params"))
    ensures r.Invalid? ==> r.message in {"Invalid request", "Invalid request id", "Invalid request method"}
  {
    if !Truthy(parsed) || !parsed.Object? then Invalid("Invalid request")
    else
      var id := Field(parsed, "id");
      var ipcMethod := Field(parsed, "method");
      if !id.Str? || |id.s| == 0 then Invalid("Invalid request id")
      else if !ipcMethod.Str? || MethodNamed(ipcMethod.s).None? then Invalid("Invalid request method")
      else Decoded(Request(id.s, MethodNamed(ipcMethod.s).value, Field(parsed, "params")))
  }

  /** The object a client sends for a request decodes back to that request. */
  lemma DecodeRoundTrip(req: Request)
    requires req.id != []
    ensures DecodeRequest(Object(map["id" := Str(req.id), "method" := Str(MethodName(req.ipcMethod)),
                                     "params" := req.params])) == Decoded(req)
  {
    MethodNames(req.ipcMethod);
  }
}
