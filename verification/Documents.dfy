/** The resource documents that FGW is configured with: gateways with their
    listeners, routes with their parent references, backends and policies.
    An absent or empty name, section name or method is the empty string, as
    the source tests names for truthiness only. */
module Documents {
  import opened Sequences

  datatype Kind =
    | Gateway
    | HTTPRoute | GRPCRoute | TCPRoute | TLSRoute | UDPRoute | DubboRoute
    | Backend | BackendLBPolicy | BackendTLSPolicy | HealthCheckPolicy
    | OtherKind(spelling: string)

  /** A `port` field as it comes out of JSON or YAML: absent, a number, or a
      string that spells a number. */
  datatype Port = NoPort | Number(n: nat) | Spelled(n: nat)

  /** JavaScript `==` on ports; `===` is Dafny's own equality. */
  predicate LooselyEqual(a: Port, b: Port) {
    a == b || (!a.NoPort? && !b.NoPort? && a.n == b.n)
  }

  /** `listener.protocol`, with `listener.tls.mode` folded into TLS. */
  datatype Protocol = HTTP | HTTPS | TLSTerminate | TLSPassthrough | TLSOtherMode | TCP | UDP | Dubbo | UnknownProtocol

  datatype Listener = Listener(name: string, address: string, port: Port, protocol: Protocol)

  /** An entry of `spec.parentRefs`; also an entry of the dirty-router list. */
  datatype ParentRef = ParentRef(kind: Option<Kind>, name: string, port: Port, sectionName: string)

  /** An entry of a policy's `spec.targetRefs`. */
  datatype TargetRef = TargetRef(kind: Kind, name: string)

  /** One parsed file. Only the fields its kind uses are meaningful. */
  datatype Document = Document(
    kind: Option<Kind>,
    name: string,
    listeners: seq<Listener>,
    parentRefs: seq<ParentRef>,
    backendNames: seq<string>,
    targetRefs: seq<TargetRef>,
    targets: seq<string>)

  /** A kind that is no resource kind, but the name under which routers register
      their updaters. */
  const ROUTE := OtherKind("Route")

  const BLANK := Document(None, "", [], [], [], [], [])

  /** A loaded document. Every read of a file parses a new object, so `id`, the
      position of the load in the run, stands for object identity. */
  datatype Resource = Resource(id: nat, doc: Document)
}
