/** The part of a span that the topology engine reads, and the pure lookups
    that derive the ends of an edge from it. */
module Spans {

  datatype SpanKind = Unspecified | Internal | Server | Client | Producer | Consumer

  datatype StatusCode = StatusUnset | StatusOk | StatusError

  datatype ConnType = ConnService | ConnDatabase | ConnMessaging | ConnExternal | ConnEntry

  datatype Span = Span(
    spanId: string,
    parentSpanId: string,
    kind: SpanKind,
    durationNs: nat,
    statusCode: StatusCode,
    httpStatusCode: nat,
    serviceName: string,
    serviceNamespace: string,
    k8sNamespace: string,
    k8sWorkload: string,
    k8sNode: string,
    dbSystem: string,
    dbName: string,
    messagingSystem: string,
    messagingDest: string,
    rpcService: string,
    peerService: string,
    peerAddress: string,
    peerPort: nat)

  datatype Node = Node(service: string, namespace: string, workload: string, k8sNode: string)

  function ServiceKey(s: Span): string {
    if s.serviceNamespace != "" then s.serviceNamespace + "/" + s.serviceName else s.serviceName
  }

  predicate IsError(s: Span) {
    s.statusCode == StatusError || s.httpStatusCode >= 500
  }

  function NodeOf(s: Span): Node {
    Node(ServiceKey(s), s.k8sNamespace, s.k8sWorkload, s.k8sNode)
  }

  function ConnTypeOf(s: Span): ConnType {
    if s.dbSystem != "" then ConnDatabase
    else if s.messagingSystem != "" then ConnMessaging
    else ConnExternal
  }

  /** The decimal digits of a number. */
  function Decimal(n: nat): string {
    if n < 10 then ["0123456789"[n]] else Decimal(n / 10) + ["0123456789"[n % 10]]
  }

  /** The name of an unpaired client's target: the most descriptive one wins. */
  function PeerNameOf(s: Span): string {
    if s.dbSystem != "" then
      var name := if s.dbName == "" then s.peerAddress else s.dbName;
      if name == "" then s.dbSystem else s.dbSystem + ":" + name
    else if s.messagingSystem != "" then
      if s.messagingDest != "" then s.messagingSystem + ":" + s.messagingDest else s.messagingSystem
    else if s.peerService != "" then s.peerService
    else if s.rpcService != "" then s.rpcService
    else if s.peerAddress != "" then
      if s.peerPort != 0 then s.peerAddress + ":" + Decimal(s.peerPort) else s.peerAddress
    else ""
  }

  /** A client span leaves no name exactly when it carries none of the naming attributes. */
  lemma PeerNameEmptyIff(s: Span)
    ensures PeerNameOf(s) == "" <==>
            s.dbSystem == "" && s.messagingSystem == "" && s.peerService == "" && s.rpcService == "" && s.peerAddress == ""
  {
    if s.dbSystem != "" {
      assert |PeerNameOf(s)| >= |s.dbSystem|;
    } else if s.messagingSystem != "" {
      assert |PeerNameOf(s)| >= |s.messagingSystem|;
    } else if s.peerService == "" && s.rpcService == "" && s.peerAddress != "" {
      assert |PeerNameOf(s)| >= |s.peerAddress|;
    }
  }
}
