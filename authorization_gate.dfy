/**
 * The authorization gate of the upload server (canUploadVersionedPipeline):
 * decides whether a pipeline or pipeline version may be created, filling in
 * the resource attributes it hands to the authorization backend.
 */
module AuthorizationGate {
  import opened Wrappers
  import opened UploadTypes

  datatype GateError = LookupFailed | AuthorizationFailure

  /** The gate's verdict, the attributes as it leaves them and the calls it made. */
  datatype GateResult = GateResult(err: Option<GateError>, attributes: Attributes, calls: seq<Call>)

  /** The mutable attribute record the handlers build and the gate updates in place. */
  class ResourceAttributes {
    var namespace: string
    var verb: string
    var group: string
    var version: string
    var resource: string

    constructor (namespace: string, verb: string)
      ensures Value() == NewAttributes(namespace, verb)
    {
      this.namespace := namespace;
      this.verb := verb;
      group, version, resource := "", "", "";
    }

    function Value(): Attributes
      reads this
    {
      Attributes(namespace, verb, group, version, resource)
    }
  }

  /**
   * Copies every inbound header into the metadata handed to the authorizer,
   * one key at a time, in no particular order.
   */
  method ForwardHeaders(header: Header) returns (md: Metadata)
    ensures md == header
  {
    md := map[];
    var pending := header.Keys;
    while pending != {}
      invariant pending <= header.Keys
      invariant md.Keys == header.Keys - pending
      invariant forall key | key in md :: md[key] == header[key]
      decreases pending
    {
      var key :| key in pending;
      md := md[key := header[key]];
      pending := pending - {key};
    }
  }

  /** What the gate does, given the attributes it is handed. */
  function Gate(env: Collaborators, header: Header, pipelineId: string, a: Attributes): (r: GateResult)
    ensures r.attributes.verb == a.verb
    ensures a.namespace != "" ==> r.attributes.namespace == a.namespace
    ensures r.err.Some? ==> env.multiUser
    ensures NoCreate(r.calls)
  {
    if !env.multiUser then
      GateResult(None, a, [])
    else if |pipelineId| > 0 && pipelineId !in env.namespaceOf then
      GateResult(Some(LookupFailed), a, [GetNamespaceFromPipelineID(pipelineId)])
    else
      var lookups := if |pipelineId| > 0 then [GetNamespaceFromPipelineID(pipelineId)] else [];
      var resolved :=
        if |pipelineId| > 0 && |a.namespace| == 0 then a.(namespace := env.namespaceOf[pipelineId]) else a;
      if resolved.namespace == "" then
        GateResult(None, resolved, lookups)
      else
        var stamped := resolved.(group := RbacPipelinesGroup, version := RbacPipelinesVersion,
                                 resource := RbacResourceTypePipelines);
        var err := if env.isAuthorized(stamped, header) then None else Some(AuthorizationFailure);
        GateResult(err, stamped, lookups + [IsAuthorized(stamped, header)])
  }

  /** canUploadVersionedPipeline: the gate run on the attribute record in place. */
  method CanUploadVersionedPipeline(env: Collaborators, header: Header, pipelineId: string, attrs: ResourceAttributes)
    returns (err: Option<GateError>, calls: seq<Call>)
    modifies attrs
    ensures GateResult(err, attrs.Value(), calls) == Gate(env, header, pipelineId, old(attrs.Value()))
  {
    calls := [];
    if !env.multiUser {
      return None, calls;
    }
    if |pipelineId| > 0 {
      calls := calls + [GetNamespaceFromPipelineID(pipelineId)];
      if pipelineId !in env.namespaceOf {
        return Some(LookupFailed), calls;
      }
      var namespace := env.namespaceOf[pipelineId];
      if |attrs.namespace| == 0 {
        attrs.namespace := namespace;
      }
    }
    if attrs.namespace == "" {
      return None, calls;
    }
    attrs.group := RbacPipelinesGroup;
    attrs.version := RbacPipelinesVersion;
    attrs.resource := RbacResourceTypePipelines;
    var md := ForwardHeaders(header);
    var checked := attrs.Value();
    calls := calls + [IsAuthorized(checked, md)];
    if !env.isAuthorized(checked, md) {
      return Some(AuthorizationFailure), calls;
    }
    return None, calls;
  }

  /** Outside multi-user mode the gate allows everything and touches nothing. */
  lemma SingleUserGateIsNoOp(env: Collaborators, header: Header, pipelineId: string, a: Attributes)
    requires !env.multiUser
    ensures Gate(env, header, pipelineId, a) == GateResult(None, a, [])
  {
  }

  /**
   * With a pipeline id whose lookup succeeds, the looked-up namespace is taken
   * only when the record had none; a namespace already set is kept.
   */
  lemma GateInheritsOnlyMissingNamespace(env: Collaborators, header: Header, pipelineId: string, a: Attributes)
    requires env.multiUser && |pipelineId| > 0 && pipelineId in env.namespaceOf
    ensures var r := Gate(env, header, pipelineId, a);
      && |r.calls| > 0 && r.calls[0] == GetNamespaceFromPipelineID(pipelineId)
      && r.attributes.namespace == (if a.namespace == "" then env.namespaceOf[pipelineId] else a.namespace)
  {
  }

  /**
   * With a pipeline id whose lookup fails, the gate fails before the
   * authorizer, whatever namespace the record already holds.
   */
  lemma GateLookupFailureDenies(env: Collaborators, header: Header, pipelineId: string, a: Attributes)
    requires env.multiUser && |pipelineId| > 0 && pipelineId !in env.namespaceOf
    ensures var r := Gate(env, header, pipelineId, a);
      && r.err == Some(LookupFailed) && NoAuthorization(r.calls) && r.attributes == a
  {
  }

  /**
   * When no namespace results from the record and the lookup, the gate
   * allows the upload without asking the authorizer and stamps nothing.
   */
  lemma GateEmptyNamespaceSkipsAuthorizer(env: Collaborators, header: Header, pipelineId: string, a: Attributes)
    requires env.multiUser && a.namespace == ""
    requires |pipelineId| == 0 || (pipelineId in env.namespaceOf && env.namespaceOf[pipelineId] == "")
    ensures var r := Gate(env, header, pipelineId, a);
      && r.err == None && NoAuthorization(r.calls) && r.attributes == a
  {
  }

  /**
   * When a namespace results, the gate stamps the pipelines group, version
   * and resource, keeps namespace and verb, asks the authorizer exactly once
   * as its last call with those attributes and the forwarded headers, and
   * fails exactly when the authorizer refuses.
   */
  lemma GateScopedAsksAuthorizer(env: Collaborators, header: Header, pipelineId: string, a: Attributes)
    requires env.multiUser
    requires |pipelineId| == 0 || pipelineId in env.namespaceOf
    requires a.namespace != "" || (|pipelineId| > 0 && env.namespaceOf[pipelineId] != "")
    ensures var r := Gate(env, header, pipelineId, a);
      var ns := if a.namespace == "" then env.namespaceOf[pipelineId] else a.namespace;
      && r.attributes == Attributes(ns, a.verb, RbacPipelinesGroup, RbacPipelinesVersion, RbacResourceTypePipelines)
      && |r.calls| > 0 && r.calls[|r.calls| - 1] == IsAuthorized(r.attributes, header)
      && (forall i | 0 <= i < |r.calls| - 1 :: !r.calls[i].IsAuthorized?)
      && (r.err.Some? <==> !env.isAuthorized(r.attributes, header))
      && (r.err.Some? ==> r.err.value == AuthorizationFailure)
  {
  }

  /** The gate looks a namespace up exactly when it runs in multi-user mode with a pipeline id. */
  lemma GateLooksUpOnlyWithPipelineId(env: Collaborators, header: Header, pipelineId: string, a: Attributes)
    ensures var r := Gate(env, header, pipelineId, a);
      NoLookup(r.calls) <==> !env.multiUser || |pipelineId| == 0
  {
    var r := Gate(env, header, pipelineId, a);
    if env.multiUser && |pipelineId| > 0 {
      assert r.calls[0].GetNamespaceFromPipelineID?;
    }
  }
}
