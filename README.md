# Pipeline upload server: authorization-gated upload decisions

This project models the core of the Kubeflow Pipelines API server's HTTP
multipart upload endpoints, `backend/src/apiserver/server/pipeline_upload_server.go`:

- **`canUploadVersionedPipeline`**, the authorization gate. It takes a
  `ResourceAttributes` record and updates it in place. Outside multi-user
  mode it allows everything. With a pipeline id it looks up that pipeline's
  namespace. It copies that namespace into the record only when the record
  has none. A failed lookup is an error. With no namespace left, it allows
  the upload without a check. Otherwise it stamps the pipelines RBAC group,
  version and resource, forwards the request headers as metadata and asks
  the authorizer.
- **`UploadPipeline`** and **`UploadPipelineVersion`**, the two endpoints.
  Each is a chain of early-return checks. A read, validation, lookup or
  authorization failure writes 400. A create or serialization failure writes
  500. Success writes the created record with Go's implicit 200.
- **`GetPipelineNamespace`**, which unescapes the namespace query parameter
  or reports invalid input.

Everything the endpoints call but do not define is a field of the
`Collaborators` record (module `UploadTypes`):

- the multi-user flag;
- a namespace-lookup map, where an id that is not a key fails the lookup;
- the authorizer, as a predicate over the attributes and the forwarded metadata;
- file reading, name derivation and URL unescaping, as oracles that return `Option`;
- the creates, which return `Option<Created>`;
- the serialization steps, as booleans.

Each handler returns the status it writes and the trace of collaborator
calls it makes: namespace lookups, authorizer calls and creates. This makes
the ordering properties provable, for example "in multi-user mode with a
non-empty namespace, nothing is created unless an authorizer call for that
namespace allowed it", "no lookup without a pipeline id" and "single-user
mode never asks the authorizer". An empty namespace skips the authorizer
even in multi-user mode, so such an upload is created with no authorization
check at all (`ClusterScopedPipelineSkipsAuthorization`).

Layout:

- `wrappers.dfy`: `Option` and `Result`.
- `upload_types.dfy`: the request, attributes, resource references, call
  trace, collaborators and constants.
- `authorization_gate.dfy`: the following.
  - The `ResourceAttributes` class.
  - The header-forwarding loop.
  - The gate as the specification function `Gate`.
  - The in-place method `CanUploadVersionedPipeline`, proved against `Gate`.
  - The gate's properties.
- `upload_handlers.dfy`: `GetPipelineNamespace`, the handlers' specification
  functions, and the two handler methods proved against them.
- `upload_properties.dfy`: the handlers' properties and two worked scenarios.

Quirks of the code that the model keeps, all in `pipeline_upload_server.go`:

- In multi-user mode, `canUploadVersionedPipeline` looks the pipeline up
  whenever a pipeline id is given (lines 238-239). In single-user mode it
  returns at line 236, before any lookup. It fails on a failed lookup even when the record
  already has a namespace (lines 240-242). It copies the looked-up namespace
  only into an empty record (lines 243-245).
- The gate does not set the verb. The handlers set it to `create` when they
  build the record (lines 105 and 188).
- `UploadPipeline` authorizes (line 107) before it derives the name
  (line 113) and decodes the description (line 119).
- `UploadPipelineVersion` derives the name (line 166) before it requires the
  pipeline id (lines 174-178). In multi-user mode it looks the parent up
  twice: once itself (line 180) and once inside the gate (line 239). In
  single-user mode only the first lookup happens.
- The version description is passed on exactly as it appears in the query
  (line 172). The pipeline description is run through `url.QueryUnescape`
  (line 119).

## Model

| member | source | states |
|---|---|---|
| `AuthorizationGate.ResourceAttributes.constructor` | backend/src/apiserver/server/pipeline_upload_server.go:103-106 | a new record holds the given namespace and verb, and group, version and resource are empty |
| `AuthorizationGate.ForwardHeaders` | backend/src/apiserver/server/pipeline_upload_server.go:256-259 | the metadata built by the loop over the headers holds exactly the inbound headers, key for key |
| `AuthorizationGate.Gate` | backend/src/apiserver/server/pipeline_upload_server.go:233-267 | the gate never changes the verb, never overwrites a namespace already set, fails only in multi-user mode and never creates anything |
| `AuthorizationGate.CanUploadVersionedPipeline` | backend/src/apiserver/server/pipeline_upload_server.go:233-267 | the error, the calls and the record's new value after the in-place update are those of `Gate` on the record's old value |
| `AuthorizationGate.SingleUserGateIsNoOp` | backend/src/apiserver/server/pipeline_upload_server.go:234-237 | outside multi-user mode the gate allows, makes no call and leaves the record unchanged |
| `AuthorizationGate.GateInheritsOnlyMissingNamespace` | backend/src/apiserver/server/pipeline_upload_server.go:238-246 | with a pipeline id that is found, the lookup is the first call, and the namespace becomes the looked-up one only when it was empty |
| `AuthorizationGate.GateLookupFailureDenies` | backend/src/apiserver/server/pipeline_upload_server.go:239-242 | with a pipeline id that is not found, the gate fails with a lookup error, never asks the authorizer, and leaves the record as it was, whatever namespace it held |
| `AuthorizationGate.GateEmptyNamespaceSkipsAuthorizer` | backend/src/apiserver/server/pipeline_upload_server.go:247-249 | when neither the record nor the lookup supplies a namespace, the gate allows without asking the authorizer and sets no group, version or resource |
| `AuthorizationGate.GateScopedAsksAuthorizer` | backend/src/apiserver/server/pipeline_upload_server.go:251-266 | with a namespace, the gate stamps the pipelines group, version and resource and keeps namespace and verb. It asks the authorizer once, as its last call, with those attributes and the headers. It fails, with an authorization error, exactly when the authorizer refuses |
| `AuthorizationGate.GateLooksUpOnlyWithPipelineId` | backend/src/apiserver/server/pipeline_upload_server.go:238-239 | the gate looks a namespace up exactly when it runs in multi-user mode with a non-empty pipeline id |
| `UploadHandlers.GetPipelineNamespace` | backend/src/apiserver/server/pipeline_upload_server.go:284-290 | succeeds exactly when the query unescapes, with the unescaped text, and otherwise reports invalid input |
| `UploadHandlers.UploadPipeline` | backend/src/apiserver/server/pipeline_upload_server.go:77-137 | the early-return handler, which builds the record and runs the gate in place, writes the status and makes the calls that `PipelineUploadOutcome` specifies |
| `UploadHandlers.UploadPipelineVersion` | backend/src/apiserver/server/pipeline_upload_server.go:145-231 | the early-return handler writes the status and makes the calls that `PipelineVersionUploadOutcome` specifies |
| `UploadProperties.PipelineUploadStatuses` | backend/src/apiserver/server/pipeline_upload_server.go:83-136 | status 400 exactly when nothing is created. Otherwise the single create is the last call, and the status is 200 when the create and serialization succeed and 500 when either fails |
| `UploadProperties.PipelineCreateOnlyAfterChecks` | backend/src/apiserver/server/pipeline_upload_server.go:90-124 | a pipeline is created only after the file read, the namespace, name and description decoding, and (in multi-user mode with a namespace) an allowed authorizer call for that namespace. It is created with exactly those values |
| `UploadProperties.PipelineNamespaceOnlyFromQuery` | backend/src/apiserver/server/pipeline_upload_server.go:96-107 | a pipeline upload never looks a pipeline up. Every authorizer call is for the unescaped namespace query. A malformed namespace gives 400 with no call |
| `UploadProperties.PipelineAuthorizesBeforeNaming` | backend/src/apiserver/server/pipeline_upload_server.go:107-117 | an upload whose name cannot be derived still asks the authorizer first, then fails with 400 |
| `UploadProperties.ClusterScopedPipelineSkipsAuthorization` | backend/src/apiserver/server/pipeline_upload_server.go:103-111 | a pipeline with an empty namespace is never authorized, even in multi-user mode. If it passes, its only call is the create in the empty namespace |
| `UploadProperties.VersionUploadRequiresPipelineId` | backend/src/apiserver/server/pipeline_upload_server.go:174-178 | a version upload without a pipeline id ends with 400 and no lookup, authorization or create |
| `UploadProperties.PipelineVersionUploadStatuses` | backend/src/apiserver/server/pipeline_upload_server.go:151-226 | status 400 exactly when no version is created. Otherwise the single create is the last call, and the status is 200 when the create and both serialization steps succeed and 500 when any fails |
| `UploadProperties.PipelineCreatedWhenChecksPass` | backend/src/apiserver/server/pipeline_upload_server.go:90-124 | when the file reads, the namespace, name and description decode and the gate allows (single-user mode, an empty namespace, or an authorizer that allows the stamped namespace), the pipeline is created, as the last call, with exactly those values |
| `UploadProperties.VersionCreatedWhenChecksPass` | backend/src/apiserver/server/pipeline_upload_server.go:158-209 | when the file reads, the name derives, the pipeline id is given and found, and the gate allows (single-user mode, an empty parent namespace, or an authorizer that allows the parent's stamped namespace), the version is created, as the last call, with the derived name, the raw description and the OWNER reference to the pipeline |
| `UploadProperties.VersionCreateOnlyAfterChecks` | backend/src/apiserver/server/pipeline_upload_server.go:158-209 | a version is created only after the file read, name derivation, and a non-empty pipeline id that is found, plus (in multi-user mode with a parent namespace) an allowed authorizer call for that namespace. The version carries the derived name, the raw description and exactly one reference: the pipeline, as OWNER |
| `UploadProperties.VersionInheritsParentNamespace` | backend/src/apiserver/server/pipeline_upload_server.go:180-194 | every authorizer call of a version upload is for the parent's looked-up namespace. In multi-user mode, a non-empty parent namespace is always checked |
| `UploadProperties.VersionLooksUpParentTwice` | backend/src/apiserver/server/pipeline_upload_server.go:180-194 | in multi-user mode the parent is looked up twice in a row. The upload is refused exactly when the parent's namespace is non-empty and the authorizer refuses it |
| `UploadProperties.SingleUserNeverAuthorizes` | backend/src/apiserver/server/pipeline_upload_server.go:233-237 | in single-user mode neither endpoint asks the authorizer. The pipeline endpoint makes no lookup, and the version endpoint only its own first one |
| `UploadProperties.UnreadableFileRejected` | backend/src/apiserver/server/pipeline_upload_server.go:90-94 | a file that cannot be read (for example one over the size limit) gives 400 with no call, on both endpoints |
| `UploadProperties.ScenarioNamespacedUploadSucceeds` | backend/src/apiserver/server/pipeline_upload_server.go:96-136 | `pipeline.yaml` uploaded to namespace `team-a` and allowed gives 200, after one authorizer call for `team-a` and a create of `pipeline.yaml` in `team-a` |
| `UploadProperties.ScenarioDeniedVersionCreatesNothing` | backend/src/apiserver/server/pipeline_upload_server.go:174-194 | a version of pipeline `123` in `team-b` that the authorizer refuses gives 400 after two lookups and one authorizer call, with no create |

## Left out

- `ForwardHeaders`: models `metadata.MD.Set` as a plain insertion. gRPC's lower-casing of keys and its dropping of empty value lists are not part of this model. The context that carries the metadata is left out too.
- Multipart parsing (`r.FormFile`) is modelled as a map from form keys to file parts. A body that cannot be parsed is the same as one without the `uploadfile` part. Closing the file is left out.
- `ReadPipelineFile`, `MaxFileLength` and `GetPipelineName` are not part of this model. They are oracles that succeed with a value or fail.
- `url.QueryUnescape` is an oracle. The query is modelled after `r.URL.Query()` has decoded it, keeping the first value of each key. Because of this, the second decoding that `UploadPipeline` applies to the namespace and the description shows only through the oracle.
- The resource manager is not part of this model. `GetNamespaceFromPipelineID` is a map that stays fixed for one request, so both lookups of a version upload return the same answer. `CreatePipeline` and `CreatePipelineVersion` are oracles that return a created record or fail.
- The authorization backend (`isAuthorized`) is a predicate. A refusal and a transport error are the same thing to the gate: both make it fail.
- The RBAC constants come from the apiserver's `common` package, which is not part of this model. So do `IsMultiUserMode` and `IsPipelineVersionUpdatedByDefault`, which are fields of the collaborators record.
- Response writing keeps only the status code. The JSON error body, its fallback message, the `Content-Type` header, jsonpb serialization of the created record and glog logging are left out. Serialization is an oracle that succeeds or fails.
- The modelled status of a failure is the code the handler passes to `writeErrorToResponse` (line 271). When serialization fails after `marshaler.Marshal` (lines 132 and 222) has already written part of the body, net/http has already sent the implicit 200 and ignores the later `WriteHeader`. The client then gets 200 with a truncated body, which the model does not capture: it reports 500.
- Error messages and error wrapping (`util.Wrap`) are left out. A gate failure keeps only its kind (lookup failure or authorization failure).
- The Prometheus request counters and `pipelineCount` have no effect on the decision, so they are left out. So are `PipelineUploadServerOptions` and `NewPipelineUploadServer`, which only carry the metrics switch and the resource manager.
- Request cancellation and deadlines are left out.
- The typed Filter/Predicate query model is not in the source files of this model and is left out.
