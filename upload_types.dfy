/**
 * Values the pipeline upload endpoints work with: the incoming request, the
 * authorization attributes, the calls made to external collaborators, and the
 * collaborators themselves, abstracted as oracles.
 */
module UploadTypes {
  import opened Wrappers

  // Multipart field and query-string keys read by the upload endpoints.
  const FormFileKey := "uploadfile"
  const NameQueryStringKey := "name"
  const DescriptionQueryStringKey := "description"
  const NamespaceStringQuery := "namespace"
  const PipelineKey := "pipelineid"

  // RBAC constants of the apiserver's common package.
  const RbacPipelinesGroup := "pipelines.kubeflow.org"
  const RbacPipelinesVersion := "v1beta1"
  const RbacResourceTypePipelines := "pipelines"
  const RbacResourceVerbCreate := "create"

  // HTTP status codes written by the handlers.  StatusOK is the status Go
  // sends implicitly when a handler writes a body without a header.
  const StatusOK := 200
  const StatusBadRequest := 400
  const StatusInternalServerError := 500

  type Bytes = seq<bv8>

  /** Inbound HTTP headers, and the gRPC metadata built from them. */
  type Header = map<string, seq<string>>
  type Metadata = map<string, seq<string>>

  /** A file part of a multipart body: its file name and its bytes. */
  datatype UploadedFile = UploadedFile(filename: string, content: Bytes)

  /**
   * An upload request: the multipart file parts by form key, the decoded
   * query parameters (first value of each key) and the headers.
   */
  datatype Request = Request(formFiles: map<string, UploadedFile>, query: map<string, string>, header: Header)

  /** url.Values.Get: the value of a query key, or "" when it is absent. */
  function QueryGet(query: map<string, string>, key: string): string
  {
    if key in query then query[key] else ""
  }

  /** authorizationv1.ResourceAttributes, as far as this server fills it in. */
  datatype Attributes = Attributes(namespace: string, verb: string, group: string, version: string, resource: string)

  /** A freshly built attribute record: only namespace and verb set, the rest Go's zero value. */
  function NewAttributes(namespace: string, verb: string): Attributes
  {
    Attributes(namespace, verb, "", "", "")
  }

  datatype ResourceType = ExperimentType | JobType | PipelineType | PipelineVersionType | NamespaceType
  datatype Relationship = Owner | Creator
  datatype ResourceKey = ResourceKey(id: string, kind: ResourceType)
  datatype ResourceReference = ResourceReference(key: ResourceKey, relationship: Relationship)

  /** The api.PipelineVersion the version endpoint asks the resource manager to create. */
  datatype PipelineVersion = PipelineVersion(name: string, description: string, references: seq<ResourceReference>)

  /** The record a successful create returns; only its identity matters here. */
  datatype Created = Created(id: string)

  /** One call into an external collaborator, in the order the handler makes it. */
  datatype Call =
    | GetNamespaceFromPipelineID(pipelineId: string)
    | IsAuthorized(attributes: Attributes, metadata: Metadata)
    | CreatePipeline(name: string, description: string, namespace: string, file: Bytes)
    | CreatePipelineVersion(version: PipelineVersion, file: Bytes, updateDefault: bool)
  {
    predicate IsCreate()
    {
      CreatePipeline? || CreatePipelineVersion?
    }
  }

  /** No call of the trace creates anything. */
  predicate NoCreate(calls: seq<Call>)
  {
    forall i | 0 <= i < |calls| :: !calls[i].IsCreate()
  }

  /** No call of the trace asks the authorizer. */
  predicate NoAuthorization(calls: seq<Call>)
  {
    forall i | 0 <= i < |calls| :: !calls[i].IsAuthorized?
  }

  /** No call of the trace looks up a pipeline's namespace. */
  predicate NoLookup(calls: seq<Call>)
  {
    forall i | 0 <= i < |calls| :: !calls[i].GetNamespaceFromPipelineID?
  }

  /**
   * The collaborators of the upload server.  Each field stands for one call
   * the handlers make and whose implementation is not part of this model:
   *  - multiUser: common.IsMultiUserMode()
   *  - namespaceOf: resourceManager.GetNamespaceFromPipelineID; an id that is
   *    not a key fails the lookup
   *  - isAuthorized: the authorization backend; true when it allows the request
   *  - readPipelineFile: ReadPipelineFile(filename, file, MaxFileLength)
   *  - pipelineName: GetPipelineName(nameQuery, filename)
   *  - queryUnescape: url.QueryUnescape; None on malformed escaping
   *  - createPipeline / createPipelineVersion: the resource manager's creates
   *  - versionUpdatedByDefault: common.IsPipelineVersionUpdatedByDefault()
   *  - marshalPipeline: ToApiPipeline and jsonpb marshalling of the result
   *  - toApiPipelineVersion, marshalPipelineVersion: the two serialization
   *    steps of a created version
   */
  datatype Collaborators = Collaborators(
    multiUser: bool,
    namespaceOf: map<string, string>,
    isAuthorized: (Attributes, Metadata) -> bool,
    readPipelineFile: (string, Bytes) -> Option<Bytes>,
    pipelineName: (string, string) -> Option<string>,
    queryUnescape: string -> Option<string>,
    createPipeline: (string, string, string, Bytes) -> Option<Created>,
    createPipelineVersion: (PipelineVersion, Bytes, bool) -> Option<Created>,
    versionUpdatedByDefault: bool,
    marshalPipeline: Created -> bool,
    toApiPipelineVersion: Created -> bool,
    marshalPipelineVersion: Created -> bool)

  /** What a handler leaves behind: the status it wrote and the calls it made. */
  datatype Response = Response(status: int, calls: seq<Call>)
}
