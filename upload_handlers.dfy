/**
 * The two HTTP multipart upload endpoints (UploadPipeline and
 * UploadPipelineVersion) and the namespace query decoding they use.  Each
 * endpoint is a chain of early-return checks; every exit writes one status.
 */
module UploadHandlers {
  import opened Wrappers
  import opened UploadTypes
  import opened AuthorizationGate

  datatype ApiError = InvalidInput(message: string)

  /** GetPipelineNamespace: the unescaped namespace query, or invalid input. */
  function GetPipelineNamespace(queryUnescape: string -> Option<string>, queryString: string): (r: Result<string, ApiError>)
    ensures r.Success? <==> queryUnescape(queryString).Some?
    ensures r.Success? ==> r.value == queryUnescape(queryString).value
    ensures r.Failure? ==> r.error.InvalidInput?
  {
    match queryUnescape(queryString)
    case None => Failure(InvalidInput("Pipeline namespace in the query string has invalid format."))
    case Some(namespace) => Success(namespace)
  }

  /**
   * The status and the calls of UploadPipeline on a request: the handler's
   * specification, which UploadPipeline is proved to meet and about which
   * UploadProperties states the endpoint's promises.
   */
  function PipelineUploadOutcome(env: Collaborators, req: Request): Response
  {
    if FormFileKey !in req.formFiles then
      Response(StatusBadRequest, [])
    else
      var upload := req.formFiles[FormFileKey];
      var pipelineFile := env.readPipelineFile(upload.filename, upload.content);
      if pipelineFile.None? then
        Response(StatusBadRequest, [])
      else
        var namespace := GetPipelineNamespace(env.queryUnescape, QueryGet(req.query, NamespaceStringQuery));
        if namespace.Failure? then
          Response(StatusBadRequest, [])
        else
          var gate := Gate(env, req.header, "", NewAttributes(namespace.value, RbacResourceVerbCreate));
          if gate.err.Some? then
            Response(StatusBadRequest, gate.calls)
          else
            var name := env.pipelineName(QueryGet(req.query, NameQueryStringKey), upload.filename);
            if name.None? then
              Response(StatusBadRequest, gate.calls)
            else
              var description := env.queryUnescape(QueryGet(req.query, DescriptionQueryStringKey));
              if description.None? then
                Response(StatusBadRequest, gate.calls)
              else
                var create := CreatePipeline(name.value, description.value, namespace.value, pipelineFile.value);
                var created := env.createPipeline(name.value, description.value, namespace.value, pipelineFile.value);
                if created.None? || !env.marshalPipeline(created.value) then
                  Response(StatusInternalServerError, gate.calls + [create])
                else
                  Response(StatusOK, gate.calls + [create])
  }

  /** The version the version endpoint asks to create: owned by the given pipeline. */
  function VersionToCreate(name: string, description: string, pipelineId: string): PipelineVersion
  {
    PipelineVersion(name, description, [ResourceReference(ResourceKey(pipelineId, PipelineType), Owner)])
  }

  /**
   * The status and the calls of UploadPipelineVersion on a request: the
   * handler's specification, which UploadPipelineVersion is proved to meet
   * and about which UploadProperties states the endpoint's promises.
   */
  function PipelineVersionUploadOutcome(env: Collaborators, req: Request): Response
  {
    if FormFileKey !in req.formFiles then
      Response(StatusBadRequest, [])
    else
      var upload := req.formFiles[FormFileKey];
      var pipelineFile := env.readPipelineFile(upload.filename, upload.content);
      if pipelineFile.None? then
        Response(StatusBadRequest, [])
      else
        var name := env.pipelineName(QueryGet(req.query, NameQueryStringKey), upload.filename);
        if name.None? then
          Response(StatusBadRequest, [])
        else
          var description := QueryGet(req.query, DescriptionQueryStringKey);
          var pipelineId := QueryGet(req.query, PipelineKey);
          if |pipelineId| == 0 then
            Response(StatusBadRequest, [])
          else
            var lookup := [GetNamespaceFromPipelineID(pipelineId)];
            if pipelineId !in env.namespaceOf then
              Response(StatusBadRequest, lookup)
            else
              var gate := Gate(env, req.header, pipelineId,
                               NewAttributes(env.namespaceOf[pipelineId], RbacResourceVerbCreate));
              if gate.err.Some? then
                Response(StatusBadRequest, lookup + gate.calls)
              else
                var version := VersionToCreate(name.value, description, pipelineId);
                var create := CreatePipelineVersion(version, pipelineFile.value, env.versionUpdatedByDefault);
                var created := env.createPipelineVersion(version, pipelineFile.value, env.versionUpdatedByDefault);
                if created.None? || !env.toApiPipelineVersion(created.value)
                   || !env.marshalPipelineVersion(created.value) then
                  Response(StatusInternalServerError, lookup + gate.calls + [create])
                else
                  Response(StatusOK, lookup + gate.calls + [create])
  }

  /** UploadPipeline: read the file, resolve the namespace, authorize, name, describe, create, serialize. */
  method UploadPipeline(env: Collaborators, req: Request) returns (resp: Response)
    ensures resp == PipelineUploadOutcome(env, req)
  {
    if FormFileKey !in req.formFiles {
      return Response(StatusBadRequest, []);
    }
    var upload := req.formFiles[FormFileKey];
    var pipelineFile := env.readPipelineFile(upload.filename, upload.content);
    if pipelineFile.None? {
      return Response(StatusBadRequest, []);
    }
    var namespaceQuery := QueryGet(req.query, NamespaceStringQuery);
    var pipelineNamespace := GetPipelineNamespace(env.queryUnescape, namespaceQuery);
    if pipelineNamespace.Failure? {
      return Response(StatusBadRequest, []);
    }
    var resourceAttributes := new ResourceAttributes(pipelineNamespace.value, RbacResourceVerbCreate);
    var err, calls := CanUploadVersionedPipeline(env, req.header, "", resourceAttributes);
    if err.Some? {
      return Response(StatusBadRequest, calls);
    }
    var pipelineName := env.pipelineName(QueryGet(req.query, NameQueryStringKey), upload.filename);
    if pipelineName.None? {
      return Response(StatusBadRequest, calls);
    }
    var pipelineDescription := env.queryUnescape(QueryGet(req.query, DescriptionQueryStringKey));
    if pipelineDescription.None? {
      return Response(StatusBadRequest, calls);
    }
    calls := calls + [CreatePipeline(pipelineName.value, pipelineDescription.value, pipelineNamespace.value, pipelineFile.value)];
    var newPipeline :=
      env.createPipeline(pipelineName.value, pipelineDescription.value, pipelineNamespace.value, pipelineFile.value);
    if newPipeline.None? {
      return Response(StatusInternalServerError, calls);
    }
    if !env.marshalPipeline(newPipeline.value) {
      return Response(StatusInternalServerError, calls);
    }
    return Response(StatusOK, calls);
  }

  /** UploadPipelineVersion: read the file, name, require a pipeline id, look up, authorize, create, serialize. */
  method UploadPipelineVersion(env: Collaborators, req: Request) returns (resp: Response)
    ensures resp == PipelineVersionUploadOutcome(env, req)
  {
    if FormFileKey !in req.formFiles {
      return Response(StatusBadRequest, []);
    }
    var upload := req.formFiles[FormFileKey];
    var pipelineFile := env.readPipelineFile(upload.filename, upload.content);
    if pipelineFile.None? {
      return Response(StatusBadRequest, []);
    }
    var versionName := env.pipelineName(QueryGet(req.query, NameQueryStringKey), upload.filename);
    if versionName.None? {
      return Response(StatusBadRequest, []);
    }
    var versionDescription := QueryGet(req.query, DescriptionQueryStringKey);
    var pipelineId := QueryGet(req.query, PipelineKey);
    if |pipelineId| == 0 {
      return Response(StatusBadRequest, []);
    }
    var calls := [GetNamespaceFromPipelineID(pipelineId)];
    if pipelineId !in env.namespaceOf {
      return Response(StatusBadRequest, calls);
    }
    var namespace := env.namespaceOf[pipelineId];
    var resourceAttributes := new ResourceAttributes(namespace, RbacResourceVerbCreate);
    var err, gateCalls := CanUploadVersionedPipeline(env, req.header, pipelineId, resourceAttributes);
    calls := calls + gateCalls;
    if err.Some? {
      return Response(StatusBadRequest, calls);
    }
    var version := VersionToCreate(versionName.value, versionDescription, pipelineId);
    calls := calls + [CreatePipelineVersion(version, pipelineFile.value, env.versionUpdatedByDefault)];
    var newVersion := env.createPipelineVersion(version, pipelineFile.value, env.versionUpdatedByDefault);
    if newVersion.None? {
      return Response(StatusInternalServerError, calls);
    }
    if !env.toApiPipelineVersion(newVersion.value) {
      return Response(StatusInternalServerError, calls);
    }
    if !env.marshalPipelineVersion(newVersion.value) {
      return Response(StatusInternalServerError, calls);
    }
    return Response(StatusOK, calls);
  }
}
