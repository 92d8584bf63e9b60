/**
 * What the two upload endpoints promise, stated over all requests and all
 * behaviours of their collaborators: which status each exit writes, that
 * nothing is created before every check has passed, where the namespace
 * that is authorized comes from, and the ordering quirks of the handlers.
 */
module UploadProperties {
  import opened Wrappers
  import opened UploadTypes
  import opened AuthorizationGate
  import opened UploadHandlers

  /** The attributes the gate hands the authorizer for a namespace. */
  function StampedAttributes(namespace: string): Attributes
  {
    Attributes(namespace, RbacResourceVerbCreate, RbacPipelinesGroup, RbacPipelinesVersion, RbacResourceTypePipelines)
  }

  /** Some call before position j asked the authorizer about namespace and was allowed. */
  ghost predicate AllowedBefore(env: Collaborators, calls: seq<Call>, j: int, namespace: string)
    requires 0 <= j <= |calls|
  {
    exists i | 0 <= i < j ::
      calls[i].IsAuthorized? && calls[i].attributes.namespace == namespace
      && env.isAuthorized(calls[i].attributes, calls[i].metadata)
  }

  // ---------------------------------------------------------------- UploadPipeline

  /**
   * UploadPipeline writes 400 exactly when it creates nothing; otherwise the
   * create is its last and only create call, and the status is 200 when the
   * create and the serialization succeed and 500 when either fails.
   */
  lemma PipelineUploadStatuses(env: Collaborators, req: Request)
    ensures var r := PipelineUploadOutcome(env, req);
      && r.status in {StatusOK, StatusBadRequest, StatusInternalServerError}
      && (r.status == StatusBadRequest <==> NoCreate(r.calls))
      && (!NoCreate(r.calls) ==>
            var c := r.calls[|r.calls| - 1];
            var created := env.createPipeline(c.name, c.description, c.namespace, c.file);
            && c.CreatePipeline?
            && NoCreate(r.calls[..|r.calls| - 1])
            && r.status == (if created.Some? && env.marshalPipeline(created.value) then StatusOK
                            else StatusInternalServerError))
  {
    var r := PipelineUploadOutcome(env, req);
    if r.status != StatusBadRequest {
      assert r.calls[|r.calls| - 1].CreatePipeline?;
      assert NoCreate(r.calls[..|r.calls| - 1]);
    }
  }

  /**
   * UploadPipeline creates only after the file was read, the namespace, name
   * and description were decoded, and, in multi-user mode with a namespace,
   * the authorizer allowed that namespace; the create carries exactly those
   * values.
   */
  lemma PipelineCreateOnlyAfterChecks(env: Collaborators, req: Request)
    ensures var r := PipelineUploadOutcome(env, req);
      !NoCreate(r.calls) ==>
        var c := r.calls[|r.calls| - 1];
        && FormFileKey in req.formFiles
        && var upload := req.formFiles[FormFileKey];
        && env.readPipelineFile(upload.filename, upload.content) == Some(c.file)
        && env.queryUnescape(QueryGet(req.query, NamespaceStringQuery)) == Some(c.namespace)
        && env.pipelineName(QueryGet(req.query, NameQueryStringKey), upload.filename) == Some(c.name)
        && env.queryUnescape(QueryGet(req.query, DescriptionQueryStringKey)) == Some(c.description)
        && (env.multiUser && c.namespace != "" ==> AllowedBefore(env, r.calls, |r.calls| - 1, c.namespace))
  {
    var r := PipelineUploadOutcome(env, req);
    if !NoCreate(r.calls) {
      PipelineUploadStatuses(env, req);
      var c := r.calls[|r.calls| - 1];
      if env.multiUser && c.namespace != "" {
        assert r.calls[0] == IsAuthorized(StampedAttributes(c.namespace), req.header);
      }
    }
  }

  /**
   * UploadPipeline creates once every check passes: a readable file, a
   * namespace, name and description that decode, and a gate that allows
   * (single-user mode, an empty namespace, or an authorizer allowing the
   * namespace).  The create is the last call and carries exactly those values.
   */
  lemma PipelineCreatedWhenChecksPass(env: Collaborators, req: Request)
    requires FormFileKey in req.formFiles
    requires var upload := req.formFiles[FormFileKey];
      && env.readPipelineFile(upload.filename, upload.content).Some?
      && env.pipelineName(QueryGet(req.query, NameQueryStringKey), upload.filename).Some?
    requires env.queryUnescape(QueryGet(req.query, NamespaceStringQuery)).Some?
    requires env.queryUnescape(QueryGet(req.query, DescriptionQueryStringKey)).Some?
    requires var namespace := env.queryUnescape(QueryGet(req.query, NamespaceStringQuery)).value;
      !env.multiUser || namespace == "" || env.isAuthorized(StampedAttributes(namespace), req.header)
    ensures var r := PipelineUploadOutcome(env, req);
      var upload := req.formFiles[FormFileKey];
      && !NoCreate(r.calls)
      && r.calls[|r.calls| - 1]
         == CreatePipeline(env.pipelineName(QueryGet(req.query, NameQueryStringKey), upload.filename).value,
                           env.queryUnescape(QueryGet(req.query, DescriptionQueryStringKey)).value,
                           env.queryUnescape(QueryGet(req.query, NamespaceStringQuery)).value,
                           env.readPipelineFile(upload.filename, upload.content).value)
  {
    var r := PipelineUploadOutcome(env, req);
    assert r.calls[|r.calls| - 1].IsCreate();
  }

  /**
   * UploadPipeline never looks a pipeline up: the gate gets no pipeline id,
   * so the only namespace ever authorized is the unescaped namespace query,
   * and a malformed one is rejected with 400 before any call.
   */
  lemma PipelineNamespaceOnlyFromQuery(env: Collaborators, req: Request)
    ensures var r := PipelineUploadOutcome(env, req);
      var namespace := env.queryUnescape(QueryGet(req.query, NamespaceStringQuery));
      && NoLookup(r.calls)
      && (FormFileKey in req.formFiles && namespace.None? ==> r.status == StatusBadRequest && r.calls == [])
      && (forall i | 0 <= i < |r.calls| && r.calls[i].IsAuthorized? ::
            namespace == Some(r.calls[i].attributes.namespace)
            && r.calls[i] == IsAuthorized(StampedAttributes(namespace.value), req.header))
  {
  }

  /**
   * UploadPipeline asks the authorizer before it derives the pipeline name:
   * an upload whose name is invalid still reaches the authorizer first.
   */
  lemma PipelineAuthorizesBeforeNaming(env: Collaborators, req: Request, namespace: string)
    requires env.multiUser && FormFileKey in req.formFiles
    requires var upload := req.formFiles[FormFileKey];
      && env.readPipelineFile(upload.filename, upload.content).Some?
      && env.pipelineName(QueryGet(req.query, NameQueryStringKey), upload.filename).None?
    requires env.queryUnescape(QueryGet(req.query, NamespaceStringQuery)) == Some(namespace) && namespace != ""
    ensures PipelineUploadOutcome(env, req)
      == Response(StatusBadRequest, [IsAuthorized(StampedAttributes(namespace), req.header)])
  {
  }

  /**
   * A pipeline uploaded without a namespace is never authorized, even in
   * multi-user mode: an empty namespace skips the check.
   */
  lemma ClusterScopedPipelineSkipsAuthorization(env: Collaborators, req: Request)
    requires env.queryUnescape(QueryGet(req.query, NamespaceStringQuery)) == Some("")
    ensures var r := PipelineUploadOutcome(env, req);
      && NoAuthorization(r.calls) && NoLookup(r.calls)
      && (r.status != StatusBadRequest ==> |r.calls| == 1 && r.calls[0].CreatePipeline? && r.calls[0].namespace == "")
  {
  }

  // ---------------------------------------------------------------- UploadPipelineVersion

  /** A version upload without a pipeline id ends with 400 and calls nothing. */
  lemma VersionUploadRequiresPipelineId(env: Collaborators, req: Request)
    requires QueryGet(req.query, PipelineKey) == ""
    ensures PipelineVersionUploadOutcome(env, req) == Response(StatusBadRequest, [])
  {
  }

  /**
   * UploadPipelineVersion writes 400 exactly when it creates nothing;
   * otherwise the create is its last and only create call, and the status is
   * 200 when the create and both serialization steps succeed and 500 when
   * any of them fails.
   */
  lemma PipelineVersionUploadStatuses(env: Collaborators, req: Request)
    ensures var r := PipelineVersionUploadOutcome(env, req);
      && r.status in {StatusOK, StatusBadRequest, StatusInternalServerError}
      && (r.status == StatusBadRequest <==> NoCreate(r.calls))
      && (!NoCreate(r.calls) ==>
            var c := r.calls[|r.calls| - 1];
            var created := env.createPipelineVersion(c.version, c.file, c.updateDefault);
            && c.CreatePipelineVersion?
            && NoCreate(r.calls[..|r.calls| - 1])
            && r.status == (if created.Some? && env.toApiPipelineVersion(created.value)
                               && env.marshalPipelineVersion(created.value) then StatusOK
                            else StatusInternalServerError))
  {
    var r := PipelineVersionUploadOutcome(env, req);
    if r.status != StatusBadRequest {
      assert r.calls[|r.calls| - 1].CreatePipelineVersion?;
      assert NoCreate(r.calls[..|r.calls| - 1]);
    }
  }

  /**
   * UploadPipelineVersion creates only after the file was read, the name
   * derived, the pipeline id given and looked up, and, in multi-user mode
   * with a parent namespace, the authorizer allowed that namespace.  The
   * version carries the derived name, the description exactly as given (not
   * unescaped), and one reference: the parent pipeline as its owner.
   */
  lemma VersionCreateOnlyAfterChecks(env: Collaborators, req: Request)
    ensures var r := PipelineVersionUploadOutcome(env, req);
      !NoCreate(r.calls) ==>
        var c := r.calls[|r.calls| - 1];
        var pipelineId := QueryGet(req.query, PipelineKey);
        && FormFileKey in req.formFiles
        && var upload := req.formFiles[FormFileKey];
        && env.readPipelineFile(upload.filename, upload.content) == Some(c.file)
        && env.pipelineName(QueryGet(req.query, NameQueryStringKey), upload.filename) == Some(c.version.name)
        && c.version.description == QueryGet(req.query, DescriptionQueryStringKey)
        && c.version.references == [ResourceReference(ResourceKey(pipelineId, PipelineType), Owner)]
        && c.updateDefault == env.versionUpdatedByDefault
        && pipelineId != "" && pipelineId in env.namespaceOf
        && (env.multiUser && env.namespaceOf[pipelineId] != "" ==>
              AllowedBefore(env, r.calls, |r.calls| - 1, env.namespaceOf[pipelineId]))
  {
    var r := PipelineVersionUploadOutcome(env, req);
    var pipelineId := QueryGet(req.query, PipelineKey);
    if !NoCreate(r.calls) && env.multiUser && env.namespaceOf[pipelineId] != "" {
      assert r.calls[2] == IsAuthorized(StampedAttributes(env.namespaceOf[pipelineId]), req.header);
    }
  }

  /**
   * UploadPipelineVersion creates once every check passes: a readable file,
   * a derivable name, a pipeline id that is found, and a gate that allows
   * (single-user mode, an empty parent namespace, or an authorizer allowing
   * the parent's namespace).  The create is the last call and carries the
   * derived name, the raw description and the owner reference.
   */
  lemma VersionCreatedWhenChecksPass(env: Collaborators, req: Request)
    requires FormFileKey in req.formFiles
    requires var upload := req.formFiles[FormFileKey];
      && env.readPipelineFile(upload.filename, upload.content).Some?
      && env.pipelineName(QueryGet(req.query, NameQueryStringKey), upload.filename).Some?
    requires QueryGet(req.query, PipelineKey) != "" && QueryGet(req.query, PipelineKey) in env.namespaceOf
    requires var namespace := env.namespaceOf[QueryGet(req.query, PipelineKey)];
      !env.multiUser || namespace == "" || env.isAuthorized(StampedAttributes(namespace), req.header)
    ensures var r := PipelineVersionUploadOutcome(env, req);
      var upload := req.formFiles[FormFileKey];
      var pipelineId := QueryGet(req.query, PipelineKey);
      var name := env.pipelineName(QueryGet(req.query, NameQueryStringKey), upload.filename).value;
      var version := PipelineVersion(name, QueryGet(req.query, DescriptionQueryStringKey),
                                     [ResourceReference(ResourceKey(pipelineId, PipelineType), Owner)]);
      && !NoCreate(r.calls)
      && r.calls[|r.calls| - 1]
         == CreatePipelineVersion(version, env.readPipelineFile(upload.filename, upload.content).value,
                                  env.versionUpdatedByDefault)
  {
    var r := PipelineVersionUploadOutcome(env, req);
    assert r.calls[|r.calls| - 1].IsCreate();
  }

  /**
   * A version is authorized in its parent pipeline's namespace: every
   * authorizer call carries the looked-up namespace, and in multi-user mode
   * an upload that gets past the lookup with a non-empty parent namespace
   * does ask the authorizer.
   */
  lemma VersionInheritsParentNamespace(env: Collaborators, req: Request)
    ensures var r := PipelineVersionUploadOutcome(env, req);
      var pipelineId := QueryGet(req.query, PipelineKey);
      && (forall i | 0 <= i < |r.calls| && r.calls[i].IsAuthorized? ::
            pipelineId in env.namespaceOf
            && r.calls[i] == IsAuthorized(StampedAttributes(env.namespaceOf[pipelineId]), req.header))
      && (env.multiUser && |r.calls| > 0 && pipelineId in env.namespaceOf && env.namespaceOf[pipelineId] != "" ==>
            !NoAuthorization(r.calls))
  {
    var r := PipelineVersionUploadOutcome(env, req);
    var pipelineId := QueryGet(req.query, PipelineKey);
    if env.multiUser && |r.calls| > 0 && pipelineId in env.namespaceOf && env.namespaceOf[pipelineId] != "" {
      assert r.calls[2].IsAuthorized?;
    }
  }

  /**
   * In multi-user mode the version endpoint looks the parent up twice, once
   * itself and once inside the gate; since the gate's record already holds
   * the first result, the second lookup changes nothing, and the upload is
   * refused exactly when the parent has a namespace that the authorizer
   * refuses.
   */
  lemma VersionLooksUpParentTwice(env: Collaborators, req: Request)
    requires env.multiUser && FormFileKey in req.formFiles
    requires var upload := req.formFiles[FormFileKey];
      && env.readPipelineFile(upload.filename, upload.content).Some?
      && env.pipelineName(QueryGet(req.query, NameQueryStringKey), upload.filename).Some?
    requires QueryGet(req.query, PipelineKey) != "" && QueryGet(req.query, PipelineKey) in env.namespaceOf
    ensures var r := PipelineVersionUploadOutcome(env, req);
      var pipelineId := QueryGet(req.query, PipelineKey);
      var namespace := env.namespaceOf[pipelineId];
      && |r.calls| >= 2
      && r.calls[0] == r.calls[1] == GetNamespaceFromPipelineID(pipelineId)
      && (r.status == StatusBadRequest <==>
            namespace != "" && !env.isAuthorized(StampedAttributes(namespace), req.header))
  {
  }

  // ---------------------------------------------------------------- both endpoints

  /**
   * Outside multi-user mode neither endpoint asks the authorizer, and the
   * only lookup is the version endpoint's own one.
   */
  lemma SingleUserNeverAuthorizes(env: Collaborators, req: Request)
    requires !env.multiUser
    ensures var r := PipelineUploadOutcome(env, req);
      NoAuthorization(r.calls) && NoLookup(r.calls)
    ensures var r := PipelineVersionUploadOutcome(env, req);
      && NoAuthorization(r.calls)
      && (forall i | 1 <= i < |r.calls| :: !r.calls[i].GetNamespaceFromPipelineID?)
  {
  }

  /** A file that cannot be read, for instance one over the size limit, is refused with 400 and no call. */
  lemma UnreadableFileRejected(env: Collaborators, req: Request)
    requires FormFileKey in req.formFiles
    requires var upload := req.formFiles[FormFileKey];
      env.readPipelineFile(upload.filename, upload.content).None?
    ensures PipelineUploadOutcome(env, req) == Response(StatusBadRequest, [])
    ensures PipelineVersionUploadOutcome(env, req) == Response(StatusBadRequest, [])
  {
  }

  // ---------------------------------------------------------------- scenarios

  /**
   * pipeline.yaml uploaded with namespace team-a and no name in multi-user
   * mode, the authorizer allowing it: 200, and the pipeline is created as
   * pipeline.yaml in team-a after one authorizer call for team-a.
   */
  lemma ScenarioNamespacedUploadSucceeds(env: Collaborators, file: Bytes, read: Bytes, header: Header)
    requires env.multiUser
    requires env.readPipelineFile("pipeline.yaml", file) == Some(read)
    requires env.pipelineName("", "pipeline.yaml") == Some("pipeline.yaml")
    requires env.queryUnescape("team-a") == Some("team-a") && env.queryUnescape("") == Some("")
    requires env.isAuthorized(StampedAttributes("team-a"), header)
    requires env.createPipeline("pipeline.yaml", "", "team-a", read).Some?
    requires env.marshalPipeline(env.createPipeline("pipeline.yaml", "", "team-a", read).value)
    ensures var req := Request(map[FormFileKey := UploadedFile("pipeline.yaml", file)],
                               map[NamespaceStringQuery := "team-a"], header);
      PipelineUploadOutcome(env, req)
        == Response(StatusOK, [IsAuthorized(StampedAttributes("team-a"), header),
                               CreatePipeline("pipeline.yaml", "", "team-a", read)])
  {
  }

  /**
   * A version of pipeline 123, whose namespace is team-b, refused by the
   * authorizer: 400, two lookups and one authorizer call, no version created.
   */
  lemma ScenarioDeniedVersionCreatesNothing(env: Collaborators, req: Request)
    requires env.multiUser && FormFileKey in req.formFiles
    requires var upload := req.formFiles[FormFileKey];
      && env.readPipelineFile(upload.filename, upload.content).Some?
      && env.pipelineName(QueryGet(req.query, NameQueryStringKey), upload.filename).Some?
    requires QueryGet(req.query, PipelineKey) == "123"
    requires "123" in env.namespaceOf && env.namespaceOf["123"] == "team-b"
    requires !env.isAuthorized(StampedAttributes("team-b"), req.header)
    ensures PipelineVersionUploadOutcome(env, req)
      == Response(StatusBadRequest, [GetNamespaceFromPipelineID("123"), GetNamespaceFromPipelineID("123"),
                                     IsAuthorized(StampedAttributes("team-b"), req.header)])
  {
  }
}
