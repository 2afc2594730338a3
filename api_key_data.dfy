/** Model of the data attached to a per-request API key (ApiKeyData): how a
    nested request's key data is initialised from the calling request's
    context, and when the caller is an interceptor.

    A root request has no per-request key: its key, claims and trace come
    from the context and its execution path starts with the project (or, for
    a user, the user hash). A nested request inherits key, claims and trace
    from the calling request's key data and extends its execution path. */
module ApiKeys {
  import opened Common

  /** The project key of the root request initiator. */
  datatype Key = Key(project: string)

  /** The user claims extracted from the caller's token. */
  datatype ExtractedClaims = ExtractedClaims(sub: Option<string>, userRoles: seq<string>)

  class ApiKeyData {
    var perRequestKey: Option<string>
    var originalKey: Option<Key>
    var extractedClaims: Option<ExtractedClaims>
    var traceId: Option<string>
    var spanId: Option<string>
    var sourceDeployment: Option<string>
    var executionPath: Option<seq<Option<string>>>
    var interceptors: Option<seq<string>>
    var interceptorIndex: int
    var initialDeployment: Option<string>
    var initialDeploymentApi: Option<string>

    constructor ()
      ensures perRequestKey == None && originalKey == None && extractedClaims == None
      ensures traceId == None && spanId == None && sourceDeployment == None
      ensures executionPath == None && interceptors == None && interceptorIndex == -1
      ensures initialDeployment == None && initialDeploymentApi == None
      ensures !IsInterceptor()
    {
      perRequestKey := None;
      originalKey := None;
      extractedClaims := None;
      traceId := None;
      spanId := None;
      sourceDeployment := None;
      executionPath := None;
      interceptors := None;
      interceptorIndex := -1;
      initialDeployment := None;
      initialDeploymentApi := None;
    }

    /** Whether the request is being handled by one of its deployment's interceptors. */
    predicate IsInterceptor()
      reads this
    {
      perRequestKey.Some? && interceptors.Some?
      && 0 <= interceptorIndex < |interceptors.value|
    }
  }

  /** What the calling request's context supplies. */
  datatype ProxyContext = ProxyContext(
    apiKeyData: ApiKeyData,
    interceptors: Option<seq<string>>,
    initialDeployment: Option<string>,
    initialDeploymentApi: Option<string>,
    key: Option<Key>,
    extractedClaims: Option<ExtractedClaims>,
    traceId: Option<string>,
    project: Option<string>,
    userHash: Option<string>,
    deploymentName: string,
    spanId: Option<string>)

  /** The first element of a root request's execution path. */
  function RootCaller(context: ProxyContext): Option<string> {
    if context.project.None? then context.userHash else context.project
  }

  /** Initialises `target` for a request made from `context`. For a nested
      request whose caller has no execution path, the path copy fails after
      the inherited fields are set (`ok` is false) and the path, span and
      source deployment are left as they were. */
  method InitFromContext(target: ApiKeyData, context: ProxyContext) returns (ok: bool)
    requires target != context.apiKeyData
    modifies target
    ensures var caller := context.apiKeyData;
            ok <==> caller.perRequestKey.None? || caller.executionPath.Some?
    ensures target.interceptors == context.interceptors
    ensures target.initialDeployment == context.initialDeployment
    ensures target.initialDeploymentApi == context.initialDeploymentApi
    ensures var caller := context.apiKeyData;
            if caller.perRequestKey.None? then
              target.originalKey == context.key && target.extractedClaims == context.extractedClaims
              && target.traceId == context.traceId
              && target.executionPath == Some([RootCaller(context), Some(context.deploymentName)])
            else
              target.originalKey == caller.originalKey && target.extractedClaims == caller.extractedClaims
              && target.traceId == caller.traceId
              && (caller.executionPath.Some? ==>
                    target.executionPath == Some(caller.executionPath.value + [Some(context.deploymentName)]))
    ensures ok ==> target.spanId == context.spanId && target.sourceDeployment == Some(context.deploymentName)
    ensures ok ==> var path := target.executionPath.value;
                   |path| > 0 && path[|path| - 1] == target.sourceDeployment
    ensures !ok ==> target.executionPath == old(target.executionPath) && target.spanId == old(target.spanId)
                    && target.sourceDeployment == old(target.sourceDeployment)
    ensures target.perRequestKey == old(target.perRequestKey) && target.interceptorIndex == old(target.interceptorIndex)
    ensures target.IsInterceptor() <==>
              old(target.perRequestKey).Some? && context.interceptors.Some?
              && 0 <= old(target.interceptorIndex) < |context.interceptors.value|
  {
    var apiKeyData := context.apiKeyData;
    var currentPath: seq<Option<string>>;
    target.interceptors := context.interceptors;
    target.initialDeployment := context.initialDeployment;
    target.initialDeploymentApi := context.initialDeploymentApi;

    if apiKeyData.perRequestKey.None? {
      target.originalKey := context.key;
      target.extractedClaims := context.extractedClaims;
      target.traceId := context.traceId;
      currentPath := [RootCaller(context)];
    } else {
      target.originalKey := apiKeyData.originalKey;
      target.extractedClaims := apiKeyData.extractedClaims;
      target.traceId := apiKeyData.traceId;
      if apiKeyData.executionPath.None? {
        return false;
      }
      currentPath := apiKeyData.executionPath.value;
    }
    currentPath := currentPath + [Some(context.deploymentName)];
    assert apiKeyData.perRequestKey.None? ==> currentPath == [RootCaller(context), Some(context.deploymentName)];
    target.executionPath := Some(currentPath);
    target.spanId := context.spanId;
    target.sourceDeployment := Some(context.deploymentName);
    return true;
  }

  /** A root call to `first` that calls `second`: the nested request's path
      is the root caller, `first`, `second`, and its source deployment is
      `second`. */
  method RootThenNested(root: ProxyContext, second: string) returns (data: ApiKeyData)
    requires root.apiKeyData.perRequestKey.None?
    ensures data.executionPath == Some([RootCaller(root), Some(root.deploymentName), Some(second)])
    ensures data.sourceDeployment == Some(second)
    ensures data.traceId == root.traceId && data.originalKey == root.key
  {
    var outer := new ApiKeyData();
    var ok := InitFromContext(outer, root);
    outer.perRequestKey := Some("per-request key");
    assert outer.executionPath == Some([RootCaller(root), Some(root.deploymentName)]);
    data := new ApiKeyData();
    ok := InitFromContext(data, root.(apiKeyData := outer, deploymentName := second));
    assert [RootCaller(root), Some(root.deploymentName)] + [Some(second)]
        == [RootCaller(root), Some(root.deploymentName), Some(second)];
  }
}
