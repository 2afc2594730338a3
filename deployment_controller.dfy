/** Model of the deployment listing endpoints (DeploymentController): the
    feature summary of a deployment, the list of accessible models and the
    lookup of one model.

    The configured models are the entries of the configuration's model map
    in iteration order; the access check against the user's roles and the
    conversion of a model into its response record are parameters. */
module Deployments {
  import opened Common

  /** The deployment's configured features: endpoints (absent when null)
      and optional capability flags. */
  datatype Features = Features(
    rateEndpoint: Option<string>,
    tokenizeEndpoint: Option<string>,
    truncatePromptEndpoint: Option<string>,
    configurationEndpoint: Option<string>,
    systemPromptSupported: Option<bool>,
    toolsSupported: Option<bool>,
    seedSupported: Option<bool>,
    urlAttachmentsSupported: Option<bool>,
    folderAttachmentsSupported: Option<bool>,
    allowResume: Option<bool>,
    accessibleByPerRequestKey: Option<bool>,
    contentPartsSupported: Option<bool>)

  /** The feature summary sent to clients. */
  datatype FeaturesData = FeaturesData(
    rate: bool,
    tokenize: bool,
    truncatePrompt: bool,
    configuration: bool,
    systemPrompt: bool,
    tools: bool,
    seed: bool,
    urlAttachments: bool,
    folderAttachments: bool,
    allowResume: bool,
    accessibleByPerRequestKey: bool,
    contentPartsSupported: bool)

  /** Builds the summary from `defaults`, the values of a freshly created
      summary: an endpoint flag is set exactly when the endpoint is
      configured, a capability is copied only when configured. */
  function CreateFeatures(defaults: FeaturesData, features: Option<Features>): FeaturesData {
    match features
    case None => defaults
    case Some(f) =>
      FeaturesData(
        rate := f.rateEndpoint.Some?,
        tokenize := f.tokenizeEndpoint.Some?,
        truncatePrompt := f.truncatePromptEndpoint.Some?,
        configuration := f.configurationEndpoint.Some?,
        systemPrompt := f.systemPromptSupported.GetOr(defaults.systemPrompt),
        tools := f.toolsSupported.GetOr(defaults.tools),
        seed := f.seedSupported.GetOr(defaults.seed),
        urlAttachments := f.urlAttachmentsSupported.GetOr(defaults.urlAttachments),
        folderAttachments := f.folderAttachmentsSupported.GetOr(defaults.folderAttachments),
        allowResume := f.allowResume.GetOr(defaults.allowResume),
        accessibleByPerRequestKey := f.accessibleByPerRequestKey.GetOr(defaults.accessibleByPerRequestKey),
        contentPartsSupported := f.contentPartsSupported.GetOr(defaults.contentPartsSupported))
  }

  /** Features with nothing configured. */
  const NoFeatures: Features := Features(None, None, None, None, None, None, None, None, None, None, None, None)

  /** Missing features and features with nothing configured give the same
      summary exactly when the fresh summary has no endpoint flag set. */
  lemma MissingLikeEmpty(defaults: FeaturesData)
    ensures CreateFeatures(defaults, None) == CreateFeatures(defaults, Some(NoFeatures))
            <==> !defaults.rate && !defaults.tokenize && !defaults.truncatePrompt && !defaults.configuration
  {
  }

  /** Building the summary again on top of a built one changes nothing: the
      configured features decide every field they set. */
  lemma CreateFeaturesIdempotent(defaults: FeaturesData, f: Features)
    ensures CreateFeatures(CreateFeatures(defaults, Some(f)), Some(f)) == CreateFeatures(defaults, Some(f))
  {
  }

  /** The summary field by field: without features it is the fresh one;
      otherwise each endpoint flag is set exactly when that endpoint is
      configured, and a capability is copied when configured and keeps the
      fresh summary's value when not. */
  lemma CreateFeaturesFields(defaults: FeaturesData, f: Features)
    ensures CreateFeatures(defaults, None) == defaults
    ensures var d := CreateFeatures(defaults, Some(f));
            (d.rate <==> f.rateEndpoint.Some?) && (d.tokenize <==> f.tokenizeEndpoint.Some?)
            && (d.truncatePrompt <==> f.truncatePromptEndpoint.Some?)
            && (d.configuration <==> f.configurationEndpoint.Some?)
    ensures var d := CreateFeatures(defaults, Some(f));
            (f.systemPromptSupported.None? ==> d.systemPrompt == defaults.systemPrompt)
            && (f.systemPromptSupported.Some? ==> d.systemPrompt == f.systemPromptSupported.value)
            && (f.toolsSupported.None? ==> d.tools == defaults.tools)
            && (f.toolsSupported.Some? ==> d.tools == f.toolsSupported.value)
            && (f.seedSupported.None? ==> d.seed == defaults.seed)
            && (f.seedSupported.Some? ==> d.seed == f.seedSupported.value)
            && (f.urlAttachmentsSupported.None? ==> d.urlAttachments == defaults.urlAttachments)
            && (f.urlAttachmentsSupported.Some? ==> d.urlAttachments == f.urlAttachmentsSupported.value)
            && (f.folderAttachmentsSupported.None? ==> d.folderAttachments == defaults.folderAttachments)
            && (f.folderAttachmentsSupported.Some? ==> d.folderAttachments == f.folderAttachmentsSupported.value)
            && (f.allowResume.None? ==> d.allowResume == defaults.allowResume)
            && (f.allowResume.Some? ==> d.allowResume == f.allowResume.value)
            && (f.accessibleByPerRequestKey.None? ==> d.accessibleByPerRequestKey == defaults.accessibleByPerRequestKey)
            && (f.accessibleByPerRequestKey.Some? ==> d.accessibleByPerRequestKey == f.accessibleByPerRequestKey.value)
            && (f.contentPartsSupported.None? ==> d.contentPartsSupported == defaults.contentPartsSupported)
            && (f.contentPartsSupported.Some? ==> d.contentPartsSupported == f.contentPartsSupported.value)
  {
  }

  /** The models passing the access check, in order. */
  function Accessible<M>(models: seq<M>, hasAccess: M -> bool): seq<M>
    decreases |models|
  {
    if |models| == 0 then []
    else (if hasAccess(models[0]) then [models[0]] else []) + Accessible(models[1..], hasAccess)
  }

  function MapSeq<M, D>(ms: seq<M>, f: M -> D): (ds: seq<D>)
    ensures |ds| == |ms|
    decreases |ms|
  {
    if |ms| == 0 then [] else [f(ms[0])] + MapSeq(ms[1..], f)
  }

  /** A model is listed exactly when it is configured and accessible. */
  lemma {:induction false} AccessibleMembers<M>(models: seq<M>, hasAccess: M -> bool, m: M)
    ensures m in Accessible(models, hasAccess) <==> m in models && hasAccess(m)
    decreases |models|
  {
    if |models| > 0 {
      AccessibleMembers(models[1..], hasAccess, m);
      assert models == [models[0]] + models[1..];
    }
  }

  /** `a` is `b` with some elements left out, the rest in the same order. */
  ghost predicate IsSubsequence<T>(a: seq<T>, b: seq<T>)
    decreases |b|
  {
    |a| == 0 || (|b| > 0 && ((a[0] == b[0] && IsSubsequence(a[1..], b[1..])) || IsSubsequence(a, b[1..])))
  }

  /** Listing keeps the configuration's order. */
  lemma {:induction false} AccessibleInOrder<M>(models: seq<M>, hasAccess: M -> bool)
    ensures IsSubsequence(Accessible(models, hasAccess), models)
    decreases |models|
  {
    if |models| > 0 {
      AccessibleInOrder(models[1..], hasAccess);
      var a := Accessible(models, hasAccess);
      if hasAccess(models[0]) {
        assert a[0] == models[0];
        assert a[1..] == Accessible(models[1..], hasAccess);
      } else {
        assert a == Accessible(models[1..], hasAccess);
      }
    }
  }

  /** Lists the accessible models, in the configuration's order, as response records. */
  method GetDeployments<M, D>(models: seq<M>, hasAccess: M -> bool, createModel: M -> D) returns (deployments: seq<D>)
    ensures deployments == MapSeq(Accessible(models, hasAccess), createModel)
  {
    deployments := [];
    var i := 0;
    ghost var total := MapSeq(Accessible(models, hasAccess), createModel);
    assert models[0..] == models;
    while i < |models|
      invariant 0 <= i <= |models|
      invariant deployments + MapSeq(Accessible(models[i..], hasAccess), createModel) == total
    {
      var model := models[i];
      AccessibleStep(models, i, hasAccess, createModel);
      ghost var head: seq<D> := if hasAccess(model) then [createModel(model)] else [];
      ConcatAssoc(deployments, head, MapSeq(Accessible(models[i + 1..], hasAccess), createModel));
      if hasAccess(model) {
        deployments := deployments + [createModel(model)];
      } else {
        assert deployments == deployments + head;
      }
      i := i + 1;
    }
    assert models[i..] == [];
  }

  lemma ConcatAssoc<T>(a: seq<T>, b: seq<T>, c: seq<T>)
    ensures a + (b + c) == (a + b) + c
  {
  }

  /** One step of the listing loop, in terms of the specification. */
  lemma AccessibleStep<M, D>(models: seq<M>, i: nat, hasAccess: M -> bool, createModel: M -> D)
    requires i < |models|
    ensures MapSeq(Accessible(models[i..], hasAccess), createModel)
         == (if hasAccess(models[i]) then [createModel(models[i])] else [])
            + MapSeq(Accessible(models[i + 1..], hasAccess), createModel)
  {
    var tail := models[i..];
    assert tail[0] == models[i] && tail[1..] == models[i + 1..];
    var head: seq<M> := if hasAccess(models[i]) then [models[i]] else [];
    assert Accessible(tail, hasAccess) == head + Accessible(models[i + 1..], hasAccess);
    MapAppend(head, Accessible(models[i + 1..], hasAccess), createModel);
  }

  lemma {:induction false} MapAppend<M, D>(a: seq<M>, b: seq<M>, f: M -> D)
    ensures MapSeq(a + b, f) == MapSeq(a, f) + MapSeq(b, f)
    decreases |a|
  {
    if |a| == 0 {
      assert a + b == b;
    } else {
      assert (a + b)[0] == a[0] && (a + b)[1..] == a[1..] + b;
      MapAppend(a[1..], b, f);
    }
  }

  const OkStatus: int := 200
  const ForbiddenStatus: int := 403
  const NotFoundStatus: int := 404

  datatype Response<D> = Response(status: int, body: Option<D>)

  /** The model configured under `id`, if any (the first such entry). */
  function Lookup<M>(entries: seq<(string, M)>, id: string): Option<M>
    decreases |entries|
  {
    if |entries| == 0 then None
    else if entries[0].0 == id then Some(entries[0].1)
    else Lookup(entries[1..], id)
  }

  function Values<M>(entries: seq<(string, M)>): seq<M>
    decreases |entries|
  {
    if |entries| == 0 then [] else [entries[0].1] + Values(entries[1..])
  }

  /** One model: 404 when unknown, 403 without access, 200 with its record otherwise. */
  function GetDeployment<M, D>(entries: seq<(string, M)>, id: string, hasAccess: M -> bool, createModel: M -> D): (r: Response<D>)
    ensures r.status == OkStatus <==> Lookup(entries, id).Some? && hasAccess(Lookup(entries, id).value)
    ensures r.status == NotFoundStatus <==> Lookup(entries, id).None?
    ensures r.body.Some? <==> r.status == OkStatus
    ensures Lookup(entries, id).Some? && !hasAccess(Lookup(entries, id).value) ==> r.status == ForbiddenStatus
    ensures r.status == OkStatus ==> r.body == Some(createModel(Lookup(entries, id).value))
  {
    match Lookup(entries, id)
    case None => Response(NotFoundStatus, None)
    case Some(model) =>
      if !hasAccess(model) then Response(ForbiddenStatus, None)
      else Response(OkStatus, Some(createModel(model)))
  }

  lemma {:induction false} LookupFindsValue<M>(entries: seq<(string, M)>, id: string)
    ensures Lookup(entries, id).Some? ==> Lookup(entries, id).value in Values(entries)
    decreases |entries|
  {
    if |entries| > 0 && entries[0].0 != id {
      LookupFindsValue(entries[1..], id);
    }
  }

  lemma {:induction false} MapSeqAt<M, D>(ms: seq<M>, f: M -> D, i: nat)
    requires i < |ms|
    ensures MapSeq(ms, f)[i] == f(ms[i])
    decreases i
  {
    if i > 0 {
      MapSeqAt(ms[1..], f, i - 1);
    }
  }

  /** A model answered with 200 is also in the list of accessible models. */
  lemma FoundDeploymentIsListed<M, D>(entries: seq<(string, M)>, id: string, hasAccess: M -> bool, createModel: M -> D)
    requires GetDeployment(entries, id, hasAccess, createModel).status == OkStatus
    ensures GetDeployment(entries, id, hasAccess, createModel).body.value
              in MapSeq(Accessible(Values(entries), hasAccess), createModel)
  {
    var m := Lookup(entries, id).value;
    LookupFindsValue(entries, id);
    AccessibleMembers(Values(entries), hasAccess, m);
    var acc := Accessible(Values(entries), hasAccess);
    var i :| 0 <= i < |acc| && acc[i] == m;
    MapSeqAt(acc, createModel, i);
  }
}
