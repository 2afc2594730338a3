/** Model of the publication bookkeeping (PublicationService): validating a
    publication request, the publication records kept per user and in the
    public index, and the PENDING -> APPROVED / REJECTED workflow.

    Every user's publication file is a map from publication URL to
    publication. A publication URL embeds its owner's bucket
    ("publications/<bucket>/<id>"), so the model keeps all the users' files
    as one map keyed by URL; a user's file is the part of it under that
    user's prefix. The public index holds a metadata-only copy of every
    publication awaiting review.

    The storage, access, application and encryption services are
    collaborators: their answers are the fields of `Services`. */
module Publications {
  import opened Common
  import ResourceTypes

  datatype Status = Pending | Approved | Rejected

  datatype ResourceAction = Add | Delete

  /** One resource of a publication request; `action` may be missing from the request. */
  datatype Resource = Resource(
    action: Option<ResourceAction>,
    sourceUrl: Option<string>,
    targetUrl: Option<string>,
    reviewUrl: Option<string>)

  /** The rule functions: TRUE and FALSE need no targets, every other function does. */
  datatype RuleFunction = TrueFunction | FalseFunction | OtherFunction(name: string)

  datatype Rule = Rule(ruleFunction: Option<RuleFunction>, source: Option<string>, targets: Option<seq<string>>)

  datatype Publication = Publication(
    url: Option<string>,
    name: Option<string>,
    targetFolder: Option<string>,
    status: Option<Status>,
    resourceTypes: Option<set<ResourceTypes.ResourceType>>,
    createdAt: Option<int>,
    resources: Option<seq<Resource>>,
    rules: Option<seq<Rule>>)

  /** Why a request or an operation is refused. */
  datatype Failure =
    | MissingTargetFolder
    | RulesForRootFolder
    | NothingToPublish
    | BadTargetFolder
    | MissingResources          // rules given but no resource list: the resource loop dereferences null
    | MissingAction
    | Refused(reason: string)   // a collaborator's check on one resource failed
    | DuplicateSource(url: string)
    | DuplicateTarget(url: string)
    | DuplicateReview(url: string)
    | NoPublicAccess
    | MissingRuleFunction
    | MissingRuleSource
    | MissingRuleTargets
    | AlreadyExists
    | NotFound
    | AlreadyFinalized
    | ChangedDuringApproval

  /** The normalized source, target and review URLs of a resource to add. */
  datatype Resolved = Resolved(source: string, target: string, review: string)

  /** The collaborators' answers. `resolveAddition(resource, targetFolder, reviewBucket)` runs the
      checks of an added resource that come before its URLs are claimed (read access, not a
      folder, matching types, inside the target folder, source present, target absent) and
      derives its URLs; `deletionShape(targetUrl, targetFolder)` runs those of a deleted
      resource (supported type, not a folder, inside the target folder);
      `deletionAllowed(targetUrl, bucket, isAdmin)` those that come after its URL is claimed
      (target present, application author). */
  datatype Services = Services(
    resolveAddition: (Resource, string, string) -> Result<Resolved, Failure>,
    deletionShape: (string, string) -> Option<Failure>,
    deletionAllowed: (string, string, bool) -> Option<Failure>,
    hasPublicAccess: set<string> -> bool,
    encrypt: string -> string)

  /** What the resource checks of one request share. */
  datatype Scope = Scope(targetFolder: string, reviewBucket: string, bucket: string, isAdmin: bool, services: Services)

  const PublicationsName := "publications"
  const PublicRoot := "public/"

  /** The URL of a new publication: "publications/<bucket>/<id>". */
  function PublicationUrl(bucket: string, id: string): string {
    PublicationsName + "/" + bucket + "/" + id
  }

  /** The plain path of a publication's review bucket, before encryption. */
  function ReviewPath(bucketLocation: string, id: string): string {
    bucketLocation + PublicationsName + "/" + id + "/"
  }

  function ReviewBucket(bucketLocation: string, id: string, encrypt: string -> string): string {
    encrypt(ReviewPath(bucketLocation, id))
  }

  /** A target folder must lie in the public bucket and be a folder. */
  predicate IsPublicFolder(folder: string) {
    PublicRoot <= folder && folder[|folder| - 1] == '/'
  }

  // ---------------------------------------------------------------------------
  // Review buckets

  /** Whether `part` occurs in `s`. */
  predicate Contains(s: string, part: string)
    decreases |s|
  {
    part <= s || (|s| > 0 && Contains(s[1..], part))
  }

  lemma {:induction false} ContainsInside(a: string, part: string, b: string)
    ensures Contains(a + part + b, part)
    decreases |a|
  {
    if |a| == 0 {
      assert a + part + b == part + b;
    } else {
      assert (a + part + b)[1..] == a[1..] + part + b;
      ContainsInside(a[1..], part, b);
    }
  }

  /** A review bucket is a private bucket whose location mentions the publications folder. */
  predicate IsReviewBucket(isPrivate: bool, bucketLocation: string) {
    isPrivate && Contains(bucketLocation, PublicationsName)
  }

  /** The URL prefix under which a bucket's publications are stored. */
  function BucketPrefix(bucket: string): string {
    PublicationsName + "/" + bucket + "/"
  }

  /** Two different buckets (bucket names never contain a slash) share no publication URL. */
  lemma BucketPrefixesDisjoint(b1: string, b2: string, u: string)
    requires '/' !in b1 && '/' !in b2 && b1 != b2
    ensures !(BucketPrefix(b1) <= u && BucketPrefix(b2) <= u)
  {
    var n := |PublicationsName| + 1;
    if BucketPrefix(b1) <= u {
      if |b1| < |b2| {
        assert u[n + |b1|] == '/' != b2[|b1|] == BucketPrefix(b2)[n + |b1|];
      } else if |b2| < |b1| {
        assert BucketPrefix(b2)[n + |b2|] == '/' != b1[|b2|] == u[n + |b2|];
      } else {
        assert u[n..n + |b1|] == b1 != b2 == BucketPrefix(b2)[n..n + |b2|];
      }
    }
  }

  /** The review bucket derived for a new publication is recognised as one. */
  lemma ReviewPathIsReviewBucket(bucketLocation: string, id: string)
    ensures IsReviewBucket(true, ReviewPath(bucketLocation, id))
  {
    assert ReviewPath(bucketLocation, id) == bucketLocation + PublicationsName + ("/" + id + "/");
    ContainsInside(bucketLocation, PublicationsName, "/" + id + "/");
  }

  /** A public bucket is never a review bucket. */
  lemma PublicIsNotReviewBucket(bucketLocation: string)
    ensures !IsReviewBucket(false, bucketLocation)
  {
  }

  // ---------------------------------------------------------------------------
  // Metadata copies

  /** The copy kept in the public index: identity, folder, status, types and time only. */
  function NewMetadata(p: Publication): (m: Publication)
    ensures m.url == p.url && m.name == p.name && m.targetFolder == p.targetFolder
    ensures m.status == p.status && m.resourceTypes == p.resourceTypes && m.createdAt == p.createdAt
    ensures m.resources.None? && m.rules.None?
  {
    Publication(p.url, p.name, p.targetFolder, p.status, p.resourceTypes, p.createdAt, None, None)
  }

  /** The listing form: resources and rules dropped, everything else kept. */
  function LeaveMetadata(p: Publication): Publication {
    p.(resources := None, rules := None)
  }

  /** Metadata is a projection: taking it twice, or after listing, changes nothing. */
  lemma MetadataProjection(p: Publication)
    ensures NewMetadata(NewMetadata(p)) == NewMetadata(p)
    ensures NewMetadata(LeaveMetadata(p)) == NewMetadata(p)
    ensures LeaveMetadata(LeaveMetadata(p)) == LeaveMetadata(p)
    ensures LeaveMetadata(p).(resources := p.resources, rules := p.rules) == p
  {
  }

  // ---------------------------------------------------------------------------
  // Link replacement

  /** Replaces a URL by its new location when its decoded form is a known link. */
  function ReplaceLink(links: map<string, string>, url: Option<string>, decodePath: string -> string): (r: Option<string>)
    ensures url.Some? && decodePath(url.value) in links ==> r == Some(links[decodePath(url.value)])
    ensures url.None? || decodePath(url.value) !in links ==> r == url
    ensures r.None? <==> url.None?
    ensures r != url ==> r.value in links.Values
  {
    if url.Some? && decodePath(url.value) in links then Some(links[decodePath(url.value)]) else url
  }

  /** When no new location is itself a replaceable link, replacing twice is replacing once. */
  lemma ReplaceLinkIdempotent(links: map<string, string>, url: Option<string>, decodePath: string -> string)
    requires forall k :: k in links ==> decodePath(links[k]) !in links
    ensures ReplaceLink(links, ReplaceLink(links, url, decodePath), decodePath) == ReplaceLink(links, url, decodePath)
  {
  }

  /** With no links, every URL is kept. */
  lemma ReplaceLinkWithoutLinks(url: Option<string>, decodePath: string -> string)
    ensures ReplaceLink(map[], url, decodePath) == url
  {
  }

  // ---------------------------------------------------------------------------
  // Rules

  /** A rule is complete when it names a function and a source, and has targets unless TRUE or FALSE. */
  predicate RuleComplete(rule: Rule) {
    rule.ruleFunction.Some? && rule.source.Some?
    && (rule.ruleFunction.value == TrueFunction || rule.ruleFunction.value == FalseFunction
        || (rule.targets.Some? && |rule.targets.value| > 0))
  }

  /** The failure for the first incomplete rule, if any. */
  function RuleFailure(rules: seq<Rule>): (r: Option<Failure>)
    ensures r.None? <==> forall i :: 0 <= i < |rules| ==> RuleComplete(rules[i])
    ensures r.Some? ==> r.value in {MissingRuleFunction, MissingRuleSource, MissingRuleTargets}
  {
    if |rules| == 0 then None
    else
      var rule := rules[0];
      if rule.ruleFunction.None? then Some(MissingRuleFunction)
      else if rule.source.None? then Some(MissingRuleSource)
      else if rule.ruleFunction.value != TrueFunction && rule.ruleFunction.value != FalseFunction
              && (rule.targets.None? || |rule.targets.value| == 0) then Some(MissingRuleTargets)
      else
        var rest := RuleFailure(rules[1..]);
        assert forall i :: 1 <= i < |rules| ==> rules[i] == rules[1..][i - 1];
        rest
  }

  /** Absent rules are valid; present rules must all be complete. */
  function ValidateRules(rules: Option<seq<Rule>>): (r: Option<Failure>)
    ensures r.None? <==> rules.None? || forall i :: 0 <= i < |rules.value| ==> RuleComplete(rules.value[i])
  {
    if rules.None? then None else RuleFailure(rules.value)
  }

  // ---------------------------------------------------------------------------
  // Resource checks

  /** The URLs a checked resource claims: source, target and review for an addition, the target for a deletion. */
  function Claimed(r: Resource): seq<string> {
    if r.action == Some(Add) && r.sourceUrl.Some? && r.targetUrl.Some? && r.reviewUrl.Some? then
      [r.sourceUrl.value, r.targetUrl.value, r.reviewUrl.value]
    else if r.targetUrl.Some? then [r.targetUrl.value]
    else []
  }

  function AllClaimed(rs: seq<Resource>): seq<string>
    decreases |rs|
  {
    if |rs| == 0 then [] else AllClaimed(rs[..|rs| - 1]) + Claimed(rs[|rs| - 1])
  }

  /** Checks one resource against the URLs claimed so far; on success, the resource with its
      normalized URLs and the claimed set extended. */
  function Step(r: Resource, scope: Scope, urls: set<string>): Result<(Resource, set<string>), Failure> {
    match r.action
    case None => Err(MissingAction)
    case Some(Add) =>
      (match scope.services.resolveAddition(r, scope.targetFolder, scope.reviewBucket)
       case Err(e) => Err(e)
       case Ok(Resolved(s, t, v)) =>
         if s in urls then Err(DuplicateSource(s))
         else if t in urls + {s} then Err(DuplicateTarget(t))
         else if v in urls + {s, t} then Err(DuplicateReview(v))
         else Ok((r.(sourceUrl := Some(s), targetUrl := Some(t), reviewUrl := Some(v)), urls + {s, t, v})))
    case Some(Delete) =>
      (match r.targetUrl
       case None => Err(Refused("target url is missing"))
       case Some(t) =>
         (match scope.services.deletionShape(t, scope.targetFolder)
          case Some(e) => Err(e)
          case None =>
            if t in urls then Err(DuplicateTarget(t))
            else match scope.services.deletionAllowed(t, scope.bucket, scope.isAdmin)
              case Some(e) => Err(e)
              case None => Ok((r, urls + {t}))))
  }

  /** Checks the resources in order, stopping at the first failure. */
  function Verdict(rs: seq<Resource>, scope: Scope): Result<(seq<Resource>, set<string>), Failure>
    decreases |rs|
  {
    if |rs| == 0 then Ok(([], {}))
    else
      match Verdict(rs[..|rs| - 1], scope)
      case Err(e) => Err(e)
      case Ok((done, urls)) =>
        match Step(rs[|rs| - 1], scope, urls)
        case Err(e) => Err(e)
        case Ok((r, urls')) => Ok((done + [r], urls'))
  }

  lemma DistinctAppend(a: seq<string>, b: seq<string>)
    requires Distinct(a) && Distinct(b)
    requires forall x :: x in b ==> x !in a
    ensures Distinct(a + b)
  {
    forall i, j | 0 <= i < j < |a + b|
      ensures (a + b)[i] != (a + b)[j]
    {
      if j < |a| {
        assert (a + b)[j] == a[j] && (a + b)[i] == a[i];
      } else if i < |a| {
        assert (a + b)[j] == b[j - |a|] && (a + b)[i] == a[i];
        assert b[j - |a|] in b;
      } else {
        assert (a + b)[j] == b[j - |a|] && (a + b)[i] == b[i - |a|];
      }
    }
  }

  lemma StepClaims(r: Resource, scope: Scope, urls: set<string>)
    requires Step(r, scope, urls).Ok?
    ensures var (r', urls') := Step(r, scope, urls).value;
            r'.action == r.action && Distinct(Claimed(r'))
            && (forall u :: u in Claimed(r') ==> u !in urls)
            && (forall u :: u in urls' <==> u in urls || u in Claimed(r'))
  {
  }

  /** A successful check of a non-empty list is a successful check of all but the last
      resource followed by a successful step on the last. */
  lemma VerdictLast(rs: seq<Resource>, scope: Scope)
    requires |rs| > 0 && Verdict(rs, scope).Ok?
    ensures var init := Verdict(rs[..|rs| - 1], scope);
            init.Ok? && Step(rs[|rs| - 1], scope, init.value.1).Ok?
            && Verdict(rs, scope).value
               == (init.value.0 + [Step(rs[|rs| - 1], scope, init.value.1).value.0],
                   Step(rs[|rs| - 1], scope, init.value.1).value.1)
  {
  }

  /** A successful check keeps one checked resource per requested one, with the same action,
      and no URL is claimed twice across sources, targets and review copies. */
  lemma {:induction false} VerdictClaims(rs: seq<Resource>, scope: Scope)
    requires Verdict(rs, scope).Ok?
    ensures var v := Verdict(rs, scope).value;
            |v.0| == |rs| && (forall i :: 0 <= i < |rs| ==> v.0[i].action == rs[i].action)
            && Distinct(AllClaimed(v.0))
            && (forall u :: u in v.1 <==> u in AllClaimed(v.0))
    decreases |rs|
  {
    if |rs| > 0 {
      var init := rs[..|rs| - 1];
      VerdictLast(rs, scope);
      VerdictClaims(init, scope);
      var v0 := Verdict(init, scope).value;
      StepClaims(rs[|rs| - 1], scope, v0.1);
      var step := Step(rs[|rs| - 1], scope, v0.1).value;
      ClaimsAppend(v0.0, step.0, v0.1, step.1);
      var done := v0.0 + [step.0];
      assert Verdict(rs, scope).value == (done, step.1);
      assert |done| == |init| + 1 == |rs|;
      forall i | 0 <= i < |rs|
        ensures done[i].action == rs[i].action
      {
        if i < |init| {
          assert done[i] == v0.0[i] && init[i] == rs[i];
          assert v0.0[i].action == init[i].action;
        } else {
          assert i == |rs| - 1 && done[i] == step.0;
        }
      }
    }
  }

  lemma ClaimsAppend(done: seq<Resource>, r: Resource, urls: set<string>, urls': set<string>)
    requires Distinct(AllClaimed(done)) && (forall u :: u in urls <==> u in AllClaimed(done))
    requires Distinct(Claimed(r)) && (forall u :: u in Claimed(r) ==> u !in urls)
    requires forall u :: u in urls' <==> u in urls || u in Claimed(r)
    ensures Distinct(AllClaimed(done + [r])) && (forall u :: u in urls' <==> u in AllClaimed(done + [r]))
  {
    var all := done + [r];
    assert all[..|all| - 1] == done;
    assert AllClaimed(all) == AllClaimed(done) + Claimed(r);
    DistinctAppend(AllClaimed(done), Claimed(r));
  }

  /** Once a prefix of the resources fails, the whole list fails the same way. */
  lemma {:induction false} VerdictErrExtends(rs: seq<Resource>, k: nat, scope: Scope)
    requires k <= |rs| && Verdict(rs[..k], scope).Err?
    ensures Verdict(rs, scope) == Verdict(rs[..k], scope)
    decreases |rs| - k
  {
    if k < |rs| {
      assert rs[..k + 1][..k] == rs[..k];
      VerdictErrExtends(rs, k + 1, scope);
    } else {
      assert rs[..k] == rs;
    }
  }

  /** Checks an added resource and claims its source, target and review URLs. */
  method ValidateForAddition(resource: Resource, scope: Scope, urls: set<string>)
    returns (r: Result<Resource, Failure>, claimed: set<string>)
    requires resource.action == Some(Add)
    ensures r.Ok? ==> Step(resource, scope, urls) == Ok((r.value, claimed))
    ensures r.Err? ==> Step(resource, scope, urls) == Err(r.error)
  {
    claimed := urls;
    var resolved := scope.services.resolveAddition(resource, scope.targetFolder, scope.reviewBucket);
    if resolved.Err? {
      return Err(resolved.error), claimed;
    }
    var Resolved(sourceUrl, targetUrl, reviewUrl) := resolved.value;
    if sourceUrl in claimed {
      return Err(DuplicateSource(sourceUrl)), claimed;
    }
    claimed := claimed + {sourceUrl};
    if targetUrl in claimed {
      return Err(DuplicateTarget(targetUrl)), claimed;
    }
    claimed := claimed + {targetUrl};
    if reviewUrl in claimed {
      return Err(DuplicateReview(reviewUrl)), claimed;
    }
    claimed := claimed + {reviewUrl};
    assert claimed == urls + {sourceUrl, targetUrl, reviewUrl};
    r := Ok(resource.(sourceUrl := Some(sourceUrl), targetUrl := Some(targetUrl), reviewUrl := Some(reviewUrl)));
  }

  /** Checks a deleted resource and claims its target URL. */
  method ValidateForDeletion(resource: Resource, scope: Scope, urls: set<string>)
    returns (r: Result<Resource, Failure>, claimed: set<string>)
    requires resource.action == Some(Delete)
    ensures r.Ok? ==> Step(resource, scope, urls) == Ok((r.value, claimed))
    ensures r.Err? ==> Step(resource, scope, urls) == Err(r.error)
  {
    claimed := urls;
    if resource.targetUrl.None? {
      return Err(Refused("target url is missing")), claimed;
    }
    var targetUrl := resource.targetUrl.value;
    var shape := scope.services.deletionShape(targetUrl, scope.targetFolder);
    if shape.Some? {
      return Err(shape.value), claimed;
    }
    if targetUrl in claimed {
      return Err(DuplicateTarget(targetUrl)), claimed;
    }
    claimed := claimed + {targetUrl};
    var allowed := scope.services.deletionAllowed(targetUrl, scope.bucket, scope.isAdmin);
    if allowed.Some? {
      return Err(allowed.value), claimed;
    }
    r := Ok(resource);
  }

  /** The resource loop: one shared set of claimed URLs, first failure wins. */
  method ValidateResources(resources: seq<Resource>, scope: Scope) returns (r: Result<seq<Resource>, Failure>)
    ensures match Verdict(resources, scope)
            case Ok((done, _)) => r == Ok(done)
            case Err(e) => r == Err(e)
  {
    var urls: set<string> := {};
    var done: seq<Resource> := [];
    var i := 0;
    while i < |resources|
      invariant 0 <= i <= |resources|
      invariant Verdict(resources[..i], scope) == Ok((done, urls))
    {
      var resource := resources[i];
      assert resources[..i + 1][..i] == resources[..i] && resources[..i + 1][i] == resource;
      var checked: Result<Resource, Failure>;
      if resource.action.None? {
        checked := Err(MissingAction);
      } else if resource.action.value == Add {
        checked, urls := ValidateForAddition(resource, scope, urls);
      } else {
        checked, urls := ValidateForDeletion(resource, scope, urls);
      }
      if checked.Err? {
        VerdictErrExtends(resources, i + 1, scope);
        return Err(checked.error);
      }
      done := done + [checked.value];
      i := i + 1;
    }
    assert resources[..i] == resources;
    r := Ok(done);
  }

  /** The target URLs of the checked resources, for the public-access check. */
  function Targets(rs: seq<Resource>): set<string> {
    set r | r in rs && r.targetUrl.Some? :: r.targetUrl.value
  }

  // ---------------------------------------------------------------------------
  // Request preparation

  /** What preparing a request yields: the first failing check, or the publication with its
      URL, normalized folder, creation time, PENDING status and checked resources. */
  function Prepared(p: Publication, bucket: string, bucketLocation: string, isAdmin: bool,
                    id: string, now: int, services: Services): Result<Publication, Failure>
  {
    if p.targetFolder.None? then Err(MissingTargetFolder)
    else if p.targetFolder.value == PublicRoot && p.rules.Some? && |p.rules.value| > 0 then Err(RulesForRootFolder)
    else if (p.resources.None? || |p.resources.value| == 0) && p.rules.None? then Err(NothingToPublish)
    else if !IsPublicFolder(p.targetFolder.value) then Err(BadTargetFolder)
    else if p.resources.None? then Err(MissingResources)
    else
      var scope := Scope(p.targetFolder.value, ReviewBucket(bucketLocation, id, services.encrypt), bucket, isAdmin, services);
      match Verdict(p.resources.value, scope)
      case Err(e) => Err(e)
      case Ok((done, _)) =>
        if !services.hasPublicAccess(Targets(done)) then Err(NoPublicAccess)
        else if ValidateRules(p.rules).Some? then Err(ValidateRules(p.rules).value)
        else Ok(p.(url := Some(PublicationUrl(bucket, id)), createdAt := Some(now),
                   status := Some(Pending), resources := Some(done)))
  }

  /** Validates a publication request and fills in what the service decides. */
  method PrepareAndValidate(publication: Publication, bucket: string, bucketLocation: string, isAdmin: bool,
                            id: string, now: int, services: Services) returns (r: Result<Publication, Failure>)
    ensures r == Prepared(publication, bucket, bucketLocation, isAdmin, id, now, services)
  {
    if publication.targetFolder.None? {
      return Err(MissingTargetFolder);
    }
    var targetFolder := publication.targetFolder.value;
    if targetFolder == PublicRoot && publication.rules.Some? && |publication.rules.value| > 0 {
      return Err(RulesForRootFolder);
    }
    if (publication.resources.None? || |publication.resources.value| == 0) && publication.rules.None? {
      return Err(NothingToPublish);
    }
    if !IsPublicFolder(targetFolder) {
      return Err(BadTargetFolder);
    }
    var reviewBucket := ReviewBucket(bucketLocation, id, services.encrypt);
    var p := publication.(url := Some(PublicationUrl(bucket, id)), targetFolder := Some(targetFolder),
                          createdAt := Some(now), status := Some(Pending));
    if p.resources.None? {
      return Err(MissingResources);
    }
    var checked := ValidateResources(p.resources.value, Scope(targetFolder, reviewBucket, bucket, isAdmin, services));
    if checked.Err? {
      return Err(checked.error);
    }
    p := p.(resources := Some(checked.value));
    if !services.hasPublicAccess(Targets(checked.value)) {
      return Err(NoPublicAccess);
    }
    var rulesFailure := ValidateRules(p.rules);
    if rulesFailure.Some? {
      return Err(rulesFailure.value);
    }
    r := Ok(p);
  }

  /** An accepted request becomes a PENDING publication at its new URL, in a public folder,
      with one checked resource per requested one, no URL claimed twice, complete rules,
      and no rules when the folder is the public root; its name, types and rules are kept. */
  lemma PreparedShape(p: Publication, bucket: string, bucketLocation: string, isAdmin: bool,
                      id: string, now: int, services: Services)
    requires Prepared(p, bucket, bucketLocation, isAdmin, id, now, services).Ok?
    ensures var q := Prepared(p, bucket, bucketLocation, isAdmin, id, now, services).value;
            q.status == Some(Pending) && q.url == Some(PublicationUrl(bucket, id)) && q.createdAt == Some(now)
            && q.targetFolder == p.targetFolder && IsPublicFolder(q.targetFolder.value)
            && q.name == p.name && q.resourceTypes == p.resourceTypes && q.rules == p.rules
            && ValidateRules(q.rules).None?
            && (q.targetFolder.value == PublicRoot ==> q.rules.None? || |q.rules.value| == 0)
            && p.resources.Some? && q.resources.Some? && |q.resources.value| == |p.resources.value|
            && Distinct(AllClaimed(q.resources.value))
  {
    var scope := Scope(p.targetFolder.value, ReviewBucket(bucketLocation, id, services.encrypt), bucket, isAdmin, services);
    VerdictClaims(p.resources.value, scope);
  }

  // ---------------------------------------------------------------------------
  // The publication store

  class PublicationStore {
    /** Every user's publication file, keyed by publication URL. */
    var publications: map<string, Publication>
    /** The public index of publications awaiting review, as metadata copies. */
    var publicIndex: map<string, Publication>

    /** Every indexed publication is a PENDING publication of some user, indexed by its metadata. */
    ghost predicate Valid()
      reads this
    {
      forall u :: u in publicIndex ==>
        u in publications && publications[u].status == Some(Pending) && publicIndex[u] == NewMetadata(publications[u])
    }

    constructor ()
      ensures Valid() && publications == map[] && publicIndex == map[]
    {
      publications := map[];
      publicIndex := map[];
    }

    /** The stored publication at `url`. */
    function Get(url: string): (r: Result<Publication, Failure>)
      reads this
      ensures r.Ok? <==> url in publications
      ensures r.Ok? ==> r.value == publications[url]
      ensures r.Err? ==> r.error == NotFound
    {
      if url in publications then Ok(publications[url]) else Err(NotFound)
    }

    /** A user's publications in listing form: those under the user's URL prefix, without resources or rules. */
    function List(bucket: string): (r: map<string, Publication>)
      reads this
      ensures forall u :: u in r <==> u in publications && BucketPrefix(bucket) <= u
      ensures forall u :: u in r ==>
                (r[u].resources.None? && r[u].rules.None?
                 && r[u] == publications[u].(resources := None, rules := None))
      ensures forall u :: u in r ==> Get(u).Ok? && r[u] == LeaveMetadata(Get(u).value)
    {
      map u | u in publications && BucketPrefix(bucket) <= u :: LeaveMetadata(publications[u])
    }

    /** Validates a request, then stores the publication and its index entry. Each store
        refuses a URL it already holds; the first store stays written when the second refuses. */
    method Create(publication: Publication, bucket: string, bucketLocation: string, isAdmin: bool,
                  id: string, now: int, services: Services) returns (r: Result<Publication, Failure>)
      modifies this
      ensures old(Valid()) ==> Valid()
      ensures match Prepared(publication, bucket, bucketLocation, isAdmin, id, now, services)
              case Err(e) =>
                r == Err(e) && publications == old(publications) && publicIndex == old(publicIndex)
              case Ok(p) =>
                var url := PublicationUrl(bucket, id);
                if url in old(publications) then
                  r == Err(AlreadyExists) && publications == old(publications) && publicIndex == old(publicIndex)
                else if url in old(publicIndex) then
                  r == Err(AlreadyExists) && publications == old(publications)[url := p] && publicIndex == old(publicIndex)
                else
                  r == Ok(p) && publications == old(publications)[url := p]
                  && publicIndex == old(publicIndex)[url := NewMetadata(p)]
      ensures r.Ok? ==> var url := PublicationUrl(bucket, id);
                        Get(url) == Ok(r.value) && url in List(bucket)
                        && List(bucket)[url] == LeaveMetadata(r.value)
    {
      var prepared := PrepareAndValidate(publication, bucket, bucketLocation, isAdmin, id, now, services);
      if prepared.Err? {
        return prepared;
      }
      var p := prepared.value;
      var url := PublicationUrl(bucket, id);
      if url in publications {
        return Err(AlreadyExists);
      }
      publications := publications[url := p];
      if url in publicIndex {
        return Err(AlreadyExists);
      }
      publicIndex := publicIndex[url := NewMetadata(p)];
      r := Ok(p);
      assert url == BucketPrefix(bucket) + id;
    }

    /** Removes the index entry (if any), then the publication itself, which must exist. */
    method Delete(url: string) returns (r: Result<Publication, Failure>)
      requires Valid()
      modifies this
      ensures Valid()
      ensures publicIndex == old(publicIndex) - {url}
      ensures url in old(publications) ==>
                r == Ok(old(publications)[url]) && publications == old(publications) - {url}
      ensures url !in old(publications) ==> r == Err(NotFound) && publications == old(publications)
      ensures Get(url) == Err(NotFound)
    {
      publicIndex := publicIndex - {url};
      if url !in publications {
        return Err(NotFound);
      }
      var p := publications[url];
      publications := publications - {url};
      r := Ok(p);
    }

    /** Marks the stored publication APPROVED, provided it is still the one fetched. */
    method CommitApproval(url: string, fetched: Publication) returns (r: Result<Publication, Failure>)
      modifies this`publications
      ensures url in old(publications) && old(publications)[url] == fetched ==>
                r == Ok(fetched.(status := Some(Approved)))
                && publications == old(publications)[url := fetched.(status := Some(Approved))]
      ensures !(url in old(publications) && old(publications)[url] == fetched) ==>
                r == Err(ChangedDuringApproval) && publications == old(publications)
    {
      if url !in publications || publications[url] != fetched {
        return Err(ChangedDuringApproval);
      }
      var approved := fetched.(status := Some(Approved));
      publications := publications[url := approved];
      r := Ok(approved);
    }

    /** Approves a PENDING publication whose resources pass `check`, and removes its index entry. */
    method Approve(url: string, check: Publication -> Option<Failure>) returns (r: Result<Publication, Failure>)
      requires Valid()
      modifies this
      ensures Valid()
      ensures url !in old(publications) ==> r == Err(NotFound)
      ensures url in old(publications) && old(publications)[url].status != Some(Pending) ==> r == Err(AlreadyFinalized)
      ensures r.Err? ==> publications == old(publications) && publicIndex == old(publicIndex)
      ensures r.Ok? <==> url in old(publications) && old(publications)[url].status == Some(Pending)
                         && check(old(publications)[url]).None?
      ensures r.Ok? ==> r.value == old(publications)[url].(status := Some(Approved))
                        && publications == old(publications)[url := r.value]
                        && publicIndex == old(publicIndex) - {url}
    {
      var fetched := Get(url);
      if fetched.Err? {
        return Err(fetched.error);
      }
      var publication := fetched.value;
      if publication.status != Some(Pending) {
        return Err(AlreadyFinalized);
      }
      var failure := check(publication);
      if failure.Some? {
        return Err(failure.value);
      }
      r := CommitApproval(url, publication);
      if r.Err? {
        return;
      }
      publicIndex := publicIndex - {url};
    }

    /** Rejects a PENDING publication and removes its index entry. */
    method Reject(url: string) returns (r: Result<Publication, Failure>)
      requires Valid()
      modifies this
      ensures Valid()
      ensures url !in old(publications) ==> r == Err(NotFound)
      ensures url in old(publications) && old(publications)[url].status != Some(Pending) ==> r == Err(AlreadyFinalized)
      ensures r.Err? ==> publications == old(publications) && publicIndex == old(publicIndex)
      ensures r.Ok? <==> url in old(publications) && old(publications)[url].status == Some(Pending)
      ensures r.Ok? ==> r.value == old(publications)[url].(status := Some(Rejected))
                        && publications == old(publications)[url := r.value]
                        && publicIndex == old(publicIndex) - {url}
    {
      if url !in publications {
        return Err(NotFound);
      }
      var publication := publications[url];
      if publication.status != Some(Pending) {
        return Err(AlreadyFinalized);
      }
      var rejected := publication.(status := Some(Rejected));
      publications := publications[url := rejected];
      publicIndex := publicIndex - {url};
      r := Ok(rejected);
    }
  }

  /** Listings of two different buckets never share a publication. */
  lemma ListingsDisjoint(store: PublicationStore, b1: string, b2: string)
    requires '/' !in b1 && '/' !in b2 && b1 != b2
    ensures store.List(b1).Keys !! store.List(b2).Keys
  {
    forall u | u in store.List(b1).Keys
      ensures u !in store.List(b2).Keys
    {
      BucketPrefixesDisjoint(b1, b2, u);
    }
  }

  /** The workflow on a fresh store: a created publication is pending and indexed; once
      approved it leaves the index, and neither approving nor rejecting it again succeeds. */
  method Workflow(publication: Publication, bucket: string, bucketLocation: string, id: string, now: int,
                  services: Services)
    returns (store: PublicationStore, created: Result<Publication, Failure>)
    requires Prepared(publication, bucket, bucketLocation, false, id, now, services).Ok?
    ensures store.Valid()
    ensures created.Ok? && created.value.status == Some(Pending)
    ensures var url := PublicationUrl(bucket, id);
            url in store.publications && store.publications[url].status == Some(Approved)
            && url !in store.publicIndex
  {
    store := new PublicationStore();
    created := store.Create(publication, bucket, bucketLocation, false, id, now, services);
    var url := PublicationUrl(bucket, id);
    assert url in store.publicIndex;
    var approved := store.Approve(url, (q: Publication) => None);
    assert approved.Ok?;
    var again := store.Approve(url, (q: Publication) => None);
    assert again == Err(AlreadyFinalized);
    var rejected := store.Reject(url);
    assert rejected == Err(AlreadyFinalized);
  }
}
