/** Model of the lifecycle status of a function-backed application
    (Application.Function.Status): its two predicates and the legacy names
    accepted when decoding. */
module Applications {
  import opened Common

  datatype FunctionStatus = Deploying | Undeploying | Deployed | Undeployed | Failed

  /** Whether a deployment or undeployment is in progress. */
  predicate IsPending(s: FunctionStatus) {
    match s
    case Deployed | Failed | Undeployed => false
    case Deploying | Undeploying => true
  }

  /** Whether the function is, or is about to be, running. */
  predicate IsActive(s: FunctionStatus) {
    match s
    case Failed | Undeployed => false
    case Deploying | Deployed | Undeploying => true
  }

  /** The canonical name of each status. */
  function Name(s: FunctionStatus): string {
    match s
    case Deploying => "DEPLOYING"
    case Undeploying => "UNDEPLOYING"
    case Deployed => "DEPLOYED"
    case Undeployed => "UNDEPLOYED"
    case Failed => "FAILED"
  }

  /** Decodes a status name: the canonical names and the legacy aliases. */
  function Decode(name: string): Option<FunctionStatus> {
    if name == "DEPLOYING" || name == "STARTING" then Some(Deploying)
    else if name == "UNDEPLOYING" || name == "STOPPING" then Some(Undeploying)
    else if name == "DEPLOYED" || name == "STARTED" then Some(Deployed)
    else if name == "UNDEPLOYED" || name == "CREATED" || name == "STOPPED" then Some(Undeployed)
    else if name == "FAILED" then Some(Failed)
    else None
  }

  /** Pending is exactly DEPLOYING or UNDEPLOYING. */
  lemma PendingExactly(s: FunctionStatus)
    ensures IsPending(s) <==> s == Deploying || s == Undeploying
  {
  }

  /** Inactive is exactly FAILED or UNDEPLOYED. */
  lemma InactiveExactly(s: FunctionStatus)
    ensures !IsActive(s) <==> s == Failed || s == Undeployed
  {
  }

  /** A pending status is active; DEPLOYED is active without being pending. */
  lemma PendingIsActive(s: FunctionStatus)
    ensures IsPending(s) ==> IsActive(s)
    ensures IsActive(Deployed) && !IsPending(Deployed)
  {
  }

  /** Canonical names decode to their status. */
  lemma DecodeName(s: FunctionStatus)
    ensures Decode(Name(s)) == Some(s)
  {
  }

  /** The legacy names decode to the statuses that replaced them. */
  lemma LegacyAliases()
    ensures Decode("STARTING") == Some(Deploying)
    ensures Decode("STOPPING") == Some(Undeploying)
    ensures Decode("STARTED") == Some(Deployed)
    ensures Decode("CREATED") == Some(Undeployed) && Decode("STOPPED") == Some(Undeployed)
  {
  }

  /** Only canonical names and the five aliases decode. */
  lemma DecodeOnlyKnown(name: string)
    ensures Decode(name).Some? <==>
              (exists s :: Name(s) == name)
              || name in {"STARTING", "STOPPING", "STARTED", "CREATED", "STOPPED"}
  {
    if Decode(name).Some? && name !in {"STARTING", "STOPPING", "STARTED", "CREATED", "STOPPED"} {
      assert Name(Decode(name).value) == name;
    }
  }
}
