/** Model of the resource types and their URL group names (ResourceType). */
module ResourceTypes {
  import opened Common

  datatype ResourceType =
    | File | Conversation | Prompt | Limit | SharedWithMe | SharedByMe | Invitation
    | Publication | Rules | ApiKeyData | Notification | Application | DeploymentCostStats

  /** Every resource type, in declaration order. */
  const All: seq<ResourceType> := [File, Conversation, Prompt, Limit, SharedWithMe, SharedByMe,
                                   Invitation, Publication, Rules, ApiKeyData, Notification,
                                   Application, DeploymentCostStats]

  /** The types a group name can be decoded to. */
  const Decodable: set<ResourceType> := {File, Conversation, Prompt, Invitation, Publication, Application}

  /** The group name of each type, as it appears in resource URLs. */
  function Group(t: ResourceType): string {
    match t
    case File => "files"
    case Conversation => "conversations"
    case Prompt => "prompts"
    case Limit => "limits"
    case SharedWithMe => "shared_with_me"
    case SharedByMe => "shared_by_me"
    case Invitation => "invitations"
    case Publication => "publications"
    case Rules => "rules"
    case ApiKeyData => "api_key_data"
    case Notification => "notifications"
    case Application => "applications"
    case DeploymentCostStats => "deployment_cost_stats"
  }

  /** Decodes a group name; any name other than the six supported ones is refused. */
  function Of(group: string): (r: Option<ResourceType>)
    ensures r.Some? ==> r.value in Decodable && Group(r.value) == group
    ensures r.None? <==> forall t :: t in Decodable ==> Group(t) != group
  {
    if group == "files" then Some(File)
    else if group == "conversations" then Some(Conversation)
    else if group == "prompts" then Some(Prompt)
    else if group == "invitations" then Some(Invitation)
    else if group == "publications" then Some(Publication)
    else if group == "applications" then Some(Application)
    else None
  }

  /** Decoding a group name gives back exactly the six supported types. */
  lemma OfGroup(t: ResourceType)
    ensures Of(Group(t)) == if t in Decodable then Some(t) else None
  {
  }

  /** The thirteen group names are pairwise distinct. */
  lemma GroupsDistinct()
    ensures |All| == 13 && Distinct(All)
    ensures forall i, j :: 0 <= i < j < |All| ==> Group(All[i]) != Group(All[j])
  {
  }

  /** The range of `Of` is exactly the six supported types. */
  lemma OfRange()
    ensures forall t :: t in Decodable <==> exists g :: Of(g) == Some(t)
  {
    forall t | t in Decodable
      ensures exists g :: Of(g) == Some(t)
    {
      OfGroup(t);
    }
  }
}
