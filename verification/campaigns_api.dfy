/**
 * `/api/campaigns` (src/pages/api/campaigns/index.ts): `POST` validates and
 * inserts a campaign, then links the chosen subscribers by inserting one
 * ledger row per id; `GET` lists campaigns with a subscriber count and a
 * template name. The database's answers are parameters.
 */
module CampaignsApi {
  import opened Wrappers
  import opened Js
  import opened Store

  /** The fields of a `POST` body. */
  datatype NewCampaign = NewCampaign(
    name: Option<string>,
    subject: Option<string>,
    body: Option<string>,
    templateId: Option<int>,
    subscriberIds: Option<seq<int>>)

  /** `templateId || null`: a falsy template id is stored as null. */
  function TemplateRef(templateId: Option<int>): (r: Option<int>)
    ensures TruthyId(templateId) ==> r == templateId
    ensures !TruthyId(templateId) ==> r.None?
  {
    if TruthyId(templateId) then templateId else None
  }

  /**
   * `subscriberIds.map(sid => ({campaign_id, subscriber_id: sid}))`: the link
   * rows of a new campaign, one per id and in order.
   */
  function LinkRows(campaignId: int, ids: seq<int>): (rows: seq<Key>)
    ensures |rows| == |ids|
  {
    seq(|ids|, i requires 0 <= i < |ids| => (campaignId, ids[i]))
  }

  /** Every link row names the new campaign, and reading back the subscriber column gives the ids as passed. */
  lemma LinkRowsRoundTrip(campaignId: int, ids: seq<int>)
    ensures forall k :: k in LinkRows(campaignId, ids) ==> k.0 == campaignId
    ensures seq(|ids|, i requires 0 <= i < |ids| => LinkRows(campaignId, ids)[i].1) == ids
  {
  }

  /** `subscriberIds?.length`: the ids to link, empty when absent. */
  function IdsToLink(ids: Option<seq<int>>): seq<int> {
    if ids.Some? then ids.value else []
  }

  /** The ledger after inserting `rows`, each new link unsent; a row already present is left as it is. */
  function InsertRows(ledger: Ledger, rows: seq<Key>): (r: Ledger)
    ensures r.Keys == ledger.Keys + set k | k in rows
    ensures forall k :: k in ledger ==> r[k] == ledger[k]
    ensures forall k :: k in r && k !in ledger ==> !r[k]
  {
    map k | k in ledger.Keys + (set k | k in rows) :: if k in ledger then ledger[k] else false
  }

  datatype PostResponse = MissingFields | InsertFailed(message: string) | Created(id: int, campaign: Campaign)

  datatype PostOutcome = PostOutcome(response: PostResponse, campaigns: map<int, Campaign>, ledger: Ledger)

  /**
   * The `POST` branch. `insert` is the database's answer to the campaign
   * insert (the new id, or an error message) and `linkOk` whether the link
   * insert succeeded; a failed link insert is only logged.
   */
  function CreateCampaign(req: NewCampaign, insert: Result<int, string>, linkOk: bool,
                campaigns: map<int, Campaign>, ledger: Ledger): (r: PostOutcome)
    ensures !Truthy(req.name) || !Truthy(req.subject) || !Truthy(req.body) ==>
      r == PostOutcome(MissingFields, campaigns, ledger)
    ensures r.response.InsertFailed? ==> insert.Err? && r.campaigns == campaigns && r.ledger == ledger
    ensures r.response.Created? <==>
      Truthy(req.name) && Truthy(req.subject) && Truthy(req.body) && insert.Ok?
    ensures r.response.Created? ==>
      r.response.id == insert.value &&
      r.response.campaign == Campaign(req.name.value, req.subject.value, req.body.value, TemplateRef(req.templateId), Draft) &&
      r.campaigns == campaigns[insert.value := r.response.campaign]
    ensures r.response.Created? && linkOk ==> r.ledger == InsertRows(ledger, LinkRows(insert.value, IdsToLink(req.subscriberIds)))
    ensures !r.response.Created? || !linkOk ==> r.ledger == ledger
  {
    if !Truthy(req.name) || !Truthy(req.subject) || !Truthy(req.body) then PostOutcome(MissingFields, campaigns, ledger)
    else match insert
      case Err(message) => PostOutcome(InsertFailed(message), campaigns, ledger)
      case Ok(id) =>
        var c := Campaign(req.name.value, req.subject.value, req.body.value, TemplateRef(req.templateId), Draft);
        var ledger' :=
          if req.subscriberIds.Some? && |req.subscriberIds.value| > 0 && linkOk
          then InsertRows(ledger, LinkRows(id, req.subscriberIds.value))
          else ledger;
        PostOutcome(Created(id, c), campaigns[id := c], ledger')
  }

  /**
   * For a new campaign id, the created links are exactly one unsent row per
   * given subscriber id and no others; absent or empty ids create none, and
   * existing rows keep their flags.
   */
  lemma PostLinksEachSubscriber(req: NewCampaign, id: int, campaigns: map<int, Campaign>, ledger: Ledger)
    requires Truthy(req.name) && Truthy(req.subject) && Truthy(req.body)
    requires forall k :: k in ledger ==> k.0 != id
    ensures var r := CreateCampaign(req, Ok(id), true, campaigns, ledger);
      (set k | k in r.ledger && k.0 == id) == (set s | s in IdsToLink(req.subscriberIds) :: (id, s)) &&
      (forall k :: k in r.ledger && k.0 == id ==> !r.ledger[k]) &&
      (forall k :: k in ledger ==> k in r.ledger && r.ledger[k] == ledger[k])
  {
    var ids := IdsToLink(req.subscriberIds);
    LinkRowsRoundTrip(id, ids);
    var rows := LinkRows(id, ids);
    var want := set s | s in ids :: (id, s);
    forall k | k in rows ensures k in want {
      var i :| 0 <= i < |rows| && rows[i] == k;
      var s := ids[i];
      assert rows[i] == (id, s) && s in ids;
    }
    forall s | s in ids ensures (id, s) in rows {
      var i :| 0 <= i < |ids| && ids[i] == s;
      assert rows[i] == (id, s);
    }
    assert (set k | k in rows) == want;
  }

  /** A row of the `GET` query: the joined subscriber links and template, either of which may be null. */
  datatype CampaignRow = CampaignRow(campaign: Campaign, subscribers: Option<seq<int>>, template: Option<Option<string>>)

  /** A listed campaign with its two derived fields. */
  datatype Listed = Listed(campaign: Campaign, subscriberCount: nat, templateName: Option<string>)

  /** `{...c, subscriberCount: c.subscribers?.length ?? 0, templateName: c.template?.name ?? null}`. */
  function ListRow(row: CampaignRow): (l: Listed)
    ensures l.campaign == row.campaign
    ensures row.subscribers.Some? ==> l.subscriberCount == |row.subscribers.value|
    ensures row.subscribers.None? ==> l.subscriberCount == 0
    ensures l.templateName.Some? <==> row.template.Some? && row.template.value.Some?
    ensures l.templateName.Some? ==> l.templateName == row.template.value
  {
    Listed(row.campaign,
           if row.subscribers.Some? then |row.subscribers.value| else 0,
           if row.template.Some? then row.template.value else None)
  }

  datatype GetResponse = Listing(campaigns: seq<Listed>) | QueryFailed(message: string)

  /** The `GET` branch: the query's rows in its order, each mapped, or its error. */
  function ListCampaigns(query: Result<seq<CampaignRow>, string>): (r: GetResponse)
    ensures query.Err? ==> r == QueryFailed(query.error)
    ensures query.Ok? ==> r.Listing? && |r.campaigns| == |query.value|
    ensures query.Ok? ==> forall i :: 0 <= i < |query.value| ==> r.campaigns[i] == ListRow(query.value[i])
  {
    match query
    case Err(message) => QueryFailed(message)
    case Ok(rows) => Listing(seq(|rows|, i requires 0 <= i < |rows| => ListRow(rows[i])))
  }

  /** A campaign's listed count is the number of its links. */
  lemma ListedCountMatchesLinks(campaignId: int, c: Campaign, ids: seq<int>, template: Option<Option<string>>)
    ensures ListRow(CampaignRow(c, Some(ids), template)).subscriberCount == |LinkRows(campaignId, ids)|
  {
  }

  datatype Response = GetAnswer(get: GetResponse) | PostAnswer(post: PostResponse) | MethodNotAllowed

  /** The dispatch on the method: only `GET` and `POST` are served, anything else is 405 and changes nothing. */
  function Handle(m: Method, query: Result<seq<CampaignRow>, string>, req: NewCampaign, insert: Result<int, string>,
                  linkOk: bool, campaigns: map<int, Campaign>, ledger: Ledger): (r: (Response, map<int, Campaign>, Ledger))
    ensures !m.Post? ==> r.1 == campaigns && r.2 == ledger
    ensures r.0 == MethodNotAllowed <==> !m.Get? && !m.Post?
    ensures r.0.GetAnswer? <==> m.Get?
    ensures forall k :: k in ledger ==> k in r.2 && r.2[k] == ledger[k]
    ensures forall k :: k in r.2 && k !in ledger ==> !r.2[k] && m.Post? && insert.Ok? && k.0 == insert.value
    ensures forall id :: id in campaigns && (insert.Err? || id != insert.value) ==> id in r.1 && r.1[id] == campaigns[id]
    ensures r.1.Keys <= campaigns.Keys + if insert.Ok? then {insert.value} else {}
  {
    if m == Get then (GetAnswer(ListCampaigns(query)), campaigns, ledger)
    else if m == Post then
      var p := CreateCampaign(req, insert, linkOk, campaigns, ledger);
      (PostAnswer(p.response), p.campaigns, p.ledger)
    else (MethodNotAllowed, campaigns, ledger)
  }
}
