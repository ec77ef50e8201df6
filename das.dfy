/** src/api/das.ts: the asset shape returned by the indexing API and the two
    paginated listings (by collection group, by owner). The network is a page
    oracle: `responses[p - 1]` is what the server answers to page `p`. */
module Das {
  import opened JsValues

  /** `{ name?, symbol? }` plus the `image` that the card mapping also reads. */
  datatype Metadata = Metadata(name: Option<string>, symbol: Option<string>, image: Option<string>)

  /** `content?: { json_uri?, metadata?, links?, json? }` */
  datatype Content = Content(
    jsonUri: Option<string>,
    metadata: Option<Metadata>,
    links: Option<StrMap>,
    json: Option<StrMap>)

  /** One `grouping` entry: `{ group_key, group_value, verified? }`. */
  datatype Group = Group(groupKey: string, groupValue: string, verified: Option<bool>)

  /** `DasAsset` */
  datatype Asset = Asset(id: string, content: Option<Content>, grouping: Option<seq<Group>>)

  const EMPTY_CONTENT: Content := Content(None, None, None, None)

  /** Number of items requested per page (`limit: 1000`). */
  const PAGE_LIMIT: nat := 1000

  // Optional-chaining reads used by the callers.

  /** `a.content?.json_uri` */
  function JsonUri(a: Asset): Option<string> {
    if a.content.Some? then a.content.value.jsonUri else None
  }

  function MetadataOf(a: Asset): Option<Metadata> {
    if a.content.Some? then a.content.value.metadata else None
  }

  /** `a.content?.metadata?.name` */
  function MetadataName(a: Asset): Option<string> {
    if MetadataOf(a).Some? then MetadataOf(a).value.name else None
  }

  /** `a.content?.metadata?.symbol` */
  function MetadataSymbol(a: Asset): Option<string> {
    if MetadataOf(a).Some? then MetadataOf(a).value.symbol else None
  }

  /** `a.content?.metadata?.image` */
  function MetadataImage(a: Asset): Option<string> {
    if MetadataOf(a).Some? then MetadataOf(a).value.image else None
  }

  /** `a.content?.json?.[key]` */
  function JsonField(a: Asset, key: string): Option<string> {
    if a.content.Some? then Lookup(a.content.value.json, key) else None
  }

  /** `a.content?.links?.[key]` */
  function LinkField(a: Asset, key: string): Option<string> {
    if a.content.Some? then Lookup(a.content.value.links, key) else None
  }

  /** `a.grouping || []` */
  function Groups(a: Asset): seq<Group> {
    a.grouping.GetOr([])
  }

  /** `grouping.find(g => g.group_key === key)`: the first entry with that key. */
  function FindGroup(gs: seq<Group>, key: string): (r: Option<Group>)
    ensures r.None? <==> forall g :: g in gs ==> g.groupKey != key
    ensures r.Some? ==> exists i :: 0 <= i < |gs| && gs[i] == r.value && gs[i].groupKey == key
                                    && forall j :: 0 <= j < i ==> gs[j].groupKey != key
  {
    if gs == [] then None
    else if gs[0].groupKey == key then Some(gs[0])
    else
      var r := FindGroup(gs[1..], key);
      assert forall g :: g in gs ==> g == gs[0] || g in gs[1..];
      assert r.Some? ==> exists i :: 0 <= i < |gs| && gs[i] == r.value && gs[i].groupKey == key
                                    && forall j :: 0 <= j < i ==> gs[j].groupKey != key by {
        if r.Some? {
          var i :| 0 <= i < |gs[1..]| && gs[1..][i] == r.value && gs[1..][i].groupKey == key
                   && forall j :: 0 <= j < i ==> gs[1..][j].groupKey != key;
          assert gs[i + 1] == r.value;
          forall j | 0 <= j < i + 1 ensures gs[j].groupKey != key {
            if j > 0 { assert gs[j] == gs[1..][j - 1]; }
          }
        }
      }
      r
  }

  // ---------------------------------------------------------------- requests

  /** Which listing is drained. */
  datatype Query = ByCollection(collectionMint: string) | ByOwner(owner: string)

  /** The JSON-RPC `params` object of one page request. */
  datatype Params =
    | GroupParams(groupKey: string, groupValue: string, page: nat, limit: nat,
                  sortBy: string, sortDirection: string)
    | OwnerParams(ownerAddress: string, page: nat, limit: nat, showCollectionMetadata: bool)

  /** The JSON-RPC body of one page request (`id` equals `method` in the source). */
  datatype Request = Request(rpcMethod: string, params: Params)

  /** The body posted for page `page` of query `q`. */
  function RequestFor(q: Query, page: nat): (r: Request)
    ensures r.params.page == page && r.params.limit == PAGE_LIMIT
  {
    match q
    case ByCollection(mint) =>
      Request("getAssetsByGroup", GroupParams("collection", mint, page, PAGE_LIMIT, "created", "asc"))
    case ByOwner(owner) =>
      Request("getAssetsByOwner", OwnerParams(owner, page, PAGE_LIMIT, true))
  }

  // --------------------------------------------------------------- responses

  /** What one page request yields: the parsed `json.result.items` (absent when
      the response has no such field), or a failure of `fetch` or `res.json()`. */
  datatype Response = Reply(items: Option<seq<Asset>>) | Failure

  /** Result of a whole listing: the assets, or the failure that rejected it. */
  datatype Listing = Assets(assets: seq<Asset>) | Rejected

  /** `json?.result?.items ?? []` */
  function PageItems(r: Response): seq<Asset>
    requires r.Reply?
  {
    r.items.GetOr([])
  }

  /** The loop leaves after this response: it failed, or its page was short. */
  predicate EndsLoop(r: Response) {
    r.Failure? || |PageItems(r)| < PAGE_LIMIT
  }

  /** The server eventually answers with a short page (or fails). */
  predicate Terminates(responses: seq<Response>) {
    exists k :: 0 <= k < |responses| && EndsLoop(responses[k])
  }

  /** Index of the last page requested: the first response that ends the loop. */
  function LastPage(responses: seq<Response>): (k: nat)
    requires Terminates(responses)
    ensures k < |responses| && EndsLoop(responses[k])
    ensures forall j :: 0 <= j < k ==> !EndsLoop(responses[j])
  {
    if EndsLoop(responses[0]) then 0
    else
      var w :| 0 <= w < |responses| && EndsLoop(responses[w]);
      assert Terminates(responses[1..]) by {
        assert w > 0 && EndsLoop(responses[1..][w - 1]);
      }
      1 + LastPage(responses[1..])
  }

  /** Every response in `rs` carried a page (none failed). */
  predicate AllReplied(rs: seq<Response>) {
    forall j :: 0 <= j < |rs| ==> rs[j].Reply?
  }

  /** The in-order concatenation of the pages in `rs`. */
  function Flatten(rs: seq<Response>): seq<Asset>
    requires AllReplied(rs)
  {
    if rs == [] then [] else Flatten(rs[..|rs| - 1]) + PageItems(rs[|rs| - 1])
  }

  /** What a listing returns against the oracle `responses`. */
  function Collected(responses: seq<Response>): Listing
    requires Terminates(responses)
  {
    var n := LastPage(responses);
    if responses[n].Failure? then Rejected else Assets(Flatten(responses[..n + 1]))
  }

  /** The requests the loop sends: pages 1 .. n of `q`, in order. */
  predicate RequestsInOrder(q: Query, sent: seq<Request>) {
    forall i :: 0 <= i < |sent| ==> sent[i] == RequestFor(q, i + 1)
  }

  /** The accumulate-until-short-page loop shared by both listings. */
  method FetchAllPages(q: Query, responses: seq<Response>) returns (result: Listing, sent: seq<Request>)
    requires Terminates(responses)
    ensures |sent| == LastPage(responses) + 1
    ensures RequestsInOrder(q, sent)
    ensures result == Collected(responses)
  {
    ghost var last := LastPage(responses);
    var acc: seq<Asset> := [];
    var page: nat := 1;
    sent := [];
    while true
      invariant 1 <= page <= last + 1
      invariant |sent| == page - 1 && RequestsInOrder(q, sent)
      invariant AllReplied(responses[..page - 1])
      invariant acc == Flatten(responses[..page - 1])
      decreases last + 1 - page
    {
      sent := sent + [RequestFor(q, page)];
      var response := responses[page - 1];
      if response.Failure? {
        result := Rejected;
        return;
      }
      var items := PageItems(response);
      assert responses[..page] == responses[..page - 1] + [response];
      acc := acc + items;
      if |items| < PAGE_LIMIT {
        result := Assets(acc);
        return;
      }
      page := page + 1;
    }
  }

  /** `getAssetsByCollection(collectionMint)` */
  method GetAssetsByCollection(collectionMint: string, responses: seq<Response>)
    returns (result: Listing, sent: seq<Request>)
    requires Terminates(responses)
    ensures |sent| == LastPage(responses) + 1
    ensures forall i :: 0 <= i < |sent| ==> (sent[i].rpcMethod == "getAssetsByGroup"
      && sent[i].params == GroupParams("collection", collectionMint, i + 1, PAGE_LIMIT, "created", "asc"))
    ensures result == Collected(responses)
  {
    result, sent := FetchAllPages(ByCollection(collectionMint), responses);
  }

  /** `getAssetsByOwner(owner)` */
  method GetAssetsByOwner(owner: string, responses: seq<Response>)
    returns (result: Listing, sent: seq<Request>)
    requires Terminates(responses)
    ensures |sent| == LastPage(responses) + 1
    ensures forall i :: 0 <= i < |sent| ==> (sent[i].rpcMethod == "getAssetsByOwner"
      && sent[i].params == OwnerParams(owner, i + 1, PAGE_LIMIT, true))
    ensures result == Collected(responses)
  {
    result, sent := FetchAllPages(ByOwner(owner), responses);
  }

  // ---------------------------------------------------------------- lemmas

  /** A short first page: one request, and the result is that page. */
  lemma ShortFirstPage(responses: seq<Response>, items: seq<Asset>)
    requires |responses| > 0 && responses[0] == Reply(Some(items)) && |items| < PAGE_LIMIT
    ensures Terminates(responses)
    ensures LastPage(responses) == 0
    ensures Collected(responses) == Assets(items)
  {
    assert EndsLoop(responses[0]);
    assert responses[..1] == [responses[0]];
    assert Flatten(responses[..1]) == Flatten([]) + items;
  }

  /** A response without `result.items` is an empty page and ends the loop. */
  lemma MissingItemsEndsLoop(responses: seq<Response>, k: nat)
    requires k < |responses| && responses[k] == Reply(None)
    ensures Terminates(responses) && LastPage(responses) <= k
  {
    assert EndsLoop(responses[k]);
  }

  /** Full pages followed by a page without `result.items`: the loop stops
      there and the result is the full pages alone. */
  lemma MissingItemsAddNothing(responses: seq<Response>, k: nat)
    requires k < |responses| && responses[k] == Reply(None)
    requires forall j :: 0 <= j < k ==> responses[j].Reply? && |PageItems(responses[j])| == PAGE_LIMIT
    ensures Terminates(responses) && LastPage(responses) == k
    ensures Collected(responses) == Assets(Flatten(responses[..k]))
  {
    FullPagesThenShort(responses, k);
    var init := responses[..k];
    assert responses[..k + 1] == init + [Reply(None)];
    FlattenSnoc(init, Reply(None));
  }

  lemma FlattenSnoc(rs: seq<Response>, r: Response)
    requires AllReplied(rs) && r.Reply?
    ensures AllReplied(rs + [r])
    ensures Flatten(rs + [r]) == Flatten(rs) + PageItems(r)
  {
    assert (rs + [r])[..|rs|] == rs;
  }

  /** `n` full pages then a short page: `n + 1` requests, and the result is all
      pages concatenated, `1000 * n` items plus the short page. */
  lemma FullPagesThenShort(responses: seq<Response>, n: nat)
    requires n < |responses|
    requires forall j :: 0 <= j < n ==> responses[j].Reply? && |PageItems(responses[j])| == PAGE_LIMIT
    requires responses[n].Reply? && |PageItems(responses[n])| < PAGE_LIMIT
    ensures Terminates(responses) && LastPage(responses) == n
    ensures Collected(responses) == Assets(Flatten(responses[..n + 1]))
    ensures |Flatten(responses[..n + 1])| == PAGE_LIMIT * n + |PageItems(responses[n])|
  {
    assert EndsLoop(responses[n]);
    FlattenLength(responses[..n + 1]);
  }

  lemma {:induction false} FlattenLength(rs: seq<Response>)
    requires |rs| > 0 && AllReplied(rs)
    requires forall j :: 0 <= j < |rs| - 1 ==> |PageItems(rs[j])| == PAGE_LIMIT
    ensures |Flatten(rs)| == PAGE_LIMIT * (|rs| - 1) + |PageItems(rs[|rs| - 1])|
  {
    if |rs| > 1 {
      var init := rs[..|rs| - 1];
      assert forall j :: 0 <= j < |init| ==> init[j] == rs[j];
      FlattenLength(init);
    }
  }

  /** Item `i` of page `p` (counting from 0) sits at position `1000 * p + i`
      of the result when all earlier pages were full. */
  lemma {:induction false} FlattenIndex(rs: seq<Response>, p: nat, i: nat)
    requires AllReplied(rs) && p < |rs| && i < |PageItems(rs[p])|
    requires forall j :: 0 <= j < p ==> |PageItems(rs[j])| == PAGE_LIMIT
    ensures PAGE_LIMIT * p + i < |Flatten(rs)|
    ensures Flatten(rs)[PAGE_LIMIT * p + i] == PageItems(rs[p])[i]
  {
    var init := rs[..|rs| - 1];
    assert forall j :: 0 <= j < |init| ==> init[j] == rs[j];
    if p == |rs| - 1 {
      if p > 0 {
        FlattenLength(init);
      }
    } else {
      FlattenIndex(init, p, i);
    }
  }

  /** A listing is rejected exactly when the request for its last page failed;
      otherwise every page up to the last was delivered. No partial result is
      returned on failure. */
  lemma RejectedIffLastFailed(responses: seq<Response>)
    requires Terminates(responses)
    ensures Collected(responses).Rejected? <==> responses[LastPage(responses)].Failure?
    ensures Collected(responses).Assets? ==> AllReplied(responses[..LastPage(responses) + 1])
  {
  }
}
