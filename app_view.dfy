/** src/App.tsx: best-effort enrichment of each listed asset with its
    off-chain metadata document (the asset object is updated in place), and
    the per-tile resolution of image, name, verified flag and metadata link. */
module GalleryApp {
  import opened JsValues
  import opened Das
  import Ipfs

  /** Image shown when no image URL resolves. */
  const PLACEHOLDER_IMAGE: string := "https://via.placeholder.com/250"

  /** A fetched metadata document (the parsed JSON object). */
  type Meta = StrMap

  /** `ipfsToHttp(a.content?.json_uri)`: the URL the enrichment fetches. */
  function MetaUrl(a: Asset, gateway: string): (r: string)
    ensures !Truthy(JsonUri(a)) ==> r == ""
    ensures Truthy(JsonUri(a)) && Ipfs.IsHttpUrl(JsonUri(a).value) ==> r == JsonUri(a).value
    ensures Truthy(JsonUri(a)) && !Ipfs.IsHttpUrl(JsonUri(a).value) ==> StartsWith(r, gateway)
  {
    Ipfs.IpfsToHttp(JsonUri(a), gateway)
  }

  /** The asset after the enrichment callback, given what fetching `MetaUrl`
      produced: `Some(meta)` for an OK response parsed to `meta`, `None` for a
      non-OK response or a thrown failure. */
  function Enriched(a: Asset, gateway: string, fetched: Option<Meta>): (r: Asset)
    ensures r.id == a.id && r.grouping == a.grouping
    ensures JsonUri(r) == JsonUri(a) && MetadataOf(r) == MetadataOf(a)
    ensures MetaUrl(a, gateway) == "" || fetched.None? ==> r == a
  {
    if MetaUrl(a, gateway) == "" || fetched.None? then a
    else
      var meta := fetched.value;
      var c := a.content.GetOr(EMPTY_CONTENT);
      var json := c.json.GetOr(map[]) + meta;
      var links := c.links.GetOr(map[])["image" := Ipfs.IpfsToHttp(Lookup(Some(meta), "image"), gateway)];
      a.(content := Some(c.(json := Some(json), links := Some(links))))
  }

  /** A JavaScript asset object; only its `content` is replaced by the enrichment. */
  class AssetObject {
    const id: string
    var content: Option<Content>
    const grouping: Option<seq<Group>>

    /** The asset this object currently holds. */
    function Value(): Asset
      reads this
    {
      Asset(id, content, grouping)
    }

    constructor (a: Asset)
      ensures Value() == a
    {
      id, content, grouping := a.id, a.content, a.grouping;
    }

    /** The per-asset callback of `load`. `fetched` is the outcome of fetching
        the metadata URL; `request` is the URL fetched, `None` when there is none. */
    method Enrich(gateway: string, fetched: Option<Meta>) returns (request: Option<string>)
      modifies this
      ensures request == if MetaUrl(old(Value()), gateway) == "" then None
                         else Some(MetaUrl(old(Value()), gateway))
      ensures Value() == Enriched(old(Value()), gateway, fetched)
    {
      var metaUrl := Ipfs.IpfsToHttp(JsonUri(Value()), gateway);
      if metaUrl == "" {
        request := None;
        return;
      }
      request := Some(metaUrl);
      if fetched.Some? {
        var meta := fetched.value;
        var imgHttp := Ipfs.IpfsToHttp(Lookup(Some(meta), "image"), gateway);
        content := Some(content.GetOr(EMPTY_CONTENT));
        content := Some(content.value.(json := Some(content.value.json.GetOr(map[]) + meta)));
        content := Some(content.value.(links := Some(content.value.links.GetOr(map[])["image" := imgHttp])));
      }
    }
  }

  /** Enrichment of a whole batch, asset by asset. */
  function EnrichedBatch(assets: seq<Asset>, gateway: string, fetched: seq<Option<Meta>>): (r: seq<Asset>)
    requires |fetched| == |assets|
    ensures |r| == |assets|
    ensures forall i :: 0 <= i < |assets| ==> r[i] == Enriched(assets[i], gateway, fetched[i])
  {
    seq(|assets|, i requires 0 <= i < |assets| => Enriched(assets[i], gateway, fetched[i]))
  }

  /** The metadata URLs a batch fetches, in asset order. */
  function MetaRequests(assets: seq<Asset>, gateway: string): (urls: seq<string>)
    ensures |urls| <= |assets|
    ensures forall u :: u in urls ==> u != ""
  {
    if assets == [] then []
    else
      var last := assets[|assets| - 1];
      MetaRequests(assets[..|assets| - 1], gateway)
        + (if MetaUrl(last, gateway) == "" then [] else [MetaUrl(last, gateway)])
  }

  /** `Promise.all(items.map(...))`, run one asset after another. `before`
      names the assets the objects hold on entry; the same objects come back,
      in order, each enriched from its own fetch outcome. */
  method EnrichAll(items: seq<AssetObject>, gateway: string, fetched: seq<Option<Meta>>,
                   ghost before: seq<Asset>)
    returns (enriched: seq<AssetObject>, requests: seq<string>)
    requires |fetched| == |items| && |before| == |items|
    requires forall i :: 0 <= i < |items| ==> items[i].Value() == before[i]
    requires forall i, j :: 0 <= i < j < |items| ==> items[i] != items[j]
    modifies set i | 0 <= i < |items| :: items[i]
    ensures enriched == items
    ensures forall i :: 0 <= i < |items| ==> items[i].Value() == EnrichedBatch(before, gateway, fetched)[i]
    ensures requests == MetaRequests(before, gateway)
  {
    requests := [];
    var n := 0;
    while n < |items|
      invariant 0 <= n <= |items|
      invariant forall i :: 0 <= i < n ==> items[i].Value() == Enriched(before[i], gateway, fetched[i])
      invariant forall i :: n <= i < |items| ==> items[i].Value() == before[i]
      invariant requests == MetaRequests(before[..n], gateway)
    {
      var request := items[n].Enrich(gateway, fetched[n]);
      assert before[..n + 1][..n] == before[..n];
      if request.Some? {
        requests := requests + [request.value];
      }
      n := n + 1;
    }
    assert before[..n] == before;
    enriched := items;
  }

  // ------------------------------------------------------------------ lemmas

  /** With a configured (non-empty) gateway, no fetch is made exactly when the
      asset has no `json_uri` or an empty one; the asset is then left as is. */
  lemma NoFetchWithoutJsonUri(a: Asset, gateway: string, fetched: Option<Meta>)
    requires gateway != ""
    ensures MetaUrl(a, gateway) == "" <==> !Truthy(JsonUri(a))
    ensures !Truthy(JsonUri(a)) ==> Enriched(a, gateway, fetched) == a
  {
    Ipfs.EmptyIffFalsy(JsonUri(a), gateway);
  }

  /** After a successful fetch every JSON field is the metadata document's
      value when it has one, and the previous value otherwise. */
  lemma MergedJson(a: Asset, gateway: string, meta: Meta, k: string)
    requires MetaUrl(a, gateway) != ""
    ensures JsonField(Enriched(a, gateway, Some(meta)), k)
         == if k in meta then Some(meta[k]) else JsonField(a, k)
  {
  }

  /** After a successful fetch `links.image` is the rewritten metadata image,
      even when that is "", and every other link is kept. */
  lemma RewrittenLinks(a: Asset, gateway: string, meta: Meta, k: string)
    requires MetaUrl(a, gateway) != ""
    ensures LinkField(Enriched(a, gateway, Some(meta)), "image")
         == Some(Ipfs.IpfsToHttp(Lookup(Some(meta), "image"), gateway))
    ensures k != "image" ==> LinkField(Enriched(a, gateway, Some(meta)), k) == LinkField(a, k)
  {
  }

  /** Enriching twice with the same document is enriching once. */
  lemma EnrichIdempotent(a: Asset, gateway: string, fetched: Option<Meta>)
    ensures Enriched(Enriched(a, gateway, fetched), gateway, fetched) == Enriched(a, gateway, fetched)
  {
    var r := Enriched(a, gateway, fetched);
    if MetaUrl(a, gateway) != "" && fetched.Some? {
      var meta := fetched.value;
      var c := r.content.value;
      assert c.json.value + meta == c.json.value;
      var img := Ipfs.IpfsToHttp(Lookup(Some(meta), "image"), gateway);
      assert c.links.value["image" := img] == c.links.value;
    }
  }

  /** One asset's failed fetch changes nothing for the others: each output
      depends on its own fetch outcome only. */
  lemma EnrichmentIsolation(assets: seq<Asset>, gateway: string, fetched: seq<Option<Meta>>,
                            j: nat, other: Option<Meta>, i: nat)
    requires |fetched| == |assets| && j < |assets| && i < |assets| && i != j
    ensures EnrichedBatch(assets, gateway, fetched[j := other])[i] == EnrichedBatch(assets, gateway, fetched)[i]
    ensures EnrichedBatch(assets, gateway, fetched[j := None])[j] == assets[j]
  {
  }

  // ----------------------------------------------------------------- display

  /** What one grid tile shows. */
  datatype Tile = Tile(image: string, name: Option<string>, verified: bool, metadataHref: string)

  /** `a.content?.links?.image ?? a.content?.json?.image` */
  function RawTileImage(a: Asset): Option<string> {
    Coalesce(LinkField(a, "image"), JsonField(a, "image"))
  }

  /** The tile of `assets.map` in the grid. */
  function TileOf(a: Asset, gateway: string): (t: Tile)
    ensures t.image != ""
    ensures t.metadataHref == MetaUrl(a, gateway)
  {
    var img := Ipfs.IpfsToHttp(RawTileImage(a), gateway);
    var group := FindGroup(Groups(a), "collection");
    Tile(Or(Some(img), Some(PLACEHOLDER_IMAGE)).value,
         Coalesce(MetadataName(a), JsonField(a, "name")),
         if group.Some? then group.value.verified.GetOr(false) else false,
         MetaUrl(a, gateway))
  }

  /** Image precedence on a tile: a defined `links.image` is used even when
      empty (then the placeholder shows), otherwise `json.image`; a rewrite
      that comes out empty shows the placeholder. */
  lemma TileImagePrecedence(a: Asset, gateway: string)
    ensures LinkField(a, "image").Some? ==>
      TileOf(a, gateway).image == Or(Some(Ipfs.IpfsToHttp(LinkField(a, "image"), gateway)), Some(PLACEHOLDER_IMAGE)).value
    ensures LinkField(a, "image") == Some("") ==> TileOf(a, gateway).image == PLACEHOLDER_IMAGE
    ensures LinkField(a, "image").None? && !Truthy(JsonField(a, "image")) ==>
      TileOf(a, gateway).image == PLACEHOLDER_IMAGE
    ensures LinkField(a, "image").None? ==>
      TileOf(a, gateway).image == Or(Some(Ipfs.IpfsToHttp(JsonField(a, "image"), gateway)), Some(PLACEHOLDER_IMAGE)).value
  {
  }

  /** A tile's name is the metadata name, else the JSON name, and may be
      missing: there is no fallback to the id. Its verified flag is the first
      `collection` entry's flag, and `false` when there is no such entry. */
  lemma TileNameAndVerified(a: Asset, gateway: string)
    ensures MetadataName(a).Some? ==> TileOf(a, gateway).name == MetadataName(a)
    ensures MetadataName(a).None? ==> TileOf(a, gateway).name == JsonField(a, "name")
    ensures TileOf(a, gateway).verified <==>
      exists i :: 0 <= i < |Groups(a)| && Groups(a)[i].groupKey == "collection"
        && Groups(a)[i].verified == Some(true)
        && forall j :: 0 <= j < i ==> Groups(a)[j].groupKey != "collection"
  {
    var gs := Groups(a);
    var g := FindGroup(gs, "collection");
    if exists i :: 0 <= i < |gs| && gs[i].groupKey == "collection" && gs[i].verified == Some(true)
        && forall j :: 0 <= j < i ==> gs[j].groupKey != "collection" {
      var i :| 0 <= i < |gs| && gs[i].groupKey == "collection" && gs[i].verified == Some(true)
        && forall j :: 0 <= j < i ==> gs[j].groupKey != "collection";
      assert gs[i] in gs;
      var k :| 0 <= k < |gs| && gs[k] == g.value && gs[k].groupKey == "collection"
        && forall j :: 0 <= j < k ==> gs[j].groupKey != "collection";
      assert k == i;
    }
  }

  /** After a successful enrichment under an http(s) gateway the tile shows the
      metadata document's image, rewritten once, or the placeholder when the
      document has no image, even if the asset's JSON had one before. */
  lemma EnrichedTileImage(a: Asset, gateway: string, meta: Meta)
    requires Ipfs.IsHttpUrl(gateway) && MetaUrl(a, gateway) != ""
    ensures TileOf(Enriched(a, gateway, Some(meta)), gateway).image
         == if Truthy(Lookup(Some(meta), "image"))
            then Ipfs.IpfsToHttp(Lookup(Some(meta), "image"), gateway)
            else PLACEHOLDER_IMAGE
  {
    var img := Ipfs.IpfsToHttp(Lookup(Some(meta), "image"), gateway);
    var r := Enriched(a, gateway, Some(meta));
    assert LinkField(r, "image") == Some(img);
    Ipfs.Idempotent(Lookup(Some(meta), "image"), gateway);
    assert Truthy(Lookup(Some(meta), "image")) ==> img != "" by {
      if Truthy(Lookup(Some(meta), "image")) {
        Ipfs.EmptyIffFalsy(Lookup(Some(meta), "image"), gateway);
      }
    }
  }
}
