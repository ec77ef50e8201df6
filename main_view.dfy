/** src/main.tsx: its own `ipfsToHttp` (case-sensitive `ipfs://` only), the
    owner-mode membership filter, the asset-to-card mapping and the `load`
    composition of listing, filter and mapping. */
module GalleryMain {
  import opened JsValues
  import opened Das
  import Ipfs

  /** Gateway used when the environment does not configure one. */
  const DEFAULT_GATEWAY: string := "https://gateway.pinata.cloud/ipfs/"

  /** main.tsx's `ipfsToHttp(u)` with the gateway `IPFS_GATEWAY` resolved. */
  function IpfsToHttp(u: Option<string>, gateway: string): (r: string)
    ensures !Truthy(u) ==> r == ""
    ensures Truthy(u) && StartsWith(u.value, "ipfs://") ==>
      StartsWith(r, gateway) && |r| == |gateway| + |u.value| - 7
    ensures Truthy(u) && !StartsWith(u.value, "ipfs://") ==> r == u.value
  {
    if !Truthy(u) then ""
    else if StartsWith(u.value, "ipfs://") then
      assert (gateway + u.value[7..])[..|gateway|] == gateway;
      gateway + u.value[7..]
    else u.value
  }

  /** Missing or empty input gives "", a lower-case `ipfs://` prefix is
      replaced by the gateway, and every other string is returned as it is. */
  lemma RewriteCases(u: Option<string>, gateway: string)
    ensures !Truthy(u) ==> IpfsToHttp(u, gateway) == ""
    ensures Truthy(u) && StartsWith(u.value, "ipfs://") ==>
      IpfsToHttp(u, gateway) == gateway + u.value[7..] && StartsWith(IpfsToHttp(u, gateway), gateway)
    ensures Truthy(u) && !StartsWith(u.value, "ipfs://") ==> IpfsToHttp(u, gateway) == u.value
  {
    if Truthy(u) && StartsWith(u.value, "ipfs://") {
      assert (gateway + u.value[7..])[..|gateway|] == gateway;
    }
  }

  /** `ipfs/x` and an upper-case `IPFS://x` are not rewritten here, although
      the shared rewrite of src/utils/ipfs.ts puts both under the gateway. */
  lemma VariantsDiverge(x: string, gateway: string)
    ensures IpfsToHttp(Some("ipfs/" + x), gateway) == "ipfs/" + x
    ensures IpfsToHttp(Some("IPFS://" + x), gateway) == "IPFS://" + x
    ensures Ipfs.IpfsToHttp(Some("ipfs/" + x), gateway) == gateway + x
    ensures Ipfs.IpfsToHttp(Some("IPFS://" + x), gateway) == gateway + StripPrefixIgnoreCase(x, "ipfs/")
  {
    var p := "ipfs/" + x;
    assert p[4] == '/';
    assert !StartsWith(p, "ipfs://");
    var q := "IPFS://" + x;
    assert q[0] == 'I';
    assert !StartsWith(q, "ipfs://");
    PrefixOfConcat("ipfs/", x);
    assert LowerAscii(p[0]) == 'i' && LowerAscii(p[4]) == '/';
    assert !StartsWithIgnoreCase(p, "ipfs://");
    assert !Ipfs.IsHttpUrl(p);
    assert p[5..] == x;
    assert StartsWithIgnoreCase(q, "ipfs://") by {
      forall i | 0 <= i < 7 ensures LowerAscii(q[i]) == "ipfs://"[i] {
        assert q[i] == "IPFS://"[i];
      }
    }
    Ipfs.SchemeThenPathStripped(q, gateway);
    assert q[7..] == x;
  }

  /** The two rewrites agree on missing input, on http(s) URLs and on a
      lower-case `ipfs://` reference whose path has no second `ipfs/`. */
  lemma VariantsAgree(u: Option<string>, gateway: string)
    requires !Truthy(u) || Ipfs.IsHttpUrl(u.value)
      || (StartsWith(u.value, "ipfs://") && !StartsWithIgnoreCase(u.value[7..], "ipfs/"))
    ensures IpfsToHttp(u, gateway) == Ipfs.IpfsToHttp(u, gateway)
  {
    if Truthy(u) && StartsWith(u.value, "ipfs://") {
      assert LowerAscii(u.value[0]) == 'i';
      assert !Ipfs.IsHttpUrl(u.value);
      assert u.value == "ipfs://" + u.value[7..];
      Ipfs.SchemeOnlyStripped(u.value[7..], gateway);
    }
    if Truthy(u) && Ipfs.IsHttpUrl(u.value) {
      assert LowerAscii(u.value[0]) == 'h';
    }
  }

  /** Rewriting the card image again at render time leaves it unchanged when
      the gateway is at least seven characters long and not itself `ipfs://`. */
  lemma RenderRewriteIsStable(u: Option<string>, gateway: string)
    requires |gateway| >= 7 && gateway[..7] != "ipfs://"
    ensures IpfsToHttp(Some(IpfsToHttp(u, gateway)), gateway) == IpfsToHttp(u, gateway)
  {
    if Truthy(u) && StartsWith(u.value, "ipfs://") {
      var r := gateway + u.value[7..];
      assert r[..7] == gateway[..7];
    }
  }

  /** The default gateway meets the condition of `RenderRewriteIsStable`. */
  lemma DefaultGatewayIsStable()
    ensures |DEFAULT_GATEWAY| >= 7 && DEFAULT_GATEWAY[..7] != "ipfs://"
  {
    assert DEFAULT_GATEWAY[0] == 'h';
  }

  // ------------------------------------------------------------------ filter

  /** `(a.grouping || []).some(g => g.group_key === 'collection' && g.group_value === collection)` */
  predicate InCollection(a: Asset, collection: string) {
    exists g :: g in Groups(a) && g.groupKey == "collection" && g.groupValue == collection
  }

  /** The owner-mode `filter`: the assets of `assets` that belong to `collection`. */
  function FilterInCollection(assets: seq<Asset>, collection: string): (r: seq<Asset>)
    ensures |r| <= |assets|
    ensures forall x :: x in r <==> x in assets && InCollection(x, collection)
  {
    if assets == [] then []
    else
      var rest := FilterInCollection(assets[1..], collection);
      assert forall x :: x in assets <==> x == assets[0] || x in assets[1..];
      if InCollection(assets[0], collection) then [assets[0]] + rest else rest
  }

  /** Filtering is order preserving: it distributes over concatenation, so the
      kept assets appear in their original order. */
  lemma {:induction false} FilterDistributes(xs: seq<Asset>, ys: seq<Asset>, collection: string)
    ensures FilterInCollection(xs + ys, collection)
         == FilterInCollection(xs, collection) + FilterInCollection(ys, collection)
  {
    if xs != [] {
      assert (xs + ys)[1..] == xs[1..] + ys;
      FilterDistributes(xs[1..], ys, collection);
    } else {
      assert xs + ys == ys;
    }
  }

  /** One asset is kept, whatever its `verified` flags, exactly when some entry
      names the collection. */
  lemma FilterSingle(a: Asset, collection: string)
    ensures FilterInCollection([a], collection) == (if InCollection(a, collection) then [a] else [])
  {
    assert [a][1..] == [];
  }

  /** An unverified membership entry (flag `false` or absent) still keeps the asset. */
  lemma UnverifiedMemberKept(a: Asset, collection: string, i: nat)
    requires i < |Groups(a)|
    requires Groups(a)[i] == Group("collection", collection, Some(false))
          || Groups(a)[i] == Group("collection", collection, None)
    ensures FilterInCollection([a], collection) == [a]
  {
    assert Groups(a)[i] in Groups(a);
    FilterSingle(a, collection);
  }

  // ------------------------------------------------------------------- cards

  /** The card shown in the grid. */
  datatype Card = Card(
    id: string,
    name: string,
    image: string,
    symbol: Option<string>,
    verified: bool,
    jsonUri: Option<string>,
    mint: string)

  /** `a.content?.metadata?.name ?? a.content?.json?.name ?? a.id` */
  function CardName(a: Asset): string {
    Coalesce(MetadataName(a), Coalesce(JsonField(a, "name"), Some(a.id))).value
  }

  /** `a.content?.metadata?.symbol ?? a.content?.json?.symbol` */
  function CardSymbol(a: Asset): Option<string> {
    Coalesce(MetadataSymbol(a), JsonField(a, "symbol"))
  }

  /** `a.content?.links?.image || a.content?.json?.image || a.content?.metadata?.image` */
  function RawImage(a: Asset): Option<string> {
    Or(Or(LinkField(a, "image"), JsonField(a, "image")), MetadataImage(a))
  }

  /** `!!group?.verified` for the first `collection` entry. */
  function CardVerified(a: Asset): bool {
    var g := FindGroup(Groups(a), "collection");
    g.Some? && g.value.verified == Some(true)
  }

  /** The `assets.map` callback. */
  function ToCard(a: Asset, gateway: string): (c: Card)
    ensures c.id == a.id && c.mint == a.id
    ensures c.jsonUri == JsonUri(a)
  {
    Card(a.id, CardName(a), IpfsToHttp(RawImage(a), gateway), CardSymbol(a),
         CardVerified(a), JsonUri(a), a.id)
  }

  /** `assets.map(...)`: card `i` is built from asset `i`. */
  function ToCards(assets: seq<Asset>, gateway: string): (cards: seq<Card>)
    ensures |cards| == |assets|
    ensures forall i :: 0 <= i < |assets| ==> cards[i] == ToCard(assets[i], gateway)
  {
    if assets == [] then []
    else [ToCard(assets[0], gateway)] + ToCards(assets[1..], gateway)
  }

  /** Name precedence: on-chain metadata name, then off-chain JSON name, then
      the id; the fallback is nullish, so a defined but empty metadata name wins. */
  lemma NamePrecedence(a: Asset, gateway: string)
    ensures MetadataName(a).Some? ==> ToCard(a, gateway).name == MetadataName(a).value
    ensures MetadataName(a).None? && JsonField(a, "name").Some? ==>
      ToCard(a, gateway).name == JsonField(a, "name").value
    ensures MetadataName(a).None? && JsonField(a, "name").None? ==> ToCard(a, gateway).name == a.id
    ensures MetadataName(a) == Some("") ==> ToCard(a, gateway).name == ""
  {
  }

  /** Symbol precedence: metadata symbol, then JSON symbol; no id fallback. */
  lemma SymbolPrecedence(a: Asset, gateway: string)
    ensures MetadataSymbol(a).Some? ==> ToCard(a, gateway).symbol == MetadataSymbol(a)
    ensures MetadataSymbol(a).None? ==> ToCard(a, gateway).symbol == JsonField(a, "symbol")
    ensures ToCard(a, gateway).symbol.None? <==> MetadataSymbol(a).None? && JsonField(a, "symbol").None?
  {
  }

  /** The first truthy value of a list of optional strings. */
  function FirstTruthy(xs: seq<Option<string>>): (r: Option<string>)
    ensures r.None? || Truthy(r)
  {
    if xs == [] then None else if Truthy(xs[0]) then xs[0] else FirstTruthy(xs[1..])
  }

  /** The three image candidates in precedence order. */
  function ImageCandidates(a: Asset): seq<Option<string>> {
    [LinkField(a, "image"), JsonField(a, "image"), MetadataImage(a)]
  }

  /** The card image is the rewrite of the first truthy image candidate, and
      "" when none is truthy. */
  lemma {:induction false} ImagePrecedence(a: Asset, gateway: string)
    ensures ToCard(a, gateway).image == IpfsToHttp(FirstTruthy(ImageCandidates(a)), gateway)
    ensures (forall i :: 0 <= i < 3 ==> !Truthy(ImageCandidates(a)[i])) ==> ToCard(a, gateway).image == ""
  {
    var xs := ImageCandidates(a);
    assert xs[1..] == [xs[1], xs[2]];
    assert xs[1..][1..] == [xs[2]];
    assert xs[1..][1..][1..] == [];
    assert FirstTruthy(xs[1..][1..]) == if Truthy(xs[2]) then xs[2] else None;
    assert FirstTruthy(xs[1..]) == if Truthy(xs[1]) then xs[1] else FirstTruthy(xs[1..][1..]);
    assert FirstTruthy(xs) == if Truthy(xs[0]) then xs[0] else FirstTruthy(xs[1..]);
    assert RawImage(a) == Or(Or(xs[0], xs[1]), xs[2]);
  }

  /** A card is verified exactly when the first `collection` entry of the
      grouping carries `verified: true`; no entry and `false` look the same. */
  lemma VerifiedIffFirstCollectionEntry(a: Asset, gateway: string)
    ensures ToCard(a, gateway).verified <==>
      exists i :: 0 <= i < |Groups(a)| && Groups(a)[i].groupKey == "collection"
        && Groups(a)[i].verified == Some(true)
        && forall j :: 0 <= j < i ==> Groups(a)[j].groupKey != "collection"
  {
    var gs := Groups(a);
    var g := FindGroup(gs, "collection");
    if exists i :: 0 <= i < |gs| && gs[i].groupKey == "collection" && gs[i].verified == Some(true)
        && forall j :: 0 <= j < i ==> gs[j].groupKey != "collection" {
      var i :| 0 <= i < |gs| && gs[i].groupKey == "collection" && gs[i].verified == Some(true)
        && forall j :: 0 <= j < i ==> gs[j].groupKey != "collection";
      assert gs[i] in gs;
      var k :| 0 <= k < |gs| && gs[k] == g.value && gs[k].groupKey == "collection"
        && forall j :: 0 <= j < k ==> gs[j].groupKey != "collection";
      assert k == i;
    }
  }

  /** The `src` of a card's image at render time, `None` for the "No image" box. */
  function RenderedImageSrc(c: Card, gateway: string): (r: Option<string>)
    ensures r.None? <==> c.image == ""
    ensures c.image != "" && !StartsWith(c.image, "ipfs://") ==> r == Some(c.image)
  {
    if c.image != "" then Some(IpfsToHttp(Some(c.image), gateway)) else None
  }

  /** The render-time rewrite leaves every card image as it is, under the
      default gateway or any gateway that satisfies `RenderRewriteIsStable`;
      a card without an image shows the "No image" box. */
  lemma CardImageRenderedAsIs(a: Asset, gateway: string)
    requires |gateway| >= 7 && gateway[..7] != "ipfs://"
    ensures RenderedImageSrc(ToCard(a, gateway), gateway)
         == if ToCard(a, gateway).image == "" then None else Some(ToCard(a, gateway).image)
  {
    RenderRewriteIsStable(RawImage(a), gateway);
  }

  // -------------------------------------------------------------------- load

  /** Owner mode: the toggle is on and a wallet address is known (`onlyMine && owner`). */
  predicate OwnerMode(onlyMine: bool, owner: string) {
    onlyMine && owner != ""
  }

  /** Assets selected by `load`: the owner's listing filtered by collection, or
      the collection listing. */
  function SelectedAssets(onlyMine: bool, owner: string, collection: string,
                          ownerPages: seq<Response>, collectionPages: seq<Response>): (r: Listing)
    requires OwnerMode(onlyMine, owner) ==> Terminates(ownerPages)
    requires !OwnerMode(onlyMine, owner) ==> Terminates(collectionPages)
    ensures !OwnerMode(onlyMine, owner) ==> r == Collected(collectionPages)
    ensures OwnerMode(onlyMine, owner) ==> (r.Rejected? <==> Collected(ownerPages).Rejected?)
    ensures OwnerMode(onlyMine, owner) && r.Assets? ==>
      |r.assets| <= |Collected(ownerPages).assets|
      && forall x :: x in r.assets <==> x in Collected(ownerPages).assets && InCollection(x, collection)
  {
    if OwnerMode(onlyMine, owner) then
      match Collected(ownerPages)
      case Assets(xs) => Assets(FilterInCollection(xs, collection))
      case Rejected => Rejected
    else Collected(collectionPages)
  }

  /** What `load` hands to `setCards`, or `None` when the listing was rejected
      (the cards shown before stay as they were). */
  method Load(onlyMine: bool, owner: string, collection: string, gateway: string,
              ownerPages: seq<Response>, collectionPages: seq<Response>)
    returns (cards: Option<seq<Card>>, sent: seq<Request>)
    requires OwnerMode(onlyMine, owner) ==> Terminates(ownerPages)
    requires !OwnerMode(onlyMine, owner) ==> Terminates(collectionPages)
    ensures OwnerMode(onlyMine, owner) ==>
      RequestsInOrder(ByOwner(owner), sent) && |sent| == LastPage(ownerPages) + 1
    ensures !OwnerMode(onlyMine, owner) ==>
      RequestsInOrder(ByCollection(collection), sent) && |sent| == LastPage(collectionPages) + 1
    ensures cards == match SelectedAssets(onlyMine, owner, collection, ownerPages, collectionPages)
                     case Assets(xs) => Some(ToCards(xs, gateway))
                     case Rejected => None
  {
    var listing: Listing;
    if OwnerMode(onlyMine, owner) {
      listing, sent := GetAssetsByOwner(owner, ownerPages);
      if listing.Assets? {
        listing := Assets(FilterInCollection(listing.assets, collection));
      }
    } else {
      listing, sent := GetAssetsByCollection(collection, collectionPages);
    }
    if listing.Assets? {
      cards := Some(ToCards(listing.assets, gateway));
    } else {
      cards := None;
    }
  }

  /** In owner mode a loaded card list is exactly the cards of the owner's
      assets that belong to the collection, in listing order. */
  lemma OwnerModeSelectsMembers(onlyMine: bool, owner: string, collection: string,
                                ownerPages: seq<Response>, collectionPages: seq<Response>)
    requires OwnerMode(onlyMine, owner) && Terminates(ownerPages)
    requires Collected(ownerPages).Assets?
    ensures SelectedAssets(onlyMine, owner, collection, ownerPages, collectionPages).Assets?
    ensures forall x :: (x in SelectedAssets(onlyMine, owner, collection, ownerPages, collectionPages).assets
      <==> x in Collected(ownerPages).assets && InCollection(x, collection))
  {
  }
}
