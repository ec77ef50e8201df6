/** The two gallery entry points, src/main.tsx (cards) and src/App.tsx
    (tiles), resolve the same asset fields with different fallbacks. These
    lemmas state where they agree and where they part. */
module EntryPoints {
  import opened JsValues
  import opened Das
  import GalleryMain
  import GalleryApp

  /** Both report the first `collection` entry's flag, `false` when absent. */
  lemma VerifiedAgrees(a: Asset, cardGateway: string, tileGateway: string)
    ensures GalleryMain.ToCard(a, cardGateway).verified == GalleryApp.TileOf(a, tileGateway).verified
  {
  }

  /** Names agree whenever metadata or JSON has one; otherwise the card falls
      back to the id and the tile has no name. */
  lemma NamesAgreeUnlessBothMissing(a: Asset, cardGateway: string, tileGateway: string)
    ensures MetadataName(a).Some? || JsonField(a, "name").Some? ==>
      GalleryApp.TileOf(a, tileGateway).name == Some(GalleryMain.ToCard(a, cardGateway).name)
    ensures MetadataName(a).None? && JsonField(a, "name").None? ==>
      GalleryApp.TileOf(a, tileGateway).name.None? && GalleryMain.ToCard(a, cardGateway).name == a.id
  {
  }

  /** An empty `links.image` is skipped by the card's `||` chain but stops the
      tile's `??` chain: the card shows the JSON image, the tile the placeholder. */
  lemma EmptyLinkImageDiverges(id: string, cid: string, gateway: string)
    requires cid != ""
    ensures var a := Asset(id, Some(Content(None, None, Some(map["image" := ""]),
                                            Some(map["image" := "ipfs://" + cid]))), None);
      && GalleryMain.ToCard(a, gateway).image == gateway + cid
      && GalleryApp.TileOf(a, gateway).image == GalleryApp.PLACEHOLDER_IMAGE
  {
    var u := "ipfs://" + cid;
    assert u[..7] == "ipfs://";
    assert u[7..] == cid;
  }
}
