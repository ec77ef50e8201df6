# Solana mini gallery: asset loading and metadata normalisation

This project models the logic core of a browser gallery for one Solana NFT
collection. The gallery lists assets from a DAS indexing API. It rewrites
content-addressed `ipfs://` references to HTTP gateway URLs. It then turns
each asset's nested, partly optional fields into what a card or tile shows.

The model has one module per source file, plus two shared modules:

- `JsValues` (`js_values.dfy`) holds the JavaScript semantics the source relies on.
  `Option` stands for a value that may be `undefined`. `Truthy` gives the truthiness of an optional string.
  `Coalesce` is `??`: only `undefined` falls through. `Or` is `||`: `undefined` and `""` both fall through.
  It also holds the `startsWith` test and the anchored, case-insensitive regular-expression prefix tests.
- `Ipfs` (`ipfs.dfy`) is `ipfsToHttp` from `src/utils/ipfs.ts`. The gateway is a parameter.
  `ResolveGateway` models `VITE_IPFS_GATEWAY || default`.
- `Das` (`das.dfy`) is `src/api/das.ts`. It holds the `DasAsset` shape and the optional-chaining reads on it.
  It also holds the JSON-RPC page request and the pagination loop, `FetchAllPages`, as a `while` loop that grows
  an accumulator. The network is a page oracle: `responses[p - 1]` is the answer to page `p`.
  That answer is either a parsed `result.items`, which may be absent, or a `Failure` for a thrown `fetch` or `res.json()`.
- `GalleryMain` (`main_view.dfy`) is `src/main.tsx`. It holds that file's own `ipfsToHttp`, which rewrites only a
  lower-case `ipfs://`. It also holds the owner-mode collection filter, the asset-to-card mapping,
  the render-time re-conversion, and `load` as the composition of listing, filter and mapping.
- `GalleryApp` (`app_view.dfy`) is `src/App.tsx`. The enrichment callback changes each asset object in place.
  So an asset object is the class `AssetObject`, and its `Enrich` method replaces `content`.
  `EnrichAll` runs the callback over the batch. The fetch of the metadata document is a parameter of type `Option<Meta>`.
  `None` stands for a non-OK response or a thrown failure. `TileOf` resolves what one grid tile shows.
- `EntryPoints` (`entry_points.dfy`) compares the two entry points, `main.tsx` cards and `App.tsx` tiles.
  They agree on the verified flag. Their names and images differ.

Three behaviours of the code are easy to misread, and the model follows the code in each:

- The display name is not "the first non-empty value, else the id". `main.tsx` uses `??`, so an empty
  metadata name is kept, and the card name is `""` (`GalleryMain.NamePrecedence`).
  The `App.tsx` tile has no id fallback at all.
- The comment at src/main.tsx:69 says "Prefer links.image, then JSON/metadata image". `main.tsx` picks
  the first truthy value with `||`, which skips `""`. `App.tsx` uses `??`, which does not skip it
  (`EntryPoints.EmptyLinkImageDiverges`).
- After a successful enrichment, `links.image` is set even when the document has no image.
  The tile then shows the placeholder, even if the asset's JSON had an image before (`GalleryApp.EnrichedTileImage`).

## Model

| member | source | states |
|---|---|---|
| `Ipfs.IpfsToHttp` | src/utils/ipfs.ts:2-7 | An undefined or empty input gives `""`. An http(s) URL, in any letter case, is returned unchanged. Any other input gives a string that begins with the gateway and is no longer than the gateway plus the input. |
| `Ipfs.ResolveGateway` | src/utils/ipfs.ts:5 | The gateway is the configured value when that is truthy, and the fallback otherwise. It is empty only when both are. |
| `Ipfs.ResolvedGatewayNonEmpty` | src/utils/ipfs.ts:5 | The gateway is the configured value when that is truthy and the default otherwise, so it is never empty. |
| `Ipfs.EmptyIffFalsy` | src/utils/ipfs.ts:3-6 | With a non-empty gateway, the rewrite is `""` exactly when the input is missing or empty. |
| `Ipfs.SchemeThenPathStripped` | src/utils/ipfs.ts:6 | For an input that starts with `ipfs://` in any case, the result is the gateway followed by the rest, with one further leading `ipfs/` removed. |
| `Ipfs.DoublePrefixCollapses` | src/utils/ipfs.ts:6 | `ipfs://ipfs/x` becomes gateway + `x`, for every `x`. |
| `Ipfs.SchemeOnlyStripped` | src/utils/ipfs.ts:6 | `ipfs://cid` becomes gateway + `cid` when `cid` has no leading `ipfs/`. |
| `Ipfs.PathPrefixStripped` | src/utils/ipfs.ts:6 | An input that starts with `ipfs/` in any case, but not with `ipfs://`, becomes the gateway followed by the rest after those 5 characters. |
| `Ipfs.OnlyAnchoredPrefixStripped` | src/utils/ipfs.ts:6 | A non-http input that starts with neither `ipfs://` nor `ipfs/`, in any case, is appended whole. So `ipfs:/x`, `ipfsx` and a later `ipfs/` in the path are kept. |
| `Ipfs.DocumentedExample` | src/utils/ipfs.ts:1-7 | `ipfs://bafy123/meta.json` under `https://gw/ipfs/` gives `https://gw/ipfs/bafy123/meta.json`. |
| `Ipfs.Idempotent` | src/utils/ipfs.ts:4-6 | When the gateway is an http(s) URL, rewriting the result again changes nothing. |
| `Ipfs.DefaultGatewayIsHttp` | src/utils/ipfs.ts:5 | The default gateway is an http(s) URL, so the idempotence above holds by default. |
| `Das.FindGroup` | src/main.tsx:75 | `grouping.find` gives the first entry with the key. It gives none exactly when no entry has that key. |
| `Das.RequestFor` | src/api/das.ts:26-37 | Every page request carries its page number and `limit` 1000. |
| `Das.LastPage` | src/api/das.ts:44-47 | The last page requested is the first answer that failed or held fewer than 1000 items. Every earlier answer held a full page. |
| `Das.FetchAllPages` | src/api/das.ts:22-50 | The loop sends pages 1, 2, … in order, up to and including the last page. It returns all delivered pages concatenated in order, or the rejection of a failed request. |
| `Das.GetAssetsByCollection` | src/api/das.ts:22-50 | Requests are `getAssetsByGroup` with key `collection`, the mint, page `i + 1`, limit 1000 and sort `created asc`. The result is as for `FetchAllPages`. |
| `Das.GetAssetsByOwner` | src/api/das.ts:53-80 | Requests are `getAssetsByOwner` with the owner, page `i + 1`, limit 1000 and collection metadata shown. The accumulation and stopping rule are the same. |
| `Das.ShortFirstPage` | src/api/das.ts:44-46 | A short first page gives exactly one request, and the result is exactly that page. |
| `Das.MissingItemsEndsLoop` | src/api/das.ts:44-46 | An answer without `result.items` is an empty page, so the loop ends on that page at the latest. |
| `Das.MissingItemsAddNothing` | src/api/das.ts:44-46 | Full pages followed by a page without `result.items`: the loop stops on that page, and the result is the full pages alone. |
| `Das.FlattenSnoc` | src/api/das.ts:45 | Appending one more delivered page appends its items to the accumulated result. |
| `Das.FullPagesThenShort` | src/api/das.ts:45-47 | N full pages followed by a short page give N+1 requests. The result is all pages concatenated, with 1000·N items plus the short page's items. |
| `Das.FlattenLength` | src/api/das.ts:45 | Concatenating full pages followed by a last page gives 1000 items per full page plus the last page's items. |
| `Das.FlattenIndex` | src/api/das.ts:45 | When all earlier pages were full, item `i` of page `p` sits at position `1000·p + i` of the accumulated result. |
| `Das.RejectedIffLastFailed` | src/api/das.ts:38-45 | A listing is rejected exactly when the request for its last page failed. Otherwise every page up to the last was delivered. No partial result is returned. |
| `GalleryMain.IpfsToHttp` | src/main.tsx:26-27 | Missing or empty input gives `""`. A lower-case `ipfs://` input gives the gateway followed by the 7-character-shorter rest. Any other input is returned unchanged. |
| `GalleryMain.RewriteCases` | src/main.tsx:26-27 | Missing or empty input gives `""`. Only a lower-case `ipfs://` prefix is replaced by the gateway. Every other string is returned unchanged. |
| `GalleryMain.VariantsDiverge` | src/main.tsx:26-27 | `ipfs/x` and `IPFS://x` pass through this variant unchanged. The shared rewrite puts both under the gateway. |
| `GalleryMain.VariantsAgree` | src/main.tsx:26-27 | The two variants agree on missing input, on http(s) URLs, and on `ipfs://` references without a second `ipfs/`. |
| `GalleryMain.RenderRewriteIsStable` | src/main.tsx:26-27 | For a gateway of at least 7 characters that does not start with `ipfs://`, rewriting twice equals rewriting once. |
| `GalleryMain.DefaultGatewayIsStable` | src/main.tsx:24-25 | The default gateway meets that condition. |
| `GalleryMain.FilterInCollection` | src/main.tsx:59-63 | The owner-mode filter keeps exactly the assets with a grouping entry whose key is `collection` and whose value is the collection. It never grows the list. |
| `GalleryMain.FilterDistributes` | src/main.tsx:59 | The filter distributes over concatenation, so kept assets stay in their original order. |
| `GalleryMain.FilterSingle` | src/main.tsx:60-62 | A single asset is kept exactly when it is a member of the collection. |
| `GalleryMain.UnverifiedMemberKept` | src/main.tsx:60-62 | A membership entry whose `verified` is `false` or absent still keeps the asset. |
| `GalleryMain.ToCard` | src/main.tsx:77-85 | A card's `id` and `mint` are both the asset id. Its `jsonUri` is `content.json_uri`, left unconverted. |
| `GalleryMain.ToCards` | src/main.tsx:66 | The mapping keeps the length, and card `i` is built from asset `i`. |
| `GalleryMain.NamePrecedence` | src/main.tsx:67 | The name is the metadata name if defined, else the JSON name if defined, else the id. A defined but empty metadata name wins. |
| `GalleryMain.SymbolPrecedence` | src/main.tsx:68 | The symbol is the metadata symbol, else the JSON symbol. It is absent only when both are, since there is no id fallback. |
| `GalleryMain.ImagePrecedence` | src/main.tsx:70-74 | The image is the rewrite of the first truthy value among `links.image`, `json.image` and `metadata.image`. It is `""` when none is truthy. |
| `GalleryMain.VerifiedIffFirstCollectionEntry` | src/main.tsx:75-76 | A card is verified exactly when the first `collection` entry has `verified: true`. A missing entry and an explicit `false` are alike. |
| `GalleryMain.RenderedImageSrc` | src/main.tsx:212-214 | An image is rendered exactly when the card image is non-empty. An image without a lower-case `ipfs://` prefix is used as it is. |
| `GalleryMain.CardImageRenderedAsIs` | src/main.tsx:212-214 | At render time, the re-conversion of a card image returns that image unchanged. An empty image shows the "No image" box. |
| `GalleryMain.Load` | src/main.tsx:57-88 | Owner mode (toggle on and a non-empty owner) drains the owner listing and filters it. Otherwise the collection listing is drained. The requests go to that listing only. The cards are the mapping of the selected assets. A rejected listing yields no cards. |
| `GalleryMain.SelectedAssets` | src/main.tsx:57-64 | Outside owner mode the selection is the collection listing. In owner mode it is rejected exactly when the owner listing is. Otherwise it holds exactly the owner's assets that belong to the collection, and never more assets than the owner listing. |
| `GalleryMain.OwnerModeSelectsMembers` | src/main.tsx:57-64 | In owner mode, the selected assets are exactly the owner's assets that belong to the collection. |
| `GalleryApp.MetaUrl` | src/App.tsx:51 | The metadata URL is `""` for a missing or empty `json_uri`. An http(s) `json_uri` is used as it is. Any other `json_uri` gives a URL under the gateway. |
| `GalleryApp.Enriched` | src/App.tsx:50-64 | Enrichment never changes the id, grouping, `json_uri` or on-chain metadata. With no metadata URL, or a failed or non-OK fetch, the asset is unchanged. |
| `GalleryApp.AssetObject.Enrich` | src/App.tsx:50-64 | The callback fetches the rewritten `json_uri` when it is non-empty and nothing otherwise. The object's new value is the enriched asset. |
| `GalleryApp.EnrichedBatch` | src/App.tsx:49-50 | Batch enrichment keeps the length. Output `i` is asset `i`, enriched with its own fetch outcome. |
| `GalleryApp.MetaRequests` | src/App.tsx:51-54 | A batch fetches at most one URL per asset, never an empty one. |
| `GalleryApp.EnrichAll` | src/App.tsx:49-65 | The same objects come back, in order. Each holds its enriched asset. The URLs are fetched in asset order. |
| `GalleryApp.NoFetchWithoutJsonUri` | src/App.tsx:51-52 | With a non-empty gateway, no fetch happens exactly when `json_uri` is missing or empty, and the asset is then unchanged. |
| `GalleryApp.MergedJson` | src/App.tsx:58-59 | After a successful fetch, each JSON field has the document's value where the document has one, and the previous value otherwise. |
| `GalleryApp.RewrittenLinks` | src/App.tsx:57-60 | After a successful fetch, `links.image` is the rewritten document image, even when that is `""`. Every other link is kept. |
| `GalleryApp.EnrichIdempotent` | src/App.tsx:57-60 | Enriching twice with the same outcome equals enriching once. |
| `GalleryApp.EnrichmentIsolation` | src/App.tsx:53-63 | Another asset's fetch outcome does not change an asset's result. A failed fetch returns its asset unchanged. |
| `GalleryApp.TileOf` | src/App.tsx:139-143 | A tile's image is never empty. Its metadata link is the rewritten `json_uri`. |
| `GalleryApp.TileImagePrecedence` | src/App.tsx:139-140 | A defined `links.image` is used even when empty, and then shows the placeholder. Otherwise the tile shows the rewritten `json.image`, or the placeholder when that rewrite is empty. |
| `GalleryApp.TileNameAndVerified` | src/App.tsx:141-143 | The name is the metadata name, else the JSON name, with no id fallback. Verified is the first `collection` entry's flag, else `false`. |
| `GalleryApp.EnrichedTileImage` | src/App.tsx:139-140 | After a successful enrichment under an http(s) gateway, the tile shows the document image rewritten once. When the document has no image, the tile shows the placeholder. |
| `EntryPoints.VerifiedAgrees` | src/main.tsx:75-76 | The card and the tile report the same verified flag. |
| `EntryPoints.NamesAgreeUnlessBothMissing` | src/main.tsx:67 | Card and tile names agree whenever the metadata or the JSON has a name. Otherwise the card shows the id and the tile has no name. |
| `EntryPoints.EmptyLinkImageDiverges` | src/main.tsx:70-74 | With an empty `links.image` and a JSON image `ipfs://cid`, the card shows gateway + `cid` and the tile shows the placeholder. |

## Left out

- React components, hooks and state setters are left out (`setLoading`, `setCards`, `setAssets`, `ReactDOM.createRoot`). `GalleryMain.Load` returns the cards that `setCards` would receive, and `None` where the cards shown before stay.
- `transferNft` (src/main.tsx:97-145) is left out. It consists of calls into the Solana token and web3 libraries, whose behaviour is not part of this model.
- The real `fetch`, `res.json()`, request serialisation and HTTP headers are left out. They are replaced by the page oracle and by the `Option<Meta>` outcome per asset.
- The `cache: "no-store"` option is network behaviour and is not modelled.
- Concurrency in `Promise.all` is not modelled. `GalleryApp.EnrichAll` enriches one asset after another; each asset's outcome is independent of the others, so the order does not matter.
- The missing timeout and cancellation are not modelled, and neither are races between overlapping loads.
- Das.FetchAllPages: the source loop runs forever against a server that never answers with a short page. The model requires that some answer ends the loop, so it does not model non-termination.
- The two loops of src/api/das.ts are one shared loop here, `Das.FetchAllPages`. The two listings differ only in the request built by `Das.RequestFor`.
- The endpoint warning (src/api/das.ts:16-19), environment lookups and the Buffer/process polyfills (src/main.tsx:1-4) are configuration side effects. The configured gateway is the `env` argument of `Ipfs.ResolveGateway`.
- JSON values other than strings are not modelled (numbers, arrays such as `attributes`, `null`, nested objects). The JSON bags, the links and the fetched document are string maps, so a field is either a string or absent. A document that parses to `null` is not modelled.
- GalleryApp.Enriched: a `null` field in the fetched document is copied by the spread at src/App.tsx:59, so it erases the old JSON field in the source. The model has no `null`, so it keeps the old field wherever the document has none.
- Nested objects are not shared between assets. So updating `a.content.json` and `a.content.links` in place is modelled as replacing the `content` value of the one object that holds it.
- The `load` of src/App.tsx (45-70) is `Das.GetAssetsByCollection` followed by `GalleryApp.EnrichAll` and `setAssets`. It is not a separate member, because turning the parsed items into objects is JSON parsing. A rejected listing is not caught there, so `setAssets` is not called.
- vite.config.ts is build configuration and is not part of this model.
