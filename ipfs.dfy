/** The shared content-address rewrite of src/utils/ipfs.ts: an `ipfs://`
    (or `ipfs/`) reference becomes a URL under an HTTP gateway, an http(s)
    URL passes through, and a missing or empty reference becomes "". */
module Ipfs {
  import opened JsValues

  /** Gateway used when the environment does not configure one. */
  const DEFAULT_GATEWAY: string := "https://ipfs.io/ipfs/"

  /** `env.VITE_IPFS_GATEWAY || fallback`: an unset or empty setting falls back. */
  function ResolveGateway(env: Option<string>, fallback: string): (r: string)
    ensures Truthy(env) ==> r == env.value
    ensures !Truthy(env) ==> r == fallback
    ensures r == "" <==> !Truthy(env) && fallback == ""
  {
    Or(env, Some(fallback)).value
  }

  /** `/^https?:\/\//i.test(s)` */
  predicate IsHttpUrl(s: string) {
    StartsWithIgnoreCase(s, "http://") || StartsWithIgnoreCase(s, "https://")
  }

  /** `s.replace(/^ipfs:\/\//i, "").replace(/^ipfs\//i, "")` */
  function ContentPath(s: string): string {
    StripPrefixIgnoreCase(StripPrefixIgnoreCase(s, "ipfs://"), "ipfs/")
  }

  /** `ipfsToHttp(uri)` with the gateway already resolved. */
  function IpfsToHttp(uri: Option<string>, gateway: string): (r: string)
    ensures !Truthy(uri) ==> r == ""
    ensures Truthy(uri) && IsHttpUrl(uri.value) ==> r == uri.value
    ensures Truthy(uri) && !IsHttpUrl(uri.value) ==> StartsWith(r, gateway) && |r| <= |gateway| + |uri.value|
  {
    if !Truthy(uri) then ""
    else if IsHttpUrl(uri.value) then uri.value
    else
      var rest := ContentPath(uri.value);
      assert |rest| <= |uri.value|;
      assert (gateway + rest)[..|gateway|] == gateway;
      gateway + rest
  }

  /** The configured gateway, or the default, is never empty. */
  lemma ResolvedGatewayNonEmpty(env: Option<string>, fallback: string)
    requires fallback != ""
    ensures ResolveGateway(env, fallback) != ""
    ensures !Truthy(env) ==> ResolveGateway(env, fallback) == fallback
    ensures Truthy(env) ==> ResolveGateway(env, fallback) == env.value
  {
  }

  /** With a non-empty gateway the rewrite is empty exactly when the input is
      missing or empty. */
  lemma EmptyIffFalsy(uri: Option<string>, gateway: string)
    requires gateway != ""
    ensures IpfsToHttp(uri, gateway) == "" <==> !Truthy(uri)
  {
  }

  /** One leading `ipfs://` is removed in any letter case, then one leading
      `ipfs/`; what follows is appended to the gateway. */
  lemma SchemeThenPathStripped(u: string, gateway: string)
    requires StartsWithIgnoreCase(u, "ipfs://")
    ensures IpfsToHttp(Some(u), gateway) == gateway + StripPrefixIgnoreCase(u[7..], "ipfs/")
  {
    assert LowerAscii(u[0]) == 'i';
    assert !IsHttpUrl(u);
  }

  /** `ipfs://ipfs/x` is `x` under the gateway, whatever `x` is. */
  lemma DoublePrefixCollapses(x: string, gateway: string)
    ensures IpfsToHttp(Some("ipfs://ipfs/" + x), gateway) == gateway + x
  {
    var u := "ipfs://ipfs/" + x;
    assert u == "ipfs://" + ("ipfs/" + x);
    PrefixOfConcat("ipfs://", "ipfs/" + x);
    SchemeThenPathStripped(u, gateway);
    assert u[7..] == "ipfs/" + x;
    PrefixOfConcat("ipfs/", x);
  }

  /** A path prefix `ipfs/` without the scheme, in any letter case, is removed
      on its own. */
  lemma PathPrefixStripped(u: string, gateway: string)
    requires !StartsWithIgnoreCase(u, "ipfs://") && StartsWithIgnoreCase(u, "ipfs/")
    ensures IpfsToHttp(Some(u), gateway) == gateway + u[5..]
  {
    assert LowerAscii(u[0]) == 'i';
  }

  /** A reference that starts with neither `ipfs://` nor `ipfs/`, in any letter
      case, is appended whole: a later `ipfs/` in the path is kept. */
  lemma OnlyAnchoredPrefixStripped(u: string, gateway: string)
    requires u != "" && !IsHttpUrl(u)
    requires !StartsWithIgnoreCase(u, "ipfs://") && !StartsWithIgnoreCase(u, "ipfs/")
    ensures IpfsToHttp(Some(u), gateway) == gateway + u
  {
  }

  /** `ipfs://cid` is `cid` under the gateway when `cid` has no `ipfs/` prefix. */
  lemma SchemeOnlyStripped(cid: string, gateway: string)
    requires !StartsWithIgnoreCase(cid, "ipfs/")
    ensures IpfsToHttp(Some("ipfs://" + cid), gateway) == gateway + cid
  {
    var u := "ipfs://" + cid;
    PrefixOfConcat("ipfs://", cid);
    SchemeThenPathStripped(u, gateway);
    assert u[7..] == cid;
  }

  /** The documented example: `ipfs://bafy123/meta.json` under `https://gw/ipfs/`. */
  lemma DocumentedExample()
    ensures IpfsToHttp(Some("ipfs://" + "bafy123/meta.json"), "https://gw/ipfs/")
         == "https://gw/ipfs/" + "bafy123/meta.json"
  {
    var cid := "bafy123/meta.json";
    assert LowerAscii(cid[0]) != "ipfs/"[0];
    SchemeOnlyStripped(cid, "https://gw/ipfs/");
  }

  /** When the gateway is itself an http(s) URL, rewriting twice is rewriting once. */
  lemma {:induction false} Idempotent(uri: Option<string>, gateway: string)
    requires IsHttpUrl(gateway)
    ensures IpfsToHttp(Some(IpfsToHttp(uri, gateway)), gateway) == IpfsToHttp(uri, gateway)
  {
    if Truthy(uri) && !IsHttpUrl(uri.value) {
      var rest := ContentPath(uri.value);
      if StartsWithIgnoreCase(gateway, "http://") {
        PrefixExtends(gateway, rest, "http://");
      } else {
        PrefixExtends(gateway, rest, "https://");
      }
    }
  }

  /** The default gateway is an http(s) URL, so the default rewrite is idempotent. */
  lemma DefaultGatewayIsHttp()
    ensures IsHttpUrl(DEFAULT_GATEWAY)
  {
    assert DEFAULT_GATEWAY == "https://" + "ipfs.io/ipfs/";
    PrefixOfConcat("https://", "ipfs.io/ipfs/");
  }
}
