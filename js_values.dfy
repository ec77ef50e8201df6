/** JavaScript value semantics used throughout the gallery: optional values
    (`undefined` versus present), truthiness of optional strings, the nullish
    (`??`) and logical-or (`||`) fallbacks, and the string prefix tests the
    source performs with `startsWith` and anchored regular expressions. */
module JsValues {

  /** A JavaScript value that may be `undefined` (or `null`). */
  datatype Option<+T> = None | Some(value: T) {
    /** `x ?? d` when `x` is the option itself and `d` a plain value. */
    function GetOr(d: T): T {
      match this
      case Some(v) => v
      case None => d
    }
  }

  /** A JSON object whose inspected values are strings. */
  type StrMap = map<string, string>

  /** JavaScript truthiness of an optional string: `undefined` and `""` are falsy. */
  predicate Truthy(x: Option<string>) {
    x.Some? && x.value != ""
  }

  /** `a ?? b`: only `undefined`/`null` falls through. */
  function Coalesce<T>(a: Option<T>, b: Option<T>): Option<T> {
    if a.Some? then a else b
  }

  /** `a || b` on optional strings: both `undefined` and `""` fall through,
      and when both are falsy the second operand is the value. */
  function Or(a: Option<string>, b: Option<string>): Option<string> {
    if Truthy(a) then a else b
  }

  /** `m?.[k]`: the property `k` of an optional object. */
  function Lookup(m: Option<StrMap>, k: string): Option<string> {
    if m.Some? && k in m.value then Some(m.value[k]) else None
  }

  /** `s.startsWith(p)`: case-sensitive prefix test. */
  predicate StartsWith(s: string, p: string) {
    |p| <= |s| && s[..|p|] == p
  }

  /** ASCII lower-casing, the only case folding a non-Unicode `/i` regular
      expression applies to the letters of the patterns used here. */
  function LowerAscii(c: char): char {
    if 'A' <= c <= 'Z' then (c as int - 'A' as int + 'a' as int) as char else c
  }

  /** `/^p/i.test(s)` for a lower-case literal pattern `p`. */
  predicate StartsWithIgnoreCase(s: string, p: string) {
    |p| <= |s| && forall i :: 0 <= i < |p| ==> LowerAscii(s[i]) == p[i]
  }

  /** `s.replace(/^p/i, "")`: removes one anchored occurrence of `p`. */
  function StripPrefixIgnoreCase(s: string, p: string): string {
    if StartsWithIgnoreCase(s, p) then s[|p|..] else s
  }

  /** A pattern made of lower-case letters and punctuation matches itself. */
  predicate IsFolded(p: string) {
    forall i :: 0 <= i < |p| ==> LowerAscii(p[i]) == p[i]
  }

  lemma PrefixOfConcat(p: string, rest: string)
    requires IsFolded(p)
    ensures StartsWithIgnoreCase(p + rest, p)
  {
    forall i | 0 <= i < |p| ensures LowerAscii((p + rest)[i]) == p[i] {
      assert (p + rest)[i] == p[i];
    }
  }

  lemma PrefixExtends(s: string, t: string, p: string)
    requires StartsWithIgnoreCase(s, p)
    ensures StartsWithIgnoreCase(s + t, p)
  {
    forall i | 0 <= i < |p| ensures LowerAscii((s + t)[i]) == p[i] {
      assert (s + t)[i] == s[i];
    }
  }
}
