/** The `origin` callback of the CORS middleware in backend/index.js. It tells which
    rule decides an origin and whether the origin is allowed. Every rule allows, so
    the server accepts any origin. */
module CorsPolicy {
  import opened Maybe

  predicate StartsWith(s: string, prefix: string) {
    |prefix| <= |s| && s[..|prefix|] == prefix
  }

  const AllowList: seq<string> := ["http://localhost:19006", "http://localhost:8081", "http://localhost:3000"]

  const DevPrefixes: seq<string> :=
    ["http://localhost:", "http://127.0.0.1:", "http://192.168.", "http://10.", "http://172."]

  predicate HasDevPrefix(origin: string) {
    exists i :: 0 <= i < |DevPrefixes| && StartsWith(origin, DevPrefixes[i])
  }

  /** The rule the callback reaches: no (or an empty) `Origin` header, a local or LAN
      prefix, the allow-list, or the final fall-through. */
  datatype Rule = NoOrigin | DevPrefix | Listed | FallThrough

  /** The callback, as the rule that answers and the `cb(null, allowed)` it makes. */
  function Decide(origin: Option<string>): (d: (Rule, bool))
    ensures d.0 == NoOrigin <==> origin.None? || origin.value == ""
    ensures d.0 == DevPrefix <==> origin.Some? && origin.value != "" && HasDevPrefix(origin.value)
    ensures d.0 == Listed ==> origin.value in AllowList
  {
    if origin.None? || origin.value == "" then (NoOrigin, true)
    else if HasDevPrefix(origin.value) then (DevPrefix, true)
    else if origin.value in AllowList then (Listed, true)
    else (FallThrough, true)
  }

  /** Every origin is allowed, whichever rule answers. */
  lemma EveryOriginAllowed(origin: Option<string>)
    ensures Decide(origin).1
  {
  }

  /** Each allow-list entry already starts with "http://localhost:", so the allow-list
      rule is never the one that answers. */
  lemma AllowListUnreachable(origin: Option<string>)
    ensures Decide(origin).0 != Listed
  {
    forall i | 0 <= i < |AllowList| ensures StartsWith(AllowList[i], DevPrefixes[0]) {
      assert AllowList[i][..|DevPrefixes[0]|] == DevPrefixes[0];
    }
  }
}
