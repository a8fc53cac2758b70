/** The middleware that writes a fixed set of security headers on every response. */
module SecurityHeaders {
  import opened Wrappers
  import Text

  /** A header as the response stores it: the name as last written, and its value. */
  datatype Header = Header(name: string, value: string)

  /** Response headers, keyed by lower-cased name: names are case-insensitive. */
  type Headers = map<string, Header>

  /** The header name lower-cased letter by letter (ASCII). */
  function Key(name: string): (k: string)
    ensures |k| == |name|
    ensures forall i :: 0 <= i < |name| ==> k[i] == Text.LowerAscii(name[i])
  {
    seq(|name|, i requires 0 <= i < |name| => Text.LowerAscii(name[i]))
  }

  /** `response[name]`, ignoring case. */
  function Lookup(h: Headers, name: string): (v: Option<string>)
    ensures v.Some? <==> Key(name) in h
    ensures v.Some? ==> v.value == h[Key(name)].value
  {
    if Key(name) in h then Some(h[Key(name)].value) else None
  }

  /** `response[name] = value`: replaces any header of that name in any case, and keeps the rest. */
  function SetHeader(h: Headers, name: string, value: string): (r: Headers)
    ensures Lookup(r, name) == Some(value)
    ensures Key(name) in r && r[Key(name)] == Header(name, value)
    ensures forall k :: k != Key(name) ==> (k in r <==> k in h) && (k in h ==> r[k] == h[k])
  {
    h[Key(name) := Header(name, value)]
  }

  const StsName := "Strict-Transport-Security"
  const StsValue := "max-age=31536000; includeSubDomains"
  const NoSniffName := "X-Content-Type-Options"
  const NoSniffValue := "nosniff"
  const ReferrerName := "Referrer-Policy"
  const ReferrerValue := "no-referrer"
  const CspName := "Content-Security-Policy"
  const CspValue := "default-src 'self'"
  const PermissionsName := "Permissions-Policy"
  const PermissionsValue := "camera=(), microphone=(), geolocation=()"
  const CoopName := "Cross-Origin-Opener-Policy"
  const CoopValue := "same-origin"
  const CoepName := "Cross-Origin-Embedder-Policy"
  const CoepValue := "require-corp"
  const CorpName := "Cross-Origin-Resource-Policy"
  const CorpValue := "same-origin"

  /** The headers after `process_response`: the eight writes, in order. No header is removed. */
  function WithSecurityHeaders(h: Headers): (r: Headers)
    ensures forall k :: k in h ==> k in r
  {
    var h1 := SetHeader(h, StsName, StsValue);
    var h2 := SetHeader(h1, NoSniffName, NoSniffValue);
    var h3 := SetHeader(h2, ReferrerName, ReferrerValue);
    var h4 := SetHeader(h3, CspName, CspValue);
    var h5 := SetHeader(h4, PermissionsName, PermissionsValue);
    var h6 := SetHeader(h5, CoopName, CoopValue);
    var h7 := SetHeader(h6, CoepName, CoepValue);
    SetHeader(h7, CorpName, CorpValue)
  }

  /** One of the keys the middleware writes. */
  predicate IsPolicyKey(k: string) {
    k == Key(StsName) || k == Key(NoSniffName) || k == Key(ReferrerName) || k == Key(CspName)
    || k == Key(PermissionsName) || k == Key(CoopName) || k == Key(CoepName) || k == Key(CorpName)
  }

  /** Names of different lengths differ after lower-casing. */
  lemma KeysOfLengths(a: string, b: string)
    requires |a| != |b|
    ensures Key(a) != Key(b)
  {
    assert |Key(a)| == |a|;
  }

  /** The two names of equal length differ in their fourteenth letter, also after lower-casing. */
  lemma EmbedderResourceDiffer()
    ensures Key(CoepName) != Key(CorpName)
  {
    assert CoepName[13] == 'E' && CorpName[13] == 'R';
    assert Text.LowerAscii('E') == 'e' && Text.LowerAscii('R') == 'r';
    assert Key(CoepName)[13] == 'e' && Key(CorpName)[13] == 'r';
  }

  /** Every name is written after the ones before it without a later write of the same name clobbering it. */
  lemma PolicyKeysDistinct()
    ensures Key(StsName) !in {Key(NoSniffName), Key(ReferrerName), Key(CspName), Key(PermissionsName),
                              Key(CoopName), Key(CoepName), Key(CorpName)}
    ensures Key(NoSniffName) !in {Key(ReferrerName), Key(CspName), Key(PermissionsName),
                                  Key(CoopName), Key(CoepName), Key(CorpName)}
    ensures Key(ReferrerName) !in {Key(CspName), Key(PermissionsName), Key(CoopName), Key(CoepName), Key(CorpName)}
    ensures Key(CspName) !in {Key(PermissionsName), Key(CoopName), Key(CoepName), Key(CorpName)}
    ensures Key(PermissionsName) !in {Key(CoopName), Key(CoepName), Key(CorpName)}
    ensures Key(CoopName) !in {Key(CoepName), Key(CorpName)}
    ensures Key(CoepName) != Key(CorpName)
  {
    KeysOfLengths(StsName, NoSniffName); KeysOfLengths(StsName, ReferrerName); KeysOfLengths(StsName, CspName);
    KeysOfLengths(StsName, PermissionsName); KeysOfLengths(StsName, CoopName); KeysOfLengths(StsName, CoepName);
    KeysOfLengths(StsName, CorpName);
    KeysOfLengths(NoSniffName, ReferrerName); KeysOfLengths(NoSniffName, CspName);
    KeysOfLengths(NoSniffName, PermissionsName); KeysOfLengths(NoSniffName, CoopName);
    KeysOfLengths(NoSniffName, CoepName); KeysOfLengths(NoSniffName, CorpName);
    KeysOfLengths(ReferrerName, CspName); KeysOfLengths(ReferrerName, PermissionsName);
    KeysOfLengths(ReferrerName, CoopName); KeysOfLengths(ReferrerName, CoepName); KeysOfLengths(ReferrerName, CorpName);
    KeysOfLengths(CspName, PermissionsName); KeysOfLengths(CspName, CoopName);
    KeysOfLengths(CspName, CoepName); KeysOfLengths(CspName, CorpName);
    KeysOfLengths(PermissionsName, CoopName); KeysOfLengths(PermissionsName, CoepName);
    KeysOfLengths(PermissionsName, CorpName);
    KeysOfLengths(CoopName, CoepName); KeysOfLengths(CoopName, CorpName);
    EmbedderResourceDiffer();
  }

  /** After `process_response` each of the eight headers has its literal value, whatever was there before. */
  lemma {:induction false} SecurityHeadersSet(h: Headers)
    ensures var r := WithSecurityHeaders(h);
            Lookup(r, StsName) == Some(StsValue) && Lookup(r, NoSniffName) == Some(NoSniffValue)
            && Lookup(r, ReferrerName) == Some(ReferrerValue) && Lookup(r, CspName) == Some(CspValue)
            && Lookup(r, PermissionsName) == Some(PermissionsValue) && Lookup(r, CoopName) == Some(CoopValue)
            && Lookup(r, CoepName) == Some(CoepValue) && Lookup(r, CorpName) == Some(CorpValue)
  {
    PolicyKeysDistinct();
  }

  /** Headers outside the eight are untouched, present or absent. */
  lemma {:induction false} OtherHeadersUnchanged(h: Headers, k: string)
    requires !IsPolicyKey(k)
    ensures k in WithSecurityHeaders(h) <==> k in h
    ensures k in h ==> WithSecurityHeaders(h)[k] == h[k]
  {
  }

  /** The written keys are exactly the eight, and each carries its header as written. */
  lemma {:induction false} PolicyEntries(h: Headers, k: string)
    requires IsPolicyKey(k)
    ensures k in WithSecurityHeaders(h)
    ensures WithSecurityHeaders(h)[k] == WithSecurityHeaders(map[])[k]
  {
    PolicyKeysDistinct();
    var r := WithSecurityHeaders(h);
    var e := WithSecurityHeaders(map[]);
    if k == Key(CorpName) {
      assert r[k] == e[k] == Header(CorpName, CorpValue);
    } else if k == Key(CoepName) {
      assert r[k] == e[k] == Header(CoepName, CoepValue);
    } else if k == Key(CoopName) {
      assert r[k] == e[k] == Header(CoopName, CoopValue);
    } else if k == Key(PermissionsName) {
      assert r[k] == e[k] == Header(PermissionsName, PermissionsValue);
    } else if k == Key(CspName) {
      assert r[k] == e[k] == Header(CspName, CspValue);
    } else if k == Key(ReferrerName) {
      assert r[k] == e[k] == Header(ReferrerName, ReferrerValue);
    } else if k == Key(NoSniffName) {
      assert r[k] == e[k] == Header(NoSniffName, NoSniffValue);
    } else {
      assert r[k] == e[k] == Header(StsName, StsValue);
    }
  }

  /** Applying the middleware twice is the same as once. */
  lemma {:induction false} SecurityHeadersIdempotent(h: Headers)
    ensures WithSecurityHeaders(WithSecurityHeaders(h)) == WithSecurityHeaders(h)
  {
    var once := WithSecurityHeaders(h);
    var twice := WithSecurityHeaders(once);
    forall k ensures (k in twice <==> k in once) && (k in once ==> twice[k] == once[k]) {
      IdempotentAt(h, k);
    }
    SameHeaders(twice, once);
  }

  /** The second run leaves each single header as the first run left it. */
  lemma IdempotentAt(h: Headers, k: string)
    ensures var once := WithSecurityHeaders(h);
            (k in WithSecurityHeaders(once) <==> k in once)
            && (k in once ==> WithSecurityHeaders(once)[k] == once[k])
  {
    var once := WithSecurityHeaders(h);
    if IsPolicyKey(k) {
      PolicyEntries(h, k);
      PolicyEntries(once, k);
    } else {
      OtherHeadersUnchanged(once, k);
    }
  }

  /** Header maps with the same keys and the same entries are equal. */
  lemma SameHeaders(a: Headers, b: Headers)
    requires forall k :: (k in a <==> k in b) && (k in a ==> a[k] == b[k])
    ensures a == b
  {
    assert a.Keys == b.Keys;
  }

  class HttpResponse {
    var headers: Headers

    constructor (headers: Headers)
      ensures this.headers == headers
    {
      this.headers := headers;
    }

    /** `response[name] = value`. */
    method SetItem(name: string, value: string)
      modifies this`headers
      ensures headers == SetHeader(old(headers), name, value)
    {
      headers := headers[Key(name) := Header(name, value)];
    }
  }

  class SecurityHeadersMiddleware {
    constructor () {}

    /** `process_response`: writes the eight headers and returns the same response; the request is not consulted. */
    method ProcessResponse<R>(request: R, response: HttpResponse) returns (r: HttpResponse)
      modifies response`headers
      ensures r == response
      ensures response.headers == WithSecurityHeaders(old(response.headers))
    {
      response.SetItem(StsName, StsValue);
      response.SetItem(NoSniffName, NoSniffValue);
      response.SetItem(ReferrerName, ReferrerValue);
      response.SetItem(CspName, CspValue);
      response.SetItem(PermissionsName, PermissionsValue);
      response.SetItem(CoopName, CoopValue);
      response.SetItem(CoepName, CoepValue);
      response.SetItem(CorpName, CorpValue);
      r := response;
    }
  }
}
